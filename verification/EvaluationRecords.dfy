// The documents of the one-shot ranking evaluation: intents, ledger events, evaluation
// outputs and the sealed bundle that binds them together by digests.
module EvaluationRecords {
  import opened Common

  // The frozen test cohort, as the digests of its files and manifests.
  datatype Cohort = Cohort(
    snapshotManifestSha: Digest,
    snapshotManifestFileSha: Digest,
    rankingFileSha: Digest,
    humanJudgmentsFileSha: Digest,
    qrelsFileSha: Digest,
    qrelsChecksum: Digest,
    qrelsEvidenceChecksum: Digest,
    querySplitFileSha: Digest,
    querySplitChecksum: Digest)

  datatype Artifact = Artifact(modelSha: Digest, metadataSha: Digest, manifestSha: Digest)

  datatype IntentBody = IntentBody(
    cohort: Cohort,
    artifact: Artifact,
    evaluatorSourceSha: Digest,
    dependencyLockSha: Digest,
    challenger: string,
    resamples: int,
    seed: int,
    policy: string)

  datatype Intent = Intent(cohortSha: Digest, body: IntentBody, intentSha: Digest)

  // Ledger events carry the digest of their own remaining fields.
  datatype RegistrationBody = RegistrationBody(cohortSha: Digest, intentSha: Digest, modelSha: Digest,
                                               registeredAt: nat)
  datatype Registration = Registration(body: RegistrationBody, eventSha: Digest)

  datatype AccessBody = AccessBody(cohortSha: Digest, intentSha: Digest, accessedAt: nat)
  datatype Access = Access(body: AccessBody, eventSha: Digest)

  datatype CompletionIdentity = CompletionIdentity(
    cohortSha: Digest,
    intentSha: Digest,
    registrationSha: Digest,
    accessSha: Digest,
    evaluationSha: Digest,
    reportSha: Digest,
    decisionSha: Digest)
  datatype CompletionBody = CompletionBody(identity: CompletionIdentity, completedAt: nat)
  datatype Completion = Completion(body: CompletionBody, eventSha: Digest)

  // What scoring the test cohort produces.  `content` stands for every field that the
  // governance code does not look at.
  datatype ReportBody = ReportBody(resamples: int, seed: int, splitChecksum: Digest, content: nat)
  datatype Report = Report(body: ReportBody, reportSha: Digest)
  datatype DecisionBody = DecisionBody(
    passed: bool,
    reportSha: Digest,
    challenger: string,
    policy: string,
    artifact: Artifact,
    content: nat)
  datatype Decision = Decision(body: DecisionBody, decisionSha: Digest)
  datatype Output = Output(report: Report, decision: Decision)

  datatype BundleFile =
    | IntentFile | RegistrationFile | AccessFile | CompletionFile
    | ReportFile | DecisionFile | ManifestFile

  type Bundle = map<BundleFile, Bytes>

  datatype FileEvidence = FileEvidence(sha: Digest, size: nat)
  datatype LedgerIdentity = LedgerIdentity(registrationSha: Digest, accessSha: Digest, completionSha: Digest)
  datatype ManifestBody = ManifestBody(
    intentSha: Digest,
    cohortSha: Digest,
    evaluationSha: Digest,
    ledgerSha: Digest,
    ledger: LedgerIdentity,
    files: map<BundleFile, FileEvidence>)
  datatype Manifest = Manifest(body: ManifestBody, manifestSha: Digest)

  // Everything that is hashed.
  datatype Hashed =
    | CohortPayload(cohort: Cohort)
    | ContentPayload(cohortSha: Digest, body: IntentBody)
    | RegistrationPayload(registration: RegistrationBody)
    | AccessPayload(access: AccessBody)
    | CompletionPayload(completion: CompletionBody)
    | EvaluationPayload(intentSha: Digest, registrationSha: Digest, accessSha: Digest, reportSha: Digest,
                        decisionSha: Digest)
    | LedgerPayload(ledger: LedgerIdentity)
    | ReportPayload(report: ReportBody)
    | DecisionPayload(decision: DecisionBody)
    | ManifestPayload(manifest: ManifestBody)
    | FilePayload(bytes: Bytes)

  // Everything that is written to disk.
  datatype Doc =
    | IntentDoc(intent: Intent)
    | RegistrationDoc(registration: Registration)
    | AccessDoc(access: Access)
    | CompletionDoc(completion: Completion)
    | ReportDoc(report: Report)
    | DecisionDoc(decision: Decision)
    | ManifestDoc(manifest: Manifest)

  // The hash function and the JSON text format.
  datatype Codec = Codec(hash: Hashed -> Digest, encode: Doc -> Bytes, decode: Bytes -> Option<Doc>)

  ghost predicate Collide(c: Codec, x: Hashed, y: Hashed) {
    SameKind(x, y) && c.hash(x) == c.hash(y)
  }

  // Digests of different kinds of things are never compared with each other, and may coincide:
  // a file that holds the canonical text of a payload has the digest of that payload.
  predicate SameKind(x: Hashed, y: Hashed) {
    match x
    case CohortPayload(_) => y.CohortPayload?
    case ContentPayload(_, _) => y.ContentPayload?
    case RegistrationPayload(_) => y.RegistrationPayload?
    case AccessPayload(_) => y.AccessPayload?
    case CompletionPayload(_) => y.CompletionPayload?
    case EvaluationPayload(_, _, _, _, _) => y.EvaluationPayload?
    case LedgerPayload(_) => y.LedgerPayload?
    case ReportPayload(_) => y.ReportPayload?
    case DecisionPayload(_) => y.DecisionPayload?
    case ManifestPayload(_) => y.ManifestPayload?
    case FilePayload(_) => y.FilePayload?
  }

  // A document ends in `}` and a newline.  Reading a prefix of its text gives the document
  // back once the closing brace is there, with or without the newline, and fails before.
  ghost predicate PrefixReads(c: Codec, d: Doc, n: nat)
    requires n <= |c.encode(d)|
  {
    c.decode(c.encode(d)[..n]) == if n + 1 < |c.encode(d)| then None else Some(d)
  }

  ghost predicate LongEnough(c: Codec, d: Doc) {
    |c.encode(d)| >= 3
  }

  // The assumptions on the hash and the text format: no collisions, and self-delimiting text.
  ghost predicate Sound(c: Codec) {
    && (forall x, y :: Collide(c, x, y) ==> x == y)
    && (forall d :: LongEnough(c, d))
    && (forall d, n: nat | n <= |c.encode(d)| :: PrefixReads(c, d, n))
  }

  lemma HashInjective(c: Codec, x: Hashed, y: Hashed)
    requires Sound(c) && SameKind(x, y) && c.hash(x) == c.hash(y)
    ensures x == y
  {
    assert Collide(c, x, y);
  }

  lemma ReadPrefix(c: Codec, d: Doc, n: nat)
    requires Sound(c) && n <= |c.encode(d)|
    ensures |c.encode(d)| >= 3
    ensures c.decode(c.encode(d)[..n]) == if n + 1 < |c.encode(d)| then None else Some(d)
  {
    assert LongEnough(c, d);
    assert PrefixReads(c, d, n);
  }

  lemma ReadWhole(c: Codec, d: Doc)
    requires Sound(c)
    ensures |c.encode(d)| >= 3
    ensures c.decode(c.encode(d)) == Some(d)
  {
    ReadPrefix(c, d, |c.encode(d)|);
    assert c.encode(d)[..|c.encode(d)|] == c.encode(d);
  }

  // The intent's constructor checks both digests, so only such intents exist at run time.
  predicate ValidIntent(c: Codec, i: Intent) {
    && i.cohortSha == c.hash(CohortPayload(i.body.cohort))
    && i.intentSha == c.hash(ContentPayload(i.cohortSha, i.body))
  }

  // The intent digest identifies the whole intent, cohort included.
  lemma IntentDetermined(c: Codec, i: Intent, j: Intent)
    requires Sound(c) && ValidIntent(c, i) && ValidIntent(c, j)
    requires i.intentSha == j.intentSha
    ensures i == j
  {
    HashInjective(c, ContentPayload(i.cohortSha, i.body), ContentPayload(j.cohortSha, j.body));
  }

  function NewRegistration(c: Codec, i: Intent, time: nat): Registration {
    var body := RegistrationBody(i.cohortSha, i.intentSha, i.body.artifact.modelSha, time);
    Registration(body, c.hash(RegistrationPayload(body)))
  }

  function NewAccess(c: Codec, i: Intent, time: nat): Access {
    var body := AccessBody(i.cohortSha, i.intentSha, time);
    Access(body, c.hash(AccessPayload(body)))
  }

  function NewCompletion(c: Codec, identity: CompletionIdentity, time: nat): Completion {
    var body := CompletionBody(identity, time);
    Completion(body, c.hash(CompletionPayload(body)))
  }

  function EvaluationSha(c: Codec, i: Intent, registrationSha: Digest, accessSha: Digest, o: Output): Digest {
    c.hash(EvaluationPayload(i.intentSha, registrationSha, accessSha, o.report.reportSha, o.decision.decisionSha))
  }

  function IdentityOf(c: Codec, i: Intent, registrationSha: Digest, accessSha: Digest, o: Output): CompletionIdentity {
    CompletionIdentity(i.cohortSha, i.intentSha, registrationSha, accessSha,
                       EvaluationSha(c, i, registrationSha, accessSha, o),
                       o.report.reportSha, o.decision.decisionSha)
  }

  predicate SelfHashed(c: Codec, d: Doc) {
    match d
    case RegistrationDoc(e) => e.eventSha == c.hash(RegistrationPayload(e.body))
    case AccessDoc(e) => e.eventSha == c.hash(AccessPayload(e.body))
    case CompletionDoc(e) => e.eventSha == c.hash(CompletionPayload(e.body))
    case ReportDoc(r) => r.reportSha == c.hash(ReportPayload(r.body))
    case DecisionDoc(r) => r.decisionSha == c.hash(DecisionPayload(r.body))
    case ManifestDoc(m) => m.manifestSha == c.hash(ManifestPayload(m.body))
    case IntentDoc(i) => ValidIntent(c, i)
  }

  predicate OutputHashed(c: Codec, o: Output) {
    SelfHashed(c, ReportDoc(o.report)) && SelfHashed(c, DecisionDoc(o.decision))
  }

  // ---------------------------------------------------------------- the sealed bundle

  // The three ledger events of one evaluation.
  datatype Chain = Chain(registration: Registration, access: Access, completion: Completion)

  function Ledger(ch: Chain): LedgerIdentity {
    LedgerIdentity(ch.registration.eventSha, ch.access.eventSha, ch.completion.eventSha)
  }

  function Payloads(c: Codec, i: Intent, ch: Chain, o: Output): Bundle {
    map[IntentFile := c.encode(IntentDoc(i)),
        RegistrationFile := c.encode(RegistrationDoc(ch.registration)),
        AccessFile := c.encode(AccessDoc(ch.access)),
        CompletionFile := c.encode(CompletionDoc(ch.completion)),
        ReportFile := c.encode(ReportDoc(o.report)),
        DecisionFile := c.encode(DecisionDoc(o.decision))]
  }

  function Evidence(c: Codec, files: Bundle): map<BundleFile, FileEvidence> {
    map f | f in files :: FileEvidence(c.hash(FilePayload(files[f])), |files[f]|)
  }

  function ManifestOf(c: Codec, i: Intent, ch: Chain, o: Output): Manifest {
    var body := ManifestBody(
                  i.intentSha, i.cohortSha,
                  EvaluationSha(c, i, ch.registration.eventSha, ch.access.eventSha, o),
                  c.hash(LedgerPayload(Ledger(ch))), Ledger(ch),
                  Evidence(c, Payloads(c, i, ch, o)));
    Manifest(body, c.hash(ManifestPayload(body)))
  }

  // The exact bytes of the seven files of a bundle.
  function ExpectedBundle(c: Codec, i: Intent, ch: Chain, o: Output): Bundle {
    Payloads(c, i, ch, o)[ManifestFile := c.encode(ManifestDoc(ManifestOf(c, i, ch, o)))]
  }

  // The documents of a bundle directory, when every file has the right name and reads.
  datatype BundleDocs = BundleDocs(intent: Intent, chain: Chain, output: Output, manifest: Manifest)

  function ReadBundle(c: Codec, b: Bundle): Option<BundleDocs> {
    if b.Keys != {IntentFile, RegistrationFile, AccessFile, CompletionFile, ReportFile, DecisionFile,
                  ManifestFile} then None else
    match (c.decode(b[IntentFile]), c.decode(b[RegistrationFile]), c.decode(b[AccessFile]), c.decode(b[CompletionFile]),
           c.decode(b[ReportFile]), c.decode(b[DecisionFile]), c.decode(b[ManifestFile]))
    case (Some(IntentDoc(i)), Some(RegistrationDoc(r)), Some(AccessDoc(a)), Some(CompletionDoc(e)),
      Some(ReportDoc(p)), Some(DecisionDoc(d)), Some(ManifestDoc(m))) =>
      Some(BundleDocs(i, Chain(r, a, e), Output(p, d), m))
    case _ => None
  }

  // Every self-hash and every digest that one document holds of another.
  predicate Linked(c: Codec, i: Intent, ch: Chain, o: Output) {
    && ValidIntent(c, i)
    && OutputHashed(c, o)
    && SelfHashed(c, RegistrationDoc(ch.registration))
    && SelfHashed(c, AccessDoc(ch.access))
    && SelfHashed(c, CompletionDoc(ch.completion))
    && ch.registration.body.cohortSha == ch.access.body.cohortSha == i.cohortSha
    && ch.registration.body.intentSha == ch.access.body.intentSha == i.intentSha
    && ch.registration.body.modelSha == i.body.artifact.modelSha
    && ch.completion.body.identity == IdentityOf(c, i, ch.registration.eventSha, ch.access.eventSha, o)
  }

  predicate Chronological(ch: Chain) {
    ch.registration.body.registeredAt <= ch.access.body.accessedAt <= ch.completion.body.completedAt
  }

  // What the sealed decision and report must say about the preregistered intent.
  predicate Promotable(i: Intent, o: Output) {
    && o.decision.body.passed
    && o.decision.body.reportSha == o.report.reportSha
    && o.decision.body.challenger == i.body.challenger
    && o.decision.body.policy == i.body.policy
    && o.decision.body.artifact == i.body.artifact
    && o.report.body.resamples == i.body.resamples
    && o.report.body.seed == i.body.seed
    && o.report.body.splitChecksum == i.body.cohort.querySplitChecksum
  }

  // The independent verification of a bundle directory, on the bytes found there.
  predicate VerifyBundle(c: Codec, b: Bundle) {
    match ReadBundle(c, b)
    case None => false
    case Some(docs) =>
      var body := docs.manifest.body;
      && SelfHashed(c, ManifestDoc(docs.manifest))
      && body.files == Evidence(c, b - {ManifestFile})
      && body.intentSha == docs.intent.intentSha
      && body.cohortSha == docs.intent.cohortSha
      && Linked(c, docs.intent, docs.chain, docs.output)
      && Chronological(docs.chain)
      && Promotable(docs.intent, docs.output)
      && body.evaluationSha == docs.chain.completion.body.identity.evaluationSha
      && body.ledger == Ledger(docs.chain)
      && body.ledgerSha == c.hash(LedgerPayload(body.ledger))
  }

  lemma ExpectedReads(c: Codec, i: Intent, ch: Chain, o: Output)
    requires Sound(c)
    ensures ReadBundle(c, ExpectedBundle(c, i, ch, o)) == Some(BundleDocs(i, ch, o, ManifestOf(c, i, ch, o)))
    ensures ExpectedBundle(c, i, ch, o) - {ManifestFile} == Payloads(c, i, ch, o)
  {
    ReadWhole(c, IntentDoc(i));
    ReadWhole(c, RegistrationDoc(ch.registration));
    ReadWhole(c, AccessDoc(ch.access));
    ReadWhole(c, CompletionDoc(ch.completion));
    ReadWhole(c, ReportDoc(o.report));
    ReadWhole(c, DecisionDoc(o.decision));
    ReadWhole(c, ManifestDoc(ManifestOf(c, i, ch, o)));
  }

  // Sealing and verifying agree: a sealed bundle of linked records verifies exactly when
  // the timestamps are in order and the decision passed for this intent and report.
  lemma SealedVerifies(c: Codec, i: Intent, ch: Chain, o: Output)
    requires Sound(c) && Linked(c, i, ch, o)
    ensures VerifyBundle(c, ExpectedBundle(c, i, ch, o)) <==> Chronological(ch) && Promotable(i, o)
  {
    ExpectedReads(c, i, ch, o);
  }

  // A sealed bundle determines the intent, the events and the outputs in it.
  lemma BundleDetermines(c: Codec, i: Intent, ch: Chain, o: Output, i': Intent, ch': Chain, o': Output)
    requires Sound(c)
    requires ExpectedBundle(c, i, ch, o) == ExpectedBundle(c, i', ch', o')
    ensures i == i' && ch == ch' && o == o'
  {
    ExpectedReads(c, i, ch, o);
    ExpectedReads(c, i', ch', o');
  }

  // The manifest digest, which callers carry as the bundle's identity, pins every other byte.
  lemma ManifestPins(c: Codec, b: Bundle, b': Bundle)
    requires Sound(c) && VerifyBundle(c, b) && VerifyBundle(c, b')
    requires ReadBundle(c, b).value.manifest.manifestSha == ReadBundle(c, b').value.manifest.manifestSha
    ensures b - {ManifestFile} == b' - {ManifestFile}
    ensures ReadBundle(c, b) == ReadBundle(c, b')
  {
    var m, m' := ReadBundle(c, b).value.manifest, ReadBundle(c, b').value.manifest;
    HashInjective(c, ManifestPayload(m.body), ManifestPayload(m'.body));
    var files, files' := b - {ManifestFile}, b' - {ManifestFile};
    assert Evidence(c, files).Keys == files.Keys && Evidence(c, files').Keys == files'.Keys;
    forall f | f in files
      ensures f in files' && files[f] == files'[f]
    {
      assert f in Evidence(c, files');
      assert Evidence(c, files)[f] == Evidence(c, files')[f];
      HashInjective(c, FilePayload(files[f]), FilePayload(files'[f]));
    }
    assert files == files';
    assert forall f | f in files :: b[f] == files[f] && b'[f] == files[f];
  }
}
