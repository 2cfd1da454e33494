// The label-free binding of an evaluation to its test files, and the lineage checks that run
// after the one test access has been consumed.
module SnapshotBinding {
  import opened Common
  import opened EvaluationRecords

  // The files named on the command line, and the annotation evidence beside the qrels.
  datatype Inputs = Inputs(ranking: Bytes, manifest: Bytes, human: Bytes, qrels: Bytes, split: Bytes, evidence: Bytes)

  datatype Stamp = Stamp(sha: Digest, size: nat)

  datatype AnnotationFile = HumanJudgments | Qrels | QuerySplit | Evidence

  // A missing or malformed field of the manifest reads as None.
  datatype SnapshotManifest = SnapshotManifest(
    ranking: Stamp,
    annotation: map<AnnotationFile, Stamp>,
    humanContentSha: Option<Digest>,
    qrelsVersion: Option<string>,
    qrelsChecksum: Option<Digest>,
    qrelsEvidenceChecksum: Option<Digest>,
    judgmentManifestSha: Option<Digest>,
    splitVersion: Option<string>,
    splitChecksum: Option<Digest>,
    prelabelSha: Option<Digest>,
    contractSha: Option<Digest>,
    other: nat)

  datatype SignedManifest = SignedManifest(body: SnapshotManifest, sha: Digest)

  datatype QrelsDoc = QrelsDoc(version: string, checksum: Digest, evidenceChecksum: Digest,
                               judgmentManifestSha: Option<Digest>)
  datatype SplitDoc = SplitDoc(version: string, checksum: Digest)

  datatype Metadata = Metadata(
    candidateSetVersion: Option<string>,
    splitChecksum: Option<Digest>,
    judgmentManifestSha: Option<Digest>,
    datasetManifestSha: Option<Digest>,
    prelabelSha: Option<Digest>,
    contractSha: Option<Digest>)

  datatype RankerFiles = RankerFiles(model: Bytes, metadata: Bytes, manifest: Bytes)
  datatype Ranker = Ranker(metadata: Metadata, identity: Artifact)

  // The hash functions and the readers.  `judgments` and `adjudicated` give the content hash of
  // the human judgments and the qrels that follow from them; `otherChecks` stands for what the
  // verifier looks at besides these documents: the rows, reviewers, groups and split names.
  datatype Reader = Reader(
    sha: Bytes -> Digest,
    manifestSha: SnapshotManifest -> Digest,
    manifest: Bytes -> Option<SignedManifest>,
    judgments: Bytes -> Option<Digest>,
    adjudicated: Bytes -> Option<QrelsDoc>,
    qrels: Bytes -> Option<QrelsDoc>,
    split: Bytes -> Option<SplitDoc>,
    metadata: Bytes -> Option<Metadata>,
    otherChecks: Inputs -> bool)

  predicate Matches(r: Reader, file: Bytes, stamp: Stamp) {
    stamp == Stamp(r.sha(file), |file|)
  }

  predicate FileMatches(r: Reader, m: SnapshotManifest, name: AnnotationFile, file: Bytes) {
    name in m.annotation && Matches(r, file, m.annotation[name])
  }

  function LoadRanker(r: Reader, files: RankerFiles): Option<Ranker> {
    match r.metadata(files.metadata)
    case None => None
    case Some(metadata) => Some(Ranker(metadata, Artifact(r.sha(files.model), r.sha(files.metadata),
                                                          r.sha(files.manifest))))
  }

  function SignedBody(r: Reader, file: Bytes): Option<SignedManifest> {
    match r.manifest(file)
    case Some(signed) => if r.manifestSha(signed.body) == signed.sha then Some(signed) else None
    case None => None
  }

  // ---------------------------------------------------------------- before the access

  datatype Unopened = Unopened(cohort: Cohort, qrelsVersion: string, judgmentManifestSha: Digest,
                               prelabelSha: Digest, contractSha: Digest)

  predicate BindableManifest(m: SnapshotManifest) {
    && m.qrelsVersion.Some? && m.qrelsVersion.value != ""
    && m.qrelsChecksum.Some? && m.qrelsEvidenceChecksum.Some? && m.judgmentManifestSha.Some?
    && m.splitChecksum.Some? && m.prelabelSha.Some? && m.contractSha.Some?
  }

  predicate BindableFiles(r: Reader, m: SnapshotManifest, x: Inputs) {
    && Matches(r, x.ranking, m.ranking)
    && FileMatches(r, m, HumanJudgments, x.human)
    && FileMatches(r, m, Qrels, x.qrels)
    && FileMatches(r, m, QuerySplit, x.split)
  }

  function Cohorted(r: Reader, s: SignedManifest, x: Inputs): Unopened
    requires BindableManifest(s.body)
  {
    var m := s.body;
    Unopened(
      Cohort(s.sha, r.sha(x.manifest), r.sha(x.ranking), r.sha(x.human), r.sha(x.qrels), m.qrelsChecksum.value,
             m.qrelsEvidenceChecksum.value, r.sha(x.split), m.splitChecksum.value),
      m.qrelsVersion.value, m.judgmentManifestSha.value, m.prelabelSha.value, m.contractSha.value)
  }

  predicate TrainedOn(metadata: Metadata, u: Unopened) {
    && metadata.candidateSetVersion == Some(u.qrelsVersion)
    && metadata.splitChecksum == Some(u.cohort.querySplitChecksum)
    && metadata.judgmentManifestSha == Some(u.judgmentManifestSha)
    && metadata.datasetManifestSha == Some(u.cohort.snapshotManifestSha)
    && metadata.prelabelSha == Some(u.prelabelSha)
    && metadata.contractSha == Some(u.contractSha)
  }

  // Reads no judgment and no qrels row: of the test files it uses only sizes and hashes.
  function Bind(r: Reader, x: Inputs, ranker: Ranker): Option<Unopened> {
    match SignedBody(r, x.manifest)
    case None => None
    case Some(signed) =>
      if BindableFiles(r, signed.body, x) && BindableManifest(signed.body) &&
         TrainedOn(ranker.metadata, Cohorted(r, signed, x))
      then Some(Cohorted(r, signed, x)) else None
  }

  // An intent for a bound cohort.
  ghost predicate CreatedFor(intent: Intent, u: Unopened, ranker: Ranker) {
    intent.body.cohort == u.cohort && intent.body.artifact == ranker.identity
  }

  predicate FileBindings(r: Reader, intent: Intent, x: Inputs, ranker: Ranker) {
    var c := intent.body.cohort;
    && r.sha(x.ranking) == c.rankingFileSha
    && r.sha(x.manifest) == c.snapshotManifestFileSha
    && r.sha(x.human) == c.humanJudgmentsFileSha
    && r.sha(x.qrels) == c.qrelsFileSha
    && r.sha(x.split) == c.querySplitFileSha
    && ranker.identity == intent.body.artifact
  }

  // ---------------------------------------------------------------- after the access

  datatype Verified = Verified(manifestSha: Digest, prelabelSha: Digest, contractSha: Digest, qrels: QrelsDoc,
                               split: SplitDoc)

  predicate QrelsBound(m: SnapshotManifest, q: QrelsDoc, s: SplitDoc) {
    && m.qrelsVersion == Some(q.version) && m.qrelsChecksum == Some(q.checksum)
    && m.qrelsEvidenceChecksum == Some(q.evidenceChecksum) && m.judgmentManifestSha == q.judgmentManifestSha
    && m.splitVersion == Some(s.version) && m.splitChecksum == Some(s.checksum)
  }

  // The qrels that the loader and the promotion rules accept, re-adjudicated from the judgments.
  predicate QrelsDerived(r: Reader, human: Bytes, q: QrelsDoc) {
    && q.version != ""
    && q.judgmentManifestSha.Some?
    && q.judgmentManifestSha == r.judgments(human)
    && match r.adjudicated(human)
       case Some(e) => q.version == e.version && q.checksum == e.checksum && q.evidenceChecksum == e.evidenceChecksum
       case None => false
  }

  predicate SnapshotVerifies(r: Reader, m: SnapshotManifest, x: Inputs, q: QrelsDoc, s: SplitDoc) {
    && m.annotation.Keys == {HumanJudgments, Qrels, QuerySplit, Evidence}
    && BindableFiles(r, m, x) && FileMatches(r, m, Evidence, x.evidence)
    && m.prelabelSha.Some? && m.contractSha.Some?
    && m.humanContentSha.Some? && r.judgments(x.human) == m.humanContentSha
    && QrelsBound(m, q, s)
    && QrelsDerived(r, x.human, q)
    && r.otherChecks(x)
  }

  // The full verification, which parses the judgments, the qrels and the rows.
  function VerifyLineage(r: Reader, x: Inputs): Option<Verified> {
    var signed, q, s := SignedBody(r, x.manifest), r.qrels(x.qrels), r.split(x.split);
    if signed.Some? && q.Some? && s.Some? && SnapshotVerifies(r, signed.value.body, x, q.value, s.value)
    then Some(Verified(signed.value.sha, signed.value.body.prelabelSha.value, signed.value.body.contractSha.value,
                       q.value, s.value))
    else None
  }

  predicate LineageMatches(intent: Intent, v: Verified) {
    var c := intent.body.cohort;
    && v.manifestSha == c.snapshotManifestSha
    && v.qrels.checksum == c.qrelsChecksum
    && v.qrels.evidenceChecksum == c.qrelsEvidenceChecksum
    && v.split.checksum == c.querySplitChecksum
  }

  predicate RankerMatches(metadata: Metadata, v: Verified) {
    && metadata.candidateSetVersion == Some(v.qrels.version)
    && metadata.splitChecksum == Some(v.split.checksum)
    && metadata.judgmentManifestSha == v.qrels.judgmentManifestSha
    && metadata.datasetManifestSha == Some(v.manifestSha)
    && metadata.prelabelSha == Some(v.prelabelSha)
    && metadata.contractSha == Some(v.contractSha)
  }

  // ---------------------------------------------------------------- what binding promises

  // A lineage that verifies is one that can be bound, and the two readings of it agree.
  lemma VerifiedIsBindable(r: Reader, x: Inputs, v: Verified)
    requires VerifyLineage(r, x) == Some(v)
    ensures SignedBody(r, x.manifest).Some? && BindableManifest(SignedBody(r, x.manifest).value.body)
    ensures BindableFiles(r, SignedBody(r, x.manifest).value.body, x)
    ensures var u := Cohorted(r, SignedBody(r, x.manifest).value, x);
            && u.cohort.snapshotManifestSha == v.manifestSha && u.cohort.qrelsChecksum == v.qrels.checksum
            && u.cohort.qrelsEvidenceChecksum == v.qrels.evidenceChecksum &&
               u.cohort.querySplitChecksum == v.split.checksum
            && u.qrelsVersion == v.qrels.version && Some(u.judgmentManifestSha) == v.qrels.judgmentManifestSha
            && u.prelabelSha == v.prelabelSha && u.contractSha == v.contractSha
  {
  }

  // For inputs with the preregistered file hashes whose full verification passes, the remaining
  // lineage and ranker checks pass exactly when the label-free binding of the same inputs
  // succeeds and gives the cohort of the intent.
  lemma BindingDecides(r: Reader, x: Inputs, ranker: Ranker, intent: Intent, v: Verified)
    requires FileBindings(r, intent, x, ranker) && VerifyLineage(r, x) == Some(v)
    ensures LineageMatches(intent, v) && RankerMatches(ranker.metadata, v)
       <==> Bind(r, x, ranker).Some? && Bind(r, x, ranker).value.cohort == intent.body.cohort
  {
    VerifiedIsBindable(r, x, v);
  }

  // Equal hashes mean equal files, so an intent created from a successful binding can never fail
  // a lineage or ranker check after its access was consumed, whatever happened to the files
  // in between, as long as the file bindings and the full verification pass.
  lemma BoundAccessIsNotWasted(r: Reader, before: Inputs, after: Inputs, rankerBefore: RankerFiles,
                               rankerAfter: RankerFiles,
                               intent: Intent, v: Verified)
    requires ShaPins(r.sha)
    requires LoadRanker(r, rankerBefore).Some? && LoadRanker(r, rankerAfter).Some?
    requires Bind(r, before, LoadRanker(r, rankerBefore).value).Some?
    requires CreatedFor(intent, Bind(r, before, LoadRanker(r, rankerBefore).value).value, LoadRanker(r,
                                                                                                     rankerBefore).value)
    requires FileBindings(r, intent, after, LoadRanker(r, rankerAfter).value)
    requires VerifyLineage(r, after) == Some(v)
    ensures LineageMatches(intent, v) && RankerMatches(LoadRanker(r, rankerAfter).value.metadata, v)
  {
    assert SameSha(r.sha, before.ranking, after.ranking);
    assert SameSha(r.sha, before.manifest, after.manifest);
    assert SameSha(r.sha, before.human, after.human);
    assert SameSha(r.sha, before.qrels, after.qrels);
    assert SameSha(r.sha, before.split, after.split);
    assert SameSha(r.sha, rankerBefore.metadata, rankerAfter.metadata);
    BindIsLabelFree(r, before, after, LoadRanker(r, rankerBefore).value);
    BindingDecides(r, after, LoadRanker(r, rankerAfter).value, intent, v);
  }

  // The binding learns nothing from the labels: it cannot tell inputs apart whose test files have
  // the same hashes and sizes.
  lemma BindIsLabelFree(r: Reader, x: Inputs, y: Inputs, ranker: Ranker)
    requires x.manifest == y.manifest
    requires r.sha(x.ranking) == r.sha(y.ranking) && |x.ranking| == |y.ranking|
    requires r.sha(x.human) == r.sha(y.human) && |x.human| == |y.human|
    requires r.sha(x.qrels) == r.sha(y.qrels) && |x.qrels| == |y.qrels|
    requires r.sha(x.split) == r.sha(y.split) && |x.split| == |y.split|
    ensures Bind(r, x, ranker) == Bind(r, y, ranker)
  {
  }
}
