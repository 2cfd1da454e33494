// The inductive invariant of the ledger protocol, over every interleaving, and what it
// implies for whole runs.
module EvaluationSafety {
  import opened Common
  import opened EvaluationRecords
  import opened EvaluationProtocol

  // ---------------------------------------------------------------- readable records

  // The record's JSON object is complete; at most the final newline is missing.
  predicate Readable(c: Codec, files: FileSystem, p: Path) {
    p in files && files[p].written + 1 >= |c.encode(files[p].doc)|
  }

  lemma LoadIsReadable(c: Codec, files: FileSystem, p: Path)
    requires Sound(c)
    requires p in files ==> files[p].written <= |c.encode(files[p].doc)|
    ensures LoadDoc(c, files, p) == if Readable(c, files, p) then Some(files[p].doc) else None
  {
    if p in files {
      ReadPrefix(c, files[p].doc, files[p].written);
    }
  }

  predicate HasRegistration(c: Codec, files: FileSystem, i: Intent) {
    var p := RegistrationPath(i.cohortSha);
    Readable(c, files, p) && RegistrationMatches(i, files[p].doc) && SelfHashed(c, files[p].doc)
  }

  predicate HasAccess(c: Codec, files: FileSystem, i: Intent) {
    var p := AccessPath(i.intentSha);
    Readable(c, files, p) && Adopts(i, AccessClaim, files[p].doc) && SelfHashed(c, files[p].doc)
  }

  function RegistrationAt(files: FileSystem, i: Intent): Registration
    requires RegistrationPath(i.cohortSha) in files && files[RegistrationPath(i.cohortSha)].doc.RegistrationDoc?
  {
    files[RegistrationPath(i.cohortSha)].doc.registration
  }

  function AccessAt(files: FileSystem, i: Intent): Access
    requires AccessPath(i.intentSha) in files && files[AccessPath(i.intentSha)].doc.AccessDoc?
  {
    files[AccessPath(i.intentSha)].doc.access
  }

  // The identity that a completion of `i` with output `o` must carry.
  function RequiredIdentity(c: Codec, files: FileSystem, i: Intent, o: Output): CompletionIdentity
    requires HasRegistration(c, files, i) && HasAccess(c, files, i)
  {
    IdentityOf(c, i, RegistrationAt(files, i).eventSha, AccessAt(files, i).eventSha, o)
  }

  predicate HasCompletion(c: Codec, files: FileSystem, i: Intent, o: Output) {
    var p := CompletionPath(i.intentSha);
    && HasRegistration(c, files, i)
    && HasAccess(c, files, i)
    && Readable(c, files, p)
    && files[p].doc.CompletionDoc?
    && SelfHashed(c, files[p].doc)
    && files[p].doc.completion.body.identity == RequiredIdentity(c, files, i, o)
  }

  function ChainAt(c: Codec, files: FileSystem, i: Intent, o: Output): Chain
    requires HasCompletion(c, files, i, o)
  {
    Chain(RegistrationAt(files, i), AccessAt(files, i), files[CompletionPath(i.intentSha)].doc.completion)
  }

  // ---------------------------------------------------------------- the invariant

  // A digest names one intent, so a record that names the digest speaks of that intent.
  ghost predicate RegistrationFits(c: Codec, r: RegistrationBody, i: Intent) {
    ValidIntent(c, i) && i.intentSha == r.intentSha ==> i.cohortSha == r.cohortSha &&
                                                        i.body.artifact.modelSha == r.modelSha
  }

  ghost predicate AccessFits(c: Codec, a: AccessBody, i: Intent) {
    ValidIntent(c, i) && i.intentSha == a.intentSha ==> i.cohortSha == a.cohortSha
  }

  // What the file at path `p` may hold, given the other files.
  ghost predicate FileOk(c: Codec, files: FileSystem, p: Path)
    requires p in files
  {
    var d := files[p].doc;
    && files[p].written <= |c.encode(d)|
    && SelfHashed(c, d)
    && match p
       case IntentPath(sha) =>
         d.IntentDoc? && d.intent.intentSha == sha
       case RegistrationPath(sha) =>
         && d.RegistrationDoc? && d.registration.body.cohortSha == sha
         && forall i :: RegistrationFits(c, d.registration.body, i)
       case AccessPath(sha) =>
         && d.AccessDoc? && d.access.body.intentSha == sha
         && RegisteredFor(c, files, d.access.body)
         && forall i :: AccessFits(c, d.access.body, i)
       case CompletionPath(sha) =>
         && d.CompletionDoc? && d.completion.body.identity.intentSha == sha
         && AccessedFor(c, files, d.completion.body.identity)
  }

  // A readable registration of the access event's own intent and cohort is on record.
  predicate RegisteredFor(c: Codec, files: FileSystem, a: AccessBody) {
    var p := RegistrationPath(a.cohortSha);
    && Readable(c, files, p) && files[p].doc.RegistrationDoc?
    && files[p].doc.registration.body.intentSha == a.intentSha
  }

  // A readable access is on record, and the completion names exactly that access and its registration.
  predicate AccessedFor(c: Codec, files: FileSystem, id: CompletionIdentity) {
    var p, q := AccessPath(id.intentSha), RegistrationPath(id.cohortSha);
    && Readable(c, files, p) && files[p].doc.AccessDoc?
    && files[p].doc.access.body.cohortSha == id.cohortSha
    && files[p].doc.access.eventSha == id.accessSha
    && Readable(c, files, q) && files[q].doc.RegistrationDoc?
    && files[q].doc.registration.eventSha == id.registrationSha
    && id.evaluationSha == c.hash(EvaluationPayload(id.intentSha, id.registrationSha, id.accessSha, id.reportSha,
                                                    id.decisionSha))
  }

  ghost predicate FilesOk(c: Codec, files: FileSystem) {
    forall p | p in files :: FileOk(c, files, p)
  }

  // A bundle holds exactly the bytes sealed for an intent from the records on file.
  ghost predicate Sealed(c: Codec, files: FileSystem, sha: Digest, b: Bundle, i: Intent, o: Output) {
    && ValidIntent(c, i) && i.intentSha == sha
    && OutputHashed(c, o)
    && HasCompletion(c, files, i, o)
    && b == ExpectedBundle(c, i, ChainAt(c, files, i, o), o)
  }

  ghost predicate BundleOk(c: Codec, files: FileSystem, sha: Digest, b: Bundle) {
    exists i, o :: Sealed(c, files, sha, b, i, o)
  }

  ghost predicate BundlesOk(c: Codec, files: FileSystem, bundles: map<Target, Bundle>) {
    forall t | t in bundles :: BundleOk(c, files, t.intentSha, bundles[t])
  }

  // What a process that is about to act on a claim has already established.
  predicate ClaimOk(c: Codec, files: FileSystem, i: Intent, claim: Claim) {
    match claim
    case IntentClaim => true
    case RegistrationClaim => true
    case AccessClaim => HasRegistration(c, files, i)
    case CompletionClaim(identity, o) =>
      HasRegistration(c, files, i) && HasAccess(c, files, i) && identity == RequiredIdentity(c, files, i, o)
  }

  ghost predicate ClaimDocOk(c: Codec, i: Intent, claim: Claim, d: Doc) {
    exists time: nat :: d == NewDoc(c, i, claim, time)
  }

  predicate GoalOk(c: Codec, files: FileSystem, i: Intent, goal: Goal) {
    match goal
    case ForAccess => true
    case ForCompletion(_) => HasAccess(c, files, i)
    case ForEvidence(o) => HasCompletion(c, files, i, o)
  }

  // The staged files are complete up to `index`, and hold `offset` bytes of the next one.
  ghost predicate StagedOk(expected: Bundle, staged: Bundle, index: nat, offset: nat) {
    && index <= |FILE_ORDER|
    && expected.Keys == FileNames()
    && (index == |FILE_ORDER| ==> offset == 0)
    && (forall k | 0 <= k < index :: FILE_ORDER[k] in staged && staged[FILE_ORDER[k]] == expected[FILE_ORDER[k]])
    && (forall f | f in staged :: exists k :: 0 <= k <= index && k < |FILE_ORDER| && FILE_ORDER[k] == f)
    && (index < |FILE_ORDER| ==> offset <= |expected[FILE_ORDER[index]]|)
  }

  function FileNames(): set<BundleFile> {
    {IntentFile, RegistrationFile, AccessFile, CompletionFile, ReportFile, DecisionFile, ManifestFile}
  }

  ghost predicate ClaimPointOk(c: Codec, files: FileSystem, i: Intent, claim: Claim, at: ClaimPoint) {
    match at
    case Check => true
    case Load => ClaimPath(i, claim) in files
    case Create(d) => ClaimDocOk(c, i, claim, d)
    case Write(d, written) =>
      var path := ClaimPath(i, claim);
      ClaimDocOk(c, i, claim, d) && path in files && files[path] == File(d, written) && written < |c.encode(d)|
    case Compare(d) => ClaimDocOk(c, i, claim, d) && ClaimPath(i, claim) in files
  }

  predicate ReadPointOk(c: Codec, files: FileSystem, i: Intent, at: ReadPoint) {
    match at
    case AssertFile(goal) => GoalOk(c, files, i, goal)
    case AssertLoad(goal) => GoalOk(c, files, i, goal)
    case NeedAccess(o) => HasRegistration(c, files, i) && HasAccess(c, files, i)
    case ReadRegistration(o) => HasRegistration(c, files, i) && HasAccess(c, files, i)
    case ReadAccess(o, r) => HasRegistration(c, files, i) && HasAccess(c, files, i) && r == RegistrationAt(files, i)
    case EvidenceFiles(o) => HasCompletion(c, files, i, o)
    case EvidenceAccess(o) => HasCompletion(c, files, i, o)
    case EvidenceCompletion(o) => HasCompletion(c, files, i, o)
    case PublishRegistration(o) => HasCompletion(c, files, i, o)
    case PublishAccess(o, r) => HasCompletion(c, files, i, o) && r == RegistrationAt(files, i)
    case PublishCompletion(o, r, a) => HasCompletion(c, files, i, o) && r == RegistrationAt(files, i) &&
                                       a == AccessAt(files, i)
  }

  ghost predicate PublishPointOk(bundles: map<Target, Bundle>, t: Target, expected: Bundle, at: PublishPoint) {
    match at
    case FindTarget => true
    case Stage(staged, index, offset) => StagedOk(expected, staged, index, offset)
    case Rename(staged) => staged == expected
    case CompareTarget => t in bundles
    case VerifyTarget => t in bundles && bundles[t] == expected
  }

  ghost predicate PcOk(c: Codec, files: FileSystem, bundles: map<Target, Bundle>, i: Intent, t: Target, pc: Pc) {
    match pc
    case Claiming(claim, at) => ClaimOk(c, files, i, claim) && ClaimPointOk(c, files, i, claim, at)
    case Scoring => HasRegistration(c, files, i) && HasAccess(c, files, i)
    case Reading(at) => ReadPointOk(c, files, i, at)
    case Publishing(o, expected, at) =>
      Sealed(c, files, i.intentSha, expected, i, o) && PublishPointOk(bundles, t, expected, at)
    case Registered => HasRegistration(c, files, i)
    case Done(o) =>
      t in bundles && Sealed(c, files, i.intentSha, bundles[t], i, o) && VerifyBundle(c, bundles[t])
    case Failed => true
  }

  ghost predicate ProcessOk(c: Codec, s: State, p: Process) {
    ValidIntent(c, p.intent) && PcOk(c, s.files, s.bundles, p.intent, Target(p.root, p.intent.intentSha), p.pc)
  }

  // A file is written only by the process that created it.
  predicate Writes(p: Process, path: Path) {
    p.pc.Claiming? && p.pc.claimPoint.Write? && ClaimPath(p.intent, p.pc.claim) == path
  }

  ghost predicate OneWriter(procs: map<Pid, Process>) {
    forall p, q, path | p in procs && q in procs && Writes(procs[p], path) && Writes(procs[q], path) :: p == q
  }

  ghost predicate Inv(c: Codec, s: State) {
    && FilesOk(c, s.files)
    && BundlesOk(c, s.files, s.bundles)
    && (forall p | p in s.procs :: ProcessOk(c, s, s.procs[p]))
    && OneWriter(s.procs)
  }

  // ---------------------------------------------------------------- monotonicity

  // Files keep their document and only grow; sealed directories never change.
  ghost predicate Grows(files: FileSystem, files': FileSystem) {
    forall p | p in files :: p in files' && files'[p].doc == files[p].doc && files'[p].written >= files[p].written
  }

  ghost predicate Keeps(bundles: map<Target, Bundle>, bundles': map<Target, Bundle>) {
    forall t | t in bundles :: t in bundles' && bundles'[t] == bundles[t]
  }

  lemma RecordsStable(c: Codec, files: FileSystem, files': FileSystem, i: Intent)
    requires Grows(files, files')
    ensures HasRegistration(c, files, i) ==> HasRegistration(c, files', i) &&
                                             RegistrationAt(files', i) == RegistrationAt(files, i)
    ensures HasAccess(c, files, i) ==> HasAccess(c, files', i) && AccessAt(files', i) == AccessAt(files, i)
  {
  }

  lemma CompletionStable(c: Codec, files: FileSystem, files': FileSystem, i: Intent, o: Output)
    requires Grows(files, files')
    ensures HasCompletion(c, files, i, o) ==> HasCompletion(c, files', i, o) &&
                                              ChainAt(c, files', i, o) == ChainAt(c, files, i, o)
  {
    RecordsStable(c, files, files', i);
  }

  lemma BundlesStable(c: Codec, files: FileSystem, files': FileSystem, bundles: map<Target, Bundle>)
    requires Grows(files, files') && BundlesOk(c, files, bundles)
    ensures BundlesOk(c, files', bundles)
  {
    forall t | t in bundles
      ensures BundleOk(c, files', t.intentSha, bundles[t])
    {
      var i, o :| Sealed(c, files, t.intentSha, bundles[t], i, o);
      CompletionStable(c, files, files', i, o);
      assert Sealed(c, files', t.intentSha, bundles[t], i, o);
    }
  }

  lemma GoalStable(c: Codec, files: FileSystem, files': FileSystem, i: Intent, goal: Goal)
    requires Grows(files, files') && GoalOk(c, files, i, goal)
    ensures GoalOk(c, files', i, goal)
  {
    RecordsStable(c, files, files', i);
    if goal.ForEvidence? {
      CompletionStable(c, files, files', i, goal.output);
    }
  }

  lemma ClaimStable(c: Codec, files: FileSystem, files': FileSystem, i: Intent, claim: Claim)
    requires Grows(files, files') && ClaimOk(c, files, i, claim)
    ensures ClaimOk(c, files', i, claim)
  {
    RecordsStable(c, files, files', i);
  }

  lemma ReadPointStable(c: Codec, files: FileSystem, files': FileSystem, i: Intent, at: ReadPoint)
    requires Grows(files, files') && ReadPointOk(c, files, i, at)
    ensures ReadPointOk(c, files', i, at)
  {
    RecordsStable(c, files, files', i);
    if at.AssertFile? || at.AssertLoad? {
      GoalStable(c, files, files', i, at.goal);
    } else {
      CompletionStable(c, files, files', i, at.output);
    }
  }

  // What one process knows stays true while others act, except for the length of a file
  // that it is writing itself.
  lemma PcStable(c: Codec, s: State, s': State, i: Intent, t: Target, pc: Pc)
    requires Grows(s.files, s'.files) && Keeps(s.bundles, s'.bundles)
    requires PcOk(c, s.files, s.bundles, i, t, pc)
    requires
      pc.Claiming? && pc.claimPoint.Write? ==>
        ClaimPath(i, pc.claim) in s'.files && s'.files[ClaimPath(i, pc.claim)] == s.files[ClaimPath(i, pc.claim)]
    ensures PcOk(c, s'.files, s'.bundles, i, t, pc)
  {
    RecordsStable(c, s.files, s'.files, i);
    match pc {
      case Claiming(claim, _) => ClaimStable(c, s.files, s'.files, i, claim);
      case Reading(at) => ReadPointStable(c, s.files, s'.files, i, at);
      case Publishing(o, _, _) => CompletionStable(c, s.files, s'.files, i, o);
      case Done(o) => CompletionStable(c, s.files, s'.files, i, o);
      case _ =>
    }
  }

  // ---------------------------------------------------------------- steps on a claim

  // The record that the claim asked for is on file, whoever wrote it.
  predicate Settled(c: Codec, files: FileSystem, i: Intent, claim: Claim) {
    match claim
    case IntentClaim => true
    case RegistrationClaim => HasRegistration(c, files, i)
    case AccessClaim => HasRegistration(c, files, i) && HasAccess(c, files, i)
    case CompletionClaim(_, o) => HasCompletion(c, files, i, o)
  }

  lemma AfterClaimOk(c: Codec, files: FileSystem, bundles: map<Target, Bundle>, i: Intent, t: Target, claim: Claim)
    requires Settled(c, files, i, claim)
    ensures PcOk(c, files, bundles, i, t, AfterClaim(claim))
  {
  }

  // An adopted record settles the claim: the registration names only the intent's digest,
  // and the digest determines the cohort and the model.
  lemma AdoptSettles(c: Codec, files: FileSystem, i: Intent, claim: Claim)
    requires FilesOk(c, files) && ValidIntent(c, i) && ClaimOk(c, files, i, claim)
    requires Readable(c, files, ClaimPath(i, claim)) && Adopts(i, claim, files[ClaimPath(i, claim)].doc)
    ensures Settled(c, files, i, claim)
  {
    var p := ClaimPath(i, claim);
    assert FileOk(c, files, p);
    if claim.RegistrationClaim? {
      assert RegistrationFits(c, files[p].doc.registration.body, i);
    }
  }

  lemma WrittenSettles(c: Codec, files: FileSystem, i: Intent, claim: Claim, d: Doc)
    requires ValidIntent(c, i) && ClaimOk(c, files, i, claim) && ClaimDocOk(c, i, claim, d)
    requires Readable(c, files, ClaimPath(i, claim)) && files[ClaimPath(i, claim)].doc == d
    ensures Settled(c, files, i, claim)
  {
    var time: nat :| d == NewDoc(c, i, claim, time);
  }

  // A new record fits the invariant, because its digests are those of a valid intent.
  lemma NewDocFits(c: Codec, files: FileSystem, i: Intent, claim: Claim, d: Doc, n: nat)
    requires Sound(c) && ValidIntent(c, i) && ClaimOk(c, files, i, claim) && ClaimDocOk(c, i, claim, d)
    requires n <= |c.encode(d)|
    ensures ClaimPath(i, claim) !in files ==> FileOk(c, files[ClaimPath(i, claim) := File(d, n)], ClaimPath(i, claim))
  {
    var time: nat :| d == NewDoc(c, i, claim, time);
    forall j | ValidIntent(c, j) && j.intentSha == i.intentSha
      ensures j == i
    {
      IntentDetermined(c, i, j);
    }
    if d.RegistrationDoc? {
      assert forall j :: RegistrationFits(c, d.registration.body, j);
    }
    if d.AccessDoc? {
      assert forall j :: AccessFits(c, d.access.body, j);
    }
  }

  lemma FilesOkGrows(c: Codec, files: FileSystem, p: Path, f: File)
    requires FilesOk(c, files)
    requires p in files ==> f.doc == files[p].doc && f.written >= files[p].written
    requires FileOk(c, files[p := f], p)
    ensures Grows(files, files[p := f])
    ensures FilesOk(c, files[p := f])
  {
    var files' := files[p := f];
    forall q | q in files'
      ensures FileOk(c, files', q)
    {
      if q != p {
        assert FileOk(c, files, q);
      }
    }
  }

  // The file after one more write call is still well formed.
  lemma WriteFits(c: Codec, files: FileSystem, p: Path, n: nat)
    requires FilesOk(c, files) && p in files
    requires files[p].written <= n <= |c.encode(files[p].doc)|
    ensures FileOk(c, files[p := File(files[p].doc, n)], p)
  {
    assert FileOk(c, files, p);
  }

  // What a step on a claim keeps: files only grow, only the claimed path is touched, and the
  // process reaches a program point that is justified by the new files.
  ghost predicate ClaimStepKeeps(c: Codec, files: FileSystem, bundles: map<Target, Bundle>, i: Intent, t: Target,
                                 claim: Claim, at: ClaimPoint, files': FileSystem, pc': Pc)
  {
    var path := ClaimPath(i, claim);
    && Grows(files, files') && FilesOk(c, files')
    && (forall p | p in files && p != path :: files'[p] == files[p])
    && (at.Write? || files' == files || path !in files)
    && PcOk(c, files', bundles, i, t, pc')
    && (pc'.Claiming? && pc'.claimPoint.Write? ==> pc'.claim == claim && (at.Write? || path !in files))
  }

  ghost predicate ClaimReady(c: Codec, files: FileSystem, i: Intent, claim: Claim, at: ClaimPoint) {
    && Sound(c) && ValidIntent(c, i) && FilesOk(c, files)
    && ClaimOk(c, files, i, claim) && ClaimPointOk(c, files, i, claim, at)
  }

  lemma LoadStepOk(c: Codec, files: FileSystem, bundles: map<Target, Bundle>, i: Intent, t: Target, claim: Claim,
                   choice: Choice)
    requires ClaimReady(c, files, i, claim, Load)
    ensures
      var (files', pc') := StepClaim(c, files, i, claim, Load, choice);
      ClaimStepKeeps(c, files, bundles, i, t, claim, Load, files', pc')
  {
    var path := ClaimPath(i, claim);
    var (_, pc') := StepClaim(c, files, i, claim, Load, choice);
    LoadEventIs(c, files, path);
    if pc' != Failed {
      AdoptSettles(c, files, i, claim);
      AfterClaimOk(c, files, bundles, i, t, claim);
    }
  }

  lemma CreateStepOk(c: Codec, files: FileSystem, bundles: map<Target, Bundle>, i: Intent, t: Target, claim: Claim,
                     d: Doc, choice: Choice)
    requires ClaimReady(c, files, i, claim, Create(d))
    ensures
      var (files', pc') := StepClaim(c, files, i, claim, Create(d), choice);
      ClaimStepKeeps(c, files, bundles, i, t, claim, Create(d), files', pc')
  {
    var path := ClaimPath(i, claim);
    if path !in files {
      NewDocFits(c, files, i, claim, d, 0);
      FilesOkGrows(c, files, path, File(d, 0));
      ClaimStable(c, files, files[path := File(d, 0)], i, claim);
      assert LongEnough(c, d);
    }
  }

  lemma WriteStepOk(c: Codec, files: FileSystem, bundles: map<Target, Bundle>, i: Intent, t: Target, claim: Claim,
                    d: Doc, written: nat, choice: Choice)
    requires ClaimReady(c, files, i, claim, Write(d, written))
    ensures
      var (files', pc') := StepClaim(c, files, i, claim, Write(d, written), choice);
      ClaimStepKeeps(c, files, bundles, i, t, claim, Write(d, written), files', pc')
  {
    var path := ClaimPath(i, claim);
    var n := Advance(written, choice.bytes, |c.encode(d)|);
    WriteFits(c, files, path, n);
    FilesOkGrows(c, files, path, File(d, n));
    var files' := files[path := File(d, n)];
    ClaimStable(c, files, files', i, claim);
    if n == |c.encode(d)| {
      WrittenSettles(c, files', i, claim, d);
      AfterClaimOk(c, files', bundles, i, t, claim);
    }
  }

  lemma CompareStepOk(c: Codec, files: FileSystem, bundles: map<Target, Bundle>, i: Intent, t: Target, claim: Claim,
                      d: Doc, choice: Choice)
    requires ClaimReady(c, files, i, claim, Compare(d))
    ensures
      var (files', pc') := StepClaim(c, files, i, claim, Compare(d), choice);
      ClaimStepKeeps(c, files, bundles, i, t, claim, Compare(d), files', pc')
  {
    var path := ClaimPath(i, claim);
    if path in files && Contents(c, files[path]) == c.encode(d) {
      SameTextSettles(c, files, i, claim, d);
      AfterClaimOk(c, files, bundles, i, t, claim);
    }
  }

  // Equal bytes mean an equal, complete record.
  lemma SameTextSettles(c: Codec, files: FileSystem, i: Intent, claim: Claim, d: Doc)
    requires Sound(c) && ValidIntent(c, i) && FilesOk(c, files) && ClaimOk(c, files, i, claim) &&
             ClaimDocOk(c, i, claim, d)
    requires ClaimPath(i, claim) in files && Contents(c, files[ClaimPath(i, claim)]) == c.encode(d)
    ensures Settled(c, files, i, claim)
  {
    var path := ClaimPath(i, claim);
    assert FileOk(c, files, path);
    LoadIsReadable(c, files, path);
    ReadWhole(c, d);
    WrittenSettles(c, files, i, claim, d);
  }

  lemma ClaimStepOk(c: Codec, files: FileSystem, bundles: map<Target, Bundle>, i: Intent, t: Target, claim: Claim,
                    at: ClaimPoint, choice: Choice)
    requires ClaimReady(c, files, i, claim, at)
    ensures
      var (files', pc') := StepClaim(c, files, i, claim, at, choice);
      ClaimStepKeeps(c, files, bundles, i, t, claim, at, files', pc')
  {
    match at {
      case Check =>
        assert ClaimDocOk(c, i, claim, NewDoc(c, i, claim, choice.time));
      case Load => LoadStepOk(c, files, bundles, i, t, claim, choice);
      case Create(d) => CreateStepOk(c, files, bundles, i, t, claim, d, choice);
      case Write(d, written) => WriteStepOk(c, files, bundles, i, t, claim, d, written, choice);
      case Compare(d) => CompareStepOk(c, files, bundles, i, t, claim, d, choice);
    }
  }

  // ---------------------------------------------------------------- steps that read

  lemma LoadEventIs(c: Codec, files: FileSystem, p: Path)
    requires Sound(c) && FilesOk(c, files)
    ensures LoadEvent(c, files, p) == if Readable(c, files, p) then Some(files[p].doc) else None
  {
    assert p in files ==> FileOk(c, files, p);
    LoadIsReadable(c, files, p);
  }

  lemma ReadStepOk(c: Codec, files: FileSystem, bundles: map<Target, Bundle>, i: Intent, t: Target, at: ReadPoint)
    requires Sound(c) && ValidIntent(c, i) && FilesOk(c, files) && ReadPointOk(c, files, i, at)
    ensures PcOk(c, files, bundles, i, t, StepRead(c, files, i, at))
    ensures StepRead(c, files, i, at).Claiming? ==> !StepRead(c, files, i, at).claimPoint.Write?
  {
    LoadEventIs(c, files, RegistrationPath(i.cohortSha));
    LoadEventIs(c, files, AccessPath(i.intentSha));
    LoadEventIs(c, files, CompletionPath(i.intentSha));
    if at.AssertLoad? && Readable(c, files, RegistrationPath(i.cohortSha)) {
      assert FileOk(c, files, RegistrationPath(i.cohortSha));
    }
    if at.PublishCompletion? {
      assert ChainAt(c, files, i, at.output)
          == Chain(at.registration, at.access, files[CompletionPath(i.intentSha)].doc.completion);
    }
  }

  // ---------------------------------------------------------------- steps that publish

  lemma SealedIsWhole(c: Codec, i: Intent, ch: Chain, o: Output)
    ensures ExpectedBundle(c, i, ch, o).Keys == FileNames()
    ensures ExpectedBundle(c, i, ch, o) != map[]
  {
    assert IntentFile in ExpectedBundle(c, i, ch, o);
  }

  lemma EveryFileOrdered(f: BundleFile) returns (k: nat)
    ensures k < |FILE_ORDER| && FILE_ORDER[k] == f
    ensures f in FileNames()
  {
    k := match f
      case IntentFile => 0
      case RegistrationFile => 1
      case AccessFile => 2
      case CompletionFile => 3
      case ReportFile => 4
      case DecisionFile => 5
      case ManifestFile => 6;
  }

  lemma StagedComplete(expected: Bundle, staged: Bundle)
    requires StagedOk(expected, staged, |FILE_ORDER|, 0)
    ensures staged == expected
  {
    forall f: BundleFile
      ensures f in staged && f in expected && staged[f] == expected[f]
    {
      var k := EveryFileOrdered(f);
    }
  }

  lemma StageMoreOk(expected: Bundle, staged: Bundle, index: nat, offset: nat, bytes: nat)
    requires StagedOk(expected, staged, index, offset)
    ensures
      match StageMore(expected, staged, index, offset, bytes)
      case Stage(staged', index', offset') => StagedOk(expected, staged', index', offset')
      case Rename(staged') => staged' == expected
      case _ => false
  {
    if index == |FILE_ORDER| {
      StagedComplete(expected, staged);
    } else {
      var f := FILE_ORDER[index];
      var text := expected[f];
      var n := Advance(offset, bytes, |text|);
      var staged' := staged[f := text[..n]];
      assert text[..|text|] == text;
      assert forall k | 0 <= k < index :: FILE_ORDER[k] != f;
      forall g | g in staged'
        ensures exists k :: 0 <= k <= index && FILE_ORDER[k] == g
      {
        if g == f {
          assert FILE_ORDER[index] == g;
        }
      }
    }
  }

  // What publishing keeps: sealed directories never change.
  ghost predicate PublishStepKeeps(c: Codec, files: FileSystem, bundles: map<Target, Bundle>, i: Intent, t: Target,
                                   bundles': map<Target, Bundle>, pc': Pc)
  {
    && Keeps(bundles, bundles') && BundlesOk(c, files, bundles')
    && PcOk(c, files, bundles', i, t, pc') && !pc'.Claiming?
  }

  // A visible directory is never empty, so rename() never replaces one.
  lemma VisibleIsWhole(c: Codec, files: FileSystem, bundles: map<Target, Bundle>, t: Target)
    requires BundlesOk(c, files, bundles) && t in bundles
    ensures bundles[t] != map[]
    ensures bundles[t].Keys == FileNames()
  {
    assert BundleOk(c, files, t.intentSha, bundles[t]);
    var j, o :| Sealed(c, files, t.intentSha, bundles[t], j, o);
    SealedIsWhole(c, j, ChainAt(c, files, j, o), o);
  }

  lemma RenameStepOk(c: Codec, files: FileSystem, bundles: map<Target, Bundle>, i: Intent, t: Target, o: Output,
                     expected: Bundle)
    requires t.intentSha == i.intentSha && t !in bundles
    requires BundlesOk(c, files, bundles) && Sealed(c, files, i.intentSha, expected, i, o)
    ensures BundlesOk(c, files, bundles[t := expected])
  {
    var bundles' := bundles[t := expected];
    assert BundleOk(c, files, t.intentSha, expected);
    forall u | u in bundles'
      ensures BundleOk(c, files, u.intentSha, bundles'[u])
    {
      if u != t {
        assert BundleOk(c, files, u.intentSha, bundles[u]);
      }
    }
  }

  lemma SealedKeys(c: Codec, files: FileSystem, sha: Digest, b: Bundle, i: Intent, o: Output)
    requires Sealed(c, files, sha, b, i, o)
    ensures b.Keys == FileNames()
  {
    SealedIsWhole(c, i, ChainAt(c, files, i, o), o);
  }

  lemma RenamePointOk(c: Codec, files: FileSystem, bundles: map<Target, Bundle>, i: Intent, t: Target, o: Output,
                      expected: Bundle, choice: Choice)
    requires t.intentSha == i.intentSha
    requires BundlesOk(c, files, bundles) && Sealed(c, files, i.intentSha, expected, i, o)
    ensures
      var (bundles', pc') := StepPublish(c, bundles, t, o, expected, Rename(expected), choice);
      PublishStepKeeps(c, files, bundles, i, t, bundles', pc')
  {
    if t in bundles {
      VisibleIsWhole(c, files, bundles, t);
    } else {
      RenameStepOk(c, files, bundles, i, t, o, expected);
    }
  }

  lemma PublishStepOk(c: Codec, files: FileSystem, bundles: map<Target, Bundle>, i: Intent, t: Target, o: Output,
                      expected: Bundle,
                      at: PublishPoint, choice: Choice)
    requires t.intentSha == i.intentSha
    requires BundlesOk(c, files, bundles) && Sealed(c, files, i.intentSha, expected, i, o) &&
             PublishPointOk(bundles, t, expected, at)
    ensures
      var (bundles', pc') := StepPublish(c, bundles, t, o, expected, at, choice);
      PublishStepKeeps(c, files, bundles, i, t, bundles', pc')
  {
    match at {
      case FindTarget => SealedKeys(c, files, i.intentSha, expected, i, o);
      case Stage(staged, index, offset) => StageMoreOk(expected, staged, index, offset, choice.bytes);
      case Rename(staged) => RenamePointOk(c, files, bundles, i, t, o, expected, choice);
      case _ =>
    }
  }

  // ---------------------------------------------------------------- the whole system

  // A step of `pid` changes no file that another process is writing.
  ghost predicate UntouchedOtherFiles(s: State, files': FileSystem, pid: Pid) {
    forall q, path | q in s.procs && q != pid && Writes(s.procs[q], path) && path in s.files ::
      path in files' && files'[path] == s.files[path]
  }

  // A process writes only the file it wrote before, or one that did not exist.
  predicate OwnsWrite(s: State, pid: Pid, pc': Pc)
    requires pid in s.procs
  {
    var i := s.procs[pid].intent;
    pc'.Claiming? && pc'.claimPoint.Write? ==>
      Writes(s.procs[pid], ClaimPath(i, pc'.claim)) || ClaimPath(i, pc'.claim) !in s.files
  }

  ghost predicate EffectOk(c: Codec, s: State, pid: Pid, e: Effect)
    requires pid in s.procs
  {
    var p := s.procs[pid];
    && FilesOk(c, e.files) && Grows(s.files, e.files)
    && BundlesOk(c, e.files, e.bundles) && Keeps(s.bundles, e.bundles)
    && PcOk(c, e.files, e.bundles, p.intent, Target(p.root, p.intent.intentSha), e.pc)
    && UntouchedOtherFiles(s, e.files, pid)
    && OwnsWrite(s, pid, e.pc)
  }

  lemma ClaimEffectOk(c: Codec, s: State, pid: Pid, choice: Choice)
    requires Sound(c) && Inv(c, s) && pid in s.procs && s.procs[pid].pc.Claiming?
    ensures EffectOk(c, s, pid, StepPc(c, s.files, s.bundles, s.procs[pid].intent, s.procs[pid].root,
                                       s.procs[pid].pc, choice))
  {
    var p := s.procs[pid];
    var t := Target(p.root, p.intent.intentSha);
    assert ProcessOk(c, s, p);
    ClaimStepOk(c, s.files, s.bundles, p.intent, t, p.pc.claim, p.pc.claimPoint, choice);
    var (files', pc') := StepClaim(c, s.files, p.intent, p.pc.claim, p.pc.claimPoint, choice);
    BundlesStable(c, s.files, files', s.bundles);
    var path := ClaimPath(p.intent, p.pc.claim);
    forall q | q in s.procs && q != pid && Writes(s.procs[q], path) && path in s.files
      ensures files'[path] == s.files[path]
    {
      assert !Writes(p, path);
    }
  }

  lemma StepEffectOk(c: Codec, s: State, pid: Pid, choice: Choice)
    requires Sound(c) && Inv(c, s) && pid in s.procs
    ensures EffectOk(c, s, pid, StepPc(c, s.files, s.bundles, s.procs[pid].intent, s.procs[pid].root,
                                       s.procs[pid].pc, choice))
  {
    var p := s.procs[pid];
    var t := Target(p.root, p.intent.intentSha);
    assert ProcessOk(c, s, p);
    match p.pc {
      case Claiming(_, _) => ClaimEffectOk(c, s, pid, choice);
      case Reading(at) => ReadStepOk(c, s.files, s.bundles, p.intent, t, at);
      case Publishing(o, expected, at) => PublishStepOk(c, s.files, s.bundles, p.intent, t, o, expected, at, choice);
      case _ =>
    }
  }

  lemma OthersKeep(c: Codec, s: State, s': State, pid: Pid, e: Effect)
    requires Inv(c, s) && pid in s.procs && EffectOk(c, s, pid, e)
    requires s'.files == e.files && s'.bundles == e.bundles && s'.procs == s.procs[pid := s.procs[pid].(pc := e.pc)]
    ensures forall q | q in s'.procs :: ProcessOk(c, s', s'.procs[q])
  {
    forall q | q in s'.procs
      ensures ProcessOk(c, s', s'.procs[q])
    {
      var r := s.procs[q];
      assert ProcessOk(c, s, r);
      if q != pid {
        assert r.pc.Claiming? && r.pc.claimPoint.Write? ==> Writes(r, ClaimPath(r.intent, r.pc.claim));
        PcStable(c, s, s', r.intent, Target(r.root, r.intent.intentSha), r.pc);
      }
    }
  }

  lemma OneWriterKeeps(c: Codec, s: State, s': State, pid: Pid, e: Effect)
    requires Inv(c, s) && pid in s.procs && EffectOk(c, s, pid, e)
    requires s'.files == e.files && s'.bundles == e.bundles && s'.procs == s.procs[pid := s.procs[pid].(pc := e.pc)]
    ensures OneWriter(s'.procs)
  {
    forall q, r, path | q in s'.procs && r in s'.procs && Writes(s'.procs[q], path) && Writes(s'.procs[r], path)
      ensures q == r
    {
      assert q != pid ==> ProcessOk(c, s, s.procs[q]) && Writes(s.procs[q], path);
      assert r != pid ==> ProcessOk(c, s, s.procs[r]) && Writes(s.procs[r], path);
    }
  }

  lemma EffectKeeps(c: Codec, s: State, s': State, pid: Pid, e: Effect)
    requires Inv(c, s) && pid in s.procs && EffectOk(c, s, pid, e)
    requires s'.files == e.files && s'.bundles == e.bundles && s'.procs == s.procs[pid := s.procs[pid].(pc := e.pc)]
    ensures Inv(c, s')
  {
    OthersKeep(c, s, s', pid, e);
    OneWriterKeeps(c, s, s', pid, e);
  }

  lemma StartOk(c: Codec, files: FileSystem, bundles: map<Target, Bundle>, i: Intent, t: Target, role: Role)
    ensures PcOk(c, files, bundles, i, t, StartPc(i, role))
  {
    assert ClaimDocOk(c, i, IntentClaim, NewDoc(c, i, IntentClaim, 0));
  }

  lemma StepKeeps(c: Codec, s: State, pid: Pid, choice: Choice)
    requires Sound(c) && Inv(c, s) && pid in s.procs
    ensures var s' := Apply(c, s, Step(pid, choice));
            Inv(c, s') && Grows(s.files, s'.files) && Keeps(s.bundles, s'.bundles)
  {
    var p := s.procs[pid];
    StepEffectOk(c, s, pid, choice);
    EffectKeeps(c, s, Apply(c, s, Step(pid, choice)), pid, StepPc(c, s.files, s.bundles, p.intent, p.root, p.pc,
                                                                  choice));
  }

  lemma StartsWithoutWriting(intent: Intent, role: Role)
    ensures var pc := StartPc(intent, role); !(pc.Claiming? && pc.claimPoint.Write?)
  {
  }

  lemma LaunchKeeps(c: Codec, s: State, pid: Pid, role: Role, intent: Intent, root: nat)
    requires Inv(c, s)
    ensures var s' := Apply(c, s, Launch(pid, role, intent, root));
            Inv(c, s') && s'.files == s.files && s'.bundles == s.bundles
  {
    if pid !in s.procs && ValidIntent(c, intent) {
      StartOk(c, s.files, s.bundles, intent, Target(root, intent.intentSha), role);
      StartsWithoutWriting(intent, role);
      NewcomerKeeps(c, s, pid, Process(intent, root, StartPc(intent, role)));
    }
  }

  lemma NewcomerKeeps(c: Codec, s: State, pid: Pid, p: Process)
    requires Inv(c, s) && pid !in s.procs && ProcessOk(c, s, p) && !(p.pc.Claiming? && p.pc.claimPoint.Write?)
    ensures Inv(c, s.(procs := s.procs[pid := p]))
  {
    SameFilesKeep(c, s, s.(procs := s.procs[pid := p]));
  }

  // Every action keeps the invariant and only adds to the record.
  lemma ApplyKeeps(c: Codec, s: State, a: Action)
    requires Sound(c) && Inv(c, s)
    ensures Inv(c, Apply(c, s, a))
    ensures Grows(s.files, Apply(c, s, a).files) && Keeps(s.bundles, Apply(c, s, a).bundles)
  {
    match a {
      case Step(pid, choice) =>
        if pid in s.procs {
          StepKeeps(c, s, pid, choice);
        }
      case Launch(pid, role, intent, root) => LaunchKeeps(c, s, pid, role, intent, root);
      case Crash(pid) => SameFilesKeep(c, s, Apply(c, s, a));
    }
  }

  // Starting or stopping processes leaves the other processes' facts alone.
  lemma SameFilesKeep(c: Codec, s: State, s': State)
    requires Inv(c, s) && s'.files == s.files && s'.bundles == s.bundles
    requires forall p | p in s'.procs :: (p in s.procs && s'.procs[p] == s.procs[p])
                                         || (ProcessOk(c, s', s'.procs[p]) && !(s'.procs[p].pc.Claiming? &&
                                                                                s'.procs[p].pc.claimPoint.Write?))
    ensures Inv(c, s')
  {
    forall p | p in s'.procs
      ensures ProcessOk(c, s', s'.procs[p])
    {
      if p in s.procs && s'.procs[p] == s.procs[p] {
        assert ProcessOk(c, s, s.procs[p]);
      }
    }
  }

  lemma {:induction false} RunKeeps(c: Codec, s: State, actions: seq<Action>)
    requires Sound(c) && Inv(c, s)
    ensures Inv(c, Run(c, s, actions))
    ensures Grows(s.files, Run(c, s, actions).files) && Keeps(s.bundles, Run(c, s, actions).bundles)
    decreases |actions|
  {
    if actions != [] {
      ApplyKeeps(c, s, actions[0]);
      RunKeeps(c, Apply(c, s, actions[0]), actions[1..]);
    }
  }
}
