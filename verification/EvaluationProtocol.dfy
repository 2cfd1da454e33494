// The write-once ledger protocol as a state machine.  Any number of processes run the
// registration and evaluation commands; every file-system effect is its own atomic step,
// steps interleave freely, and a process may stop for good between any two steps.
module EvaluationProtocol {
  import opened Common
  import opened EvaluationRecords

  type Pid = nat

  datatype Path =
    | IntentPath(intentSha: Digest)
    | RegistrationPath(cohortSha: Digest)
    | AccessPath(intentSha: Digest)
    | CompletionPath(intentSha: Digest)

  // An exclusively created file: its creator writes the text of `doc`, `written` bytes so far.
  datatype File = File(doc: Doc, written: nat)

  type FileSystem = map<Path, File>

  // Bundle directories: an output root chosen by the caller, and the intent digest in it.
  datatype Target = Target(root: nat, intentSha: Digest)

  // What one process wants to record in a write-once file.
  datatype Claim =
    | IntentClaim
    | RegistrationClaim
    | AccessClaim
    | CompletionClaim(identity: CompletionIdentity, output: Output)

  // Why a process revalidates the registration.
  datatype Goal = ForAccess | ForCompletion(output: Output) | ForEvidence(output: Output)

  // The ledger methods: look for an existing record, else create and write one.
  datatype ClaimPoint =
    | Check
    | Load
    | Create(doc: Doc)
    | Write(doc: Doc, written: nat)
    | Compare(doc: Doc)

  datatype ReadPoint =
      // assert_registered
    | AssertFile(goal: Goal)
    | AssertLoad(goal: Goal)
      // record_completion
    | NeedAccess(output: Output)
    | ReadRegistration(output: Output)
    | ReadAccess(output: Output, registration: Registration)
      // evidence_paths
    | EvidenceFiles(output: Output)
    | EvidenceAccess(output: Output)
    | EvidenceCompletion(output: Output)
      // publish_ranking_evaluation, before it touches the output root
    | PublishRegistration(output: Output)
    | PublishAccess(output: Output, registration: Registration)
    | PublishCompletion(output: Output, registration: Registration, access: Access)

  datatype PublishPoint =
    | FindTarget
    | Stage(staged: Bundle, index: nat, offset: nat)
    | Rename(staged: Bundle)
    | CompareTarget
    | VerifyTarget

  datatype Pc =
    | Claiming(claim: Claim, claimPoint: ClaimPoint)
    | Scoring // parse the labels, score the cohort, decide
    | Reading(readPoint: ReadPoint)
    | Publishing(output: Output, expected: Bundle, publishPoint: PublishPoint)
    | Registered
    | Done(output: Output)
    | Failed

  datatype Process = Process(intent: Intent, root: nat, pc: Pc)

  datatype State = State(
    files: FileSystem,
    bundles: map<Target, Bundle>,
    procs: map<Pid, Process>,
    now: nat)

  // The part of a step that the code does not determine: the clock, how many bytes one
  // write call takes, and what scoring returns.
  datatype Choice = Choice(time: nat, bytes: nat, output: Output)

  datatype Role = Registrar | Evaluator

  datatype Action =
    | Launch(pid: Pid, role: Role, intent: Intent, root: nat)
    | Crash(pid: Pid)
    | Step(pid: Pid, choice: Choice)

  // ---------------------------------------------------------------- reading files

  function Contents(c: Codec, f: File): Bytes {
    var text := c.encode(f.doc);
    if f.written <= |text| then text[..f.written] else text
  }

  function LoadDoc(c: Codec, files: FileSystem, p: Path): Option<Doc> {
    if p in files then c.decode(Contents(c, files[p])) else None
  }

  // _load_event: the text reads and the event carries its own digest.
  function LoadEvent(c: Codec, files: FileSystem, p: Path): Option<Doc> {
    match LoadDoc(c, files, p)
    case Some(d) => if SelfHashed(c, d) then Some(d) else None
    case None => None
  }

  // ---------------------------------------------------------------- claims

  function ClaimPath(i: Intent, claim: Claim): Path {
    match claim
    case IntentClaim => IntentPath(i.intentSha)
    case RegistrationClaim => RegistrationPath(i.cohortSha)
    case AccessClaim => AccessPath(i.intentSha)
    case CompletionClaim(_, _) => CompletionPath(i.intentSha)
  }

  function NewDoc(c: Codec, i: Intent, claim: Claim, time: nat): Doc {
    match claim
    case IntentClaim => IntentDoc(i)
    case RegistrationClaim => RegistrationDoc(NewRegistration(c, i, time))
    case AccessClaim => AccessDoc(NewAccess(c, i, time))
    case CompletionClaim(identity, _) => CompletionDoc(NewCompletion(c, identity, time))
  }

  // Whether an event that is already there counts as this claim.
  predicate Adopts(i: Intent, claim: Claim, d: Doc) {
    match claim
    case IntentClaim => false
    case RegistrationClaim =>
      d.RegistrationDoc? && d.registration.body.intentSha == i.intentSha
    case AccessClaim =>
      d.AccessDoc? && d.access.body.cohortSha == i.cohortSha && d.access.body.intentSha == i.intentSha
    case CompletionClaim(identity, _) =>
      d.CompletionDoc? && d.completion.body.identity == identity
  }

  function AfterClaim(claim: Claim): Pc {
    match claim
    case IntentClaim => Claiming(RegistrationClaim, Check)
    case RegistrationClaim => Registered
    case AccessClaim => Scoring
    case CompletionClaim(_, output) => Reading(AssertFile(ForEvidence(output)))
  }

  predicate RegistrationNames(i: Intent, d: Doc) {
    && d.RegistrationDoc?
    && d.registration.body.cohortSha == i.cohortSha
    && d.registration.body.intentSha == i.intentSha
  }

  predicate RegistrationMatches(i: Intent, d: Doc) {
    && RegistrationNames(i, d)
    && d.registration.body.modelSha == i.body.artifact.modelSha
  }

  function AfterAssert(goal: Goal): Pc {
    match goal
    case ForAccess => Claiming(AccessClaim, Check)
    case ForCompletion(output) => Reading(NeedAccess(output))
    case ForEvidence(output) => Reading(EvidenceFiles(output))
  }

  // publish_ranking_evaluation checks the completion against the events and outputs it was given.
  predicate CompletionMatches(c: Codec, i: Intent, r: Registration, a: Access, d: Doc, o: Output) {
    && d.CompletionDoc?
    && d.completion.body.identity == IdentityOf(c, i, r.eventSha, a.eventSha, o)
    && OutputHashed(c, o)
  }

  const FILE_ORDER: seq<BundleFile> :=
    [IntentFile, RegistrationFile, AccessFile, CompletionFile, ReportFile, DecisionFile, ManifestFile]

  // ---------------------------------------------------------------- one step

  // The new text and the next program point of a process that works on a claim.
  function StepClaim(c: Codec, files: FileSystem, i: Intent, claim: Claim, at: ClaimPoint,
                     choice: Choice): (FileSystem, Pc) {
    var path := ClaimPath(i, claim);
    match at
    case Check =>
      // path.exists(); the event is built, with its timestamp, when nothing is there
      (files, Claiming(claim, if path in files then Load else Create(NewDoc(c, i, claim, choice.time))))
    case Load =>
      var found := LoadEvent(c, files, path);
      (files, if found.Some? && Adopts(i, claim, found.value) then AfterClaim(claim) else Failed)
    case Create(doc) =>
      // os.open(O_CREAT | O_EXCL)
      if path in files then (files, Claiming(claim, Compare(doc)))
      else (files[path := File(doc, 0)], Claiming(claim, Write(doc, 0)))
    case Write(doc, written) =>
      var n := Advance(written, choice.bytes, |c.encode(doc)|);
      (files[path := File(doc, n)], if n == |c.encode(doc)| then AfterClaim(claim) else Claiming(claim, Write(doc, n)))
    case Compare(doc) =>
      // FileExistsError: equal bytes are adopted, otherwise the caller looks at the event
      if path in files && Contents(c, files[path]) == c.encode(doc) then (files, AfterClaim(claim))
      else (files, if claim.IntentClaim? then Failed else Claiming(claim, Load))
  }

  // A write call takes at least one byte.
  function Advance(written: nat, bytes: nat, size: nat): nat {
    if written + 1 + bytes < size then written + 1 + bytes else size
  }

  // The steps that only read the ledger.
  function StepRead(c: Codec, files: FileSystem, i: Intent, at: ReadPoint): Pc {
    var registration := LoadEvent(c, files, RegistrationPath(i.cohortSha));
    var access := LoadEvent(c, files, AccessPath(i.intentSha));
    var completion := LoadEvent(c, files, CompletionPath(i.intentSha));
    match at
    case AssertFile(goal) =>
      if RegistrationPath(i.cohortSha) in files then Reading(AssertLoad(goal)) else Failed
    case AssertLoad(goal) =>
      if registration.Some? && RegistrationMatches(i, registration.value) then AfterAssert(goal) else Failed
    case NeedAccess(o) =>
      if AccessPath(i.intentSha) in files then Reading(ReadRegistration(o)) else Failed
    case ReadRegistration(o) =>
      if registration.Some? && registration.value.RegistrationDoc?
      then Reading(ReadAccess(o, registration.value.registration)) else Failed
    case ReadAccess(o, r) =>
      if access.Some? && access.value.AccessDoc?
      then Claiming(CompletionClaim(IdentityOf(c, i, r.eventSha, access.value.access.eventSha, o), o),
                    Check) else Failed
    case EvidenceFiles(o) =>
      if AccessPath(i.intentSha) in files && CompletionPath(i.intentSha) in files
      then Reading(EvidenceAccess(o)) else Failed
    case EvidenceAccess(o) =>
      if access.Some? && access.value.AccessDoc? then Reading(EvidenceCompletion(o)) else Failed
    case EvidenceCompletion(o) =>
      if completion.Some? && completion.value.CompletionDoc? then Reading(PublishRegistration(o)) else Failed
    case PublishRegistration(o) =>
      if registration.Some? && RegistrationNames(i, registration.value)
      then Reading(PublishAccess(o, registration.value.registration)) else Failed
    case PublishAccess(o, r) =>
      if access.Some? && Adopts(i, AccessClaim, access.value)
      then Reading(PublishCompletion(o, r, access.value.access)) else Failed
    case PublishCompletion(o, r, a) =>
      if completion.Some? && CompletionMatches(c, i, r, a, completion.value, o)
      then Publishing(o, ExpectedBundle(c, i, Chain(r, a, completion.value.completion), o), FindTarget) else Failed
  }

  // The visible bundle directories and the next program point of a publishing process.  The
  // staging directory is private to the process until it is renamed.
  function StepPublish(c: Codec, bundles: map<Target, Bundle>, t: Target, o: Output, expected: Bundle,
                       at: PublishPoint, choice: Choice)
    : (map<Target, Bundle>, Pc)
  {
    match at
    case FindTarget =>
      (bundles, Publishing(o, expected, if t in bundles then CompareTarget else Stage(map[], 0, 0)))
    case Stage(staged, index, offset) =>
      (bundles, Publishing(o, expected, StageMore(expected, staged, index, offset, choice.bytes)))
    case Rename(staged) =>
      // rename() replaces nothing or an empty directory, and fails on anything else
      if t !in bundles || bundles[t] == map[] then (bundles[t := staged], Publishing(o, expected, VerifyTarget))
      else (bundles, Publishing(o, expected, CompareTarget))
    case CompareTarget =>
      (bundles, if t in bundles && bundles[t] == expected then Publishing(o, expected, VerifyTarget) else Failed)
    case VerifyTarget =>
      (bundles, if t in bundles && VerifyBundle(c, bundles[t]) then Done(o) else Failed)
  }

  // One write call into the staging directory.
  function StageMore(expected: Bundle, staged: Bundle, index: nat, offset: nat, bytes: nat): PublishPoint {
    if index < |FILE_ORDER| && FILE_ORDER[index] in expected then
      var text := expected[FILE_ORDER[index]];
      var n := Advance(offset, bytes, |text|);
      var staged' := staged[FILE_ORDER[index] := text[..n]];
      if n == |text| then Stage(staged', index + 1, 0) else Stage(staged', index, n)
    else
      Rename(staged)
  }

  // The new shared state and the process's next program point.
  datatype Effect = Effect(files: FileSystem, bundles: map<Target, Bundle>, pc: Pc)

  function StepPc(c: Codec, files: FileSystem, bundles: map<Target, Bundle>, i: Intent, root: nat, pc: Pc,
                  choice: Choice): Effect {
    match pc
    case Claiming(claim, at) =>
      var (files', pc') := StepClaim(c, files, i, claim, at, choice);
      Effect(files', bundles, pc')
    case Scoring => Effect(files, bundles, Reading(AssertFile(ForCompletion(choice.output))))
    case Reading(at) => Effect(files, bundles, StepRead(c, files, i, at))
    case Publishing(o, expected, at) =>
      var (bundles', pc') := StepPublish(c, bundles, Target(root, i.intentSha), o, expected, at, choice);
      Effect(files, bundles', pc')
    case _ => Effect(files, bundles, pc)
  }

  function StartPc(i: Intent, role: Role): Pc {
    match role
    case Registrar => Claiming(IntentClaim, Create(IntentDoc(i)))
    case Evaluator => Reading(AssertFile(ForAccess))
  }

  // One action of the whole system; an action that is not possible changes nothing.
  function Apply(c: Codec, s: State, a: Action): State {
    match a
    case Launch(pid, role, intent, root) =>
      if pid !in s.procs && ValidIntent(c, intent)
      then s.(procs := s.procs[pid := Process(intent, root, StartPc(intent, role))]) else s
    case Crash(pid) =>
      s.(procs := s.procs - {pid})
    case Step(pid, choice) =>
      if pid in s.procs then
        var p := s.procs[pid];
        var e := StepPc(c, s.files, s.bundles, p.intent, p.root, p.pc, choice);
        State(e.files, e.bundles, s.procs[pid := p.(pc := e.pc)], if choice.time > s.now then choice.time else s.now)
      else s
  }

  const EMPTY := State(map[], map[], map[], 0)

  function Run(c: Codec, s: State, actions: seq<Action>): State
    decreases |actions|
  {
    if actions == [] then s else Run(c, Apply(c, s, actions[0]), actions[1..])
  }
}
