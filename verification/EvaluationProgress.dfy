// Termination, recovery and timestamps of the evaluation protocol.
module EvaluationProgress {
  import opened Common
  import opened EvaluationRecords
  import opened EvaluationProtocol
  import opened EvaluationSafety
  import opened EvaluationTheorems

  // ---------------------------------------------------------------- wait-freedom

  predicate Stopped(pc: Pc) {
    pc.Registered? || pc.Done? || pc.Failed?
  }

  // How far a program point is from the end, counted in steps that are not byte writes.
  function Distance(pc: Pc): nat {
    match pc
    case Publishing(_, _, VerifyTarget) => 1
    case Publishing(_, _, CompareTarget) => 2
    case Publishing(_, _, Rename(_)) => 3
    case Publishing(_, _, Stage(_, index, _)) => if index < |FILE_ORDER| then 4 + |FILE_ORDER| - index else 4
    case Publishing(_, _, FindTarget) => 12
    case Reading(at) => ReadDistance(at)
    case Claiming(claim, at) =>
      ClaimDistance(claim) + ClaimPointDistance(at)
    case Scoring => 31
    case _ => 0
  }

  function ClaimDistance(claim: Claim): nat {
    match claim
    case CompletionClaim(_, _) => 21
    case AccessClaim => 32
    case RegistrationClaim => 39
    case IntentClaim => 44
  }

  function ClaimPointDistance(at: ClaimPoint): nat {
    match at
    case Load => 0
    case Compare(_) => 1
    case Write(_, _) => 2
    case Create(_) => 3
    case Check => 4
  }

  function ReadDistance(at: ReadPoint): nat {
    match at
    case PublishCompletion(_, _, _) => 13
    case PublishAccess(_, _) => 14
    case PublishRegistration(_) => 15
    case EvidenceCompletion(_) => 16
    case EvidenceAccess(_) => 17
    case EvidenceFiles(_) => 18
    case AssertLoad(ForEvidence(_)) => 19
    case AssertFile(ForEvidence(_)) => 20
    case ReadAccess(_, _) => 26
    case ReadRegistration(_) => 27
    case NeedAccess(_) => 28
    case AssertLoad(ForCompletion(_)) => 29
    case AssertFile(ForCompletion(_)) => 30
    case AssertLoad(ForAccess) => 37
    case AssertFile(ForAccess) => 38
  }

  // The bytes still to write at this program point.
  function BytesLeft(c: Codec, pc: Pc): nat {
    match pc
    case Claiming(_, Write(doc, written)) =>
      if written < |c.encode(doc)| then |c.encode(doc)| - written else 0
    case Publishing(_, expected, Stage(_, index, offset)) =>
      if index < |FILE_ORDER| && FILE_ORDER[index] in expected && offset < |expected[FILE_ORDER[index]]|
      then |expected[FILE_ORDER[index]]| - offset else 0
    case _ => 0
  }

  predicate Closer(c: Codec, pc': Pc, pc: Pc) {
    Distance(pc') < Distance(pc) || (Distance(pc') == Distance(pc) && BytesLeft(c, pc') < BytesLeft(c, pc))
  }

  // Every step of a process brings it strictly closer to its end, whatever other processes
  // did in between and whatever they left on disk: no process waits for another.
  lemma StepGetsCloser(c: Codec, actions: seq<Action>, pid: Pid, choice: Choice)
    requires Sound(c)
    requires pid in Run(c, EMPTY, actions).procs && !Stopped(Run(c, EMPTY, actions).procs[pid].pc)
    ensures
      var s := Run(c, EMPTY, actions);
      Closer(c, Apply(c, s, Step(pid, choice)).procs[pid].pc, s.procs[pid].pc)
  {
    var s := Run(c, EMPTY, actions);
    EmptyInv(c);
    RunKeeps(c, EMPTY, actions);
    assert ProcessOk(c, s, s.procs[pid]);
    PcGetsCloser(c, s, pid, choice);
  }

  lemma EffectGetsCloser(c: Codec, s: State, p: Process, choice: Choice)
    requires ProcessOk(c, s, p) && !Stopped(p.pc)
    ensures Closer(c, StepPc(c, s.files, s.bundles, p.intent, p.root, p.pc, choice).pc, p.pc)
  {
    match p.pc {
      case Claiming(claim, at) =>
        ClaimGetsCloser(c, s.files, p.intent, claim, at, choice);
      case Reading(at) =>
        ReadGetsCloser(c, s.files, p.intent, at);
      case Publishing(o, expected, at) =>
        PublishGetsCloser(c, s.bundles, Target(p.root, p.intent.intentSha), o, expected, at, choice);
      case _ =>
    }
  }

  lemma PcGetsCloser(c: Codec, s: State, pid: Pid, choice: Choice)
    requires Inv(c, s) && pid in s.procs && !Stopped(s.procs[pid].pc)
    ensures Closer(c, Apply(c, s, Step(pid, choice)).procs[pid].pc, s.procs[pid].pc)
  {
    var p := s.procs[pid];
    assert ProcessOk(c, s, p);
    EffectGetsCloser(c, s, p, choice);
    assert Apply(c, s, Step(pid, choice)).procs[pid].pc == StepPc(c, s.files, s.bundles, p.intent, p.root, p.pc,
                                                                  choice).pc;
  }

  lemma ClaimGetsCloser(c: Codec, files: FileSystem, i: Intent, claim: Claim, at: ClaimPoint, choice: Choice)
    requires ClaimPointOk(c, files, i, claim, at)
    ensures Closer(c, StepClaim(c, files, i, claim, at, choice).1, Claiming(claim, at))
  {
  }

  lemma ReadGetsCloser(c: Codec, files: FileSystem, i: Intent, at: ReadPoint)
    ensures Closer(c, StepRead(c, files, i, at), Reading(at))
  {
  }

  lemma PublishGetsCloser(c: Codec, bundles: map<Target, Bundle>, t: Target, o: Output, expected: Bundle,
                          at: PublishPoint, choice: Choice)
    requires PublishPointOk(bundles, t, expected, at)
    requires at.Stage? ==> expected.Keys == FileNames()
    ensures Closer(c, StepPublish(c, bundles, t, o, expected, at, choice).1, Publishing(o, expected, at))
  {
    if at.Stage? && at.index < |FILE_ORDER| {
      assert FILE_ORDER[at.index] in FileNames();
    }
  }

  // ---------------------------------------------------------------- one process alone

  // `n` rounds of a step function, numbered from `start`.
  function Iterate(step: (nat, State) -> State, s: State, start: nat, n: nat): State
    decreases n
  {
    if n == 0 then s else Iterate(step, step(start, s), start + 1, n - 1)
  }

  // One step of process `pid`, with the choice that a stream holds for that step.
  function Only(c: Codec, pid: Pid, choices: nat -> Choice): (nat, State) -> State {
    (k: nat, s: State) => Apply(c, s, Step(pid, choices(k)))
  }

  // `n` steps of one process while nothing else moves.
  function Alone(c: Codec, s: State, pid: Pid, choices: nat -> Choice, n: nat): State {
    Iterate(Only(c, pid, choices), s, 0, n)
  }

  ghost predicate IsStep(c: Codec, pid: Pid, choices: nat -> Choice, step: (nat, State) -> State, k: nat, s: State) {
    step(k, s) == Apply(c, s, Step(pid, choices(k)))
  }

  ghost predicate Steps(c: Codec, pid: Pid, choices: nat -> Choice, step: (nat, State) -> State) {
    forall k, s :: IsStep(c, pid, choices, step, k, s)
  }

  // The outputs that a program point carries are all `o`.
  predicate Carries(pc: Pc, o: Output) {
    match pc
    case Claiming(CompletionClaim(_, output), _) => output == o
    case Reading(AssertFile(goal)) => goal.ForAccess? || goal.output == o
    case Reading(AssertLoad(goal)) => goal.ForAccess? || goal.output == o
    case Reading(at) => at.output == o
    case Publishing(output, _, _) => output == o
    case Done(output) => output == o
    case _ => true
  }

  // The record at a path of `i`, unless this process is writing it, reads and fits `o`.
  predicate NoObstacle(c: Codec, files: FileSystem, i: Intent, o: Output, p: Process) {
    && HasRegistration(c, files, i)
    && (AccessPath(i.intentSha) in files && !Writes(p, AccessPath(i.intentSha)) ==> HasAccess(c, files, i))
    && (CompletionPath(i.intentSha) in files && !Writes(p, CompletionPath(i.intentSha)) ==>
          HasCompletion(c, files, i, o))
  }

  // An evaluator that is going to finish with `o`, or already has.
  ghost predicate OnTrackAt(c: Codec, files: FileSystem, bundles: map<Target, Bundle>, p: Process, o: Output) {
    var t := Target(p.root, p.intent.intentSha);
    && NoObstacle(c, files, p.intent, o, p)
    && Carries(p.pc, o)
    && !p.pc.Registered?
    && (p.pc.Claiming? ==> p.pc.claim.AccessClaim? || p.pc.claim.CompletionClaim?)
    && (p.pc.Failed? ==>
          t in bundles && Sealed(c, files, t.intentSha, bundles[t], p.intent, o) && !VerifyBundle(c, bundles[t]))
  }

  ghost predicate OnTrack(c: Codec, s: State, pid: Pid, o: Output) {
    pid in s.procs && OnTrackAt(c, s.files, s.bundles, s.procs[pid], o)
  }

  lemma ClaimKeepsCarrying(c: Codec, files: FileSystem, p: Process, o: Output, choice: Choice)
    requires p.pc.Claiming? && (p.pc.claim.AccessClaim? || p.pc.claim.CompletionClaim?)
    requires ClaimReady(c, files, p.intent, p.pc.claim, p.pc.claimPoint)
    requires NoObstacle(c, files, p.intent, o, p) && Carries(p.pc, o)
    ensures
      var pc' := StepClaim(c, files, p.intent, p.pc.claim, p.pc.claimPoint, choice).1;
      Carries(pc', o) && !Stopped(pc') && (pc'.Claiming? ==> pc'.claim == p.pc.claim)
  {
    if p.pc.claimPoint.Load? {
      LoadEventIs(c, files, ClaimPath(p.intent, p.pc.claim));
    }
  }

  lemma ClaimLeavesNoObstacle(c: Codec, files: FileSystem, p: Process, o: Output, choice: Choice)
    requires p.pc.Claiming? && (p.pc.claim.AccessClaim? || p.pc.claim.CompletionClaim?)
    requires ClaimReady(c, files, p.intent, p.pc.claim, p.pc.claimPoint)
    requires NoObstacle(c, files, p.intent, o, p) && Carries(p.pc, o)
    ensures
      var (files', pc') := StepClaim(c, files, p.intent, p.pc.claim, p.pc.claimPoint, choice);
      NoObstacle(c, files', p.intent, o, p.(pc := pc'))
  {
    var i, claim, at := p.intent, p.pc.claim, p.pc.claimPoint;
    var (files', pc') := StepClaim(c, files, i, claim, at, choice);
    ClaimStepOk(c, files, map[], i, Target(0, i.intentSha), claim, at, choice);
    RecordsStable(c, files, files', i);
    CompletionStable(c, files, files', i, o);
  }

  lemma ClaimStaysOnTrack(c: Codec, files: FileSystem, p: Process, o: Output, choice: Choice)
    requires p.pc.Claiming? && (p.pc.claim.AccessClaim? || p.pc.claim.CompletionClaim?)
    requires ClaimReady(c, files, p.intent, p.pc.claim, p.pc.claimPoint)
    requires NoObstacle(c, files, p.intent, o, p) && Carries(p.pc, o)
    ensures
      var (files', pc') := StepClaim(c, files, p.intent, p.pc.claim, p.pc.claimPoint, choice);
      && NoObstacle(c, files', p.intent, o, p.(pc := pc')) && Carries(pc', o) && !Stopped(pc')
      && (pc'.Claiming? ==> pc'.claim == p.pc.claim)
  {
    ClaimKeepsCarrying(c, files, p, o, choice);
    ClaimLeavesNoObstacle(c, files, p, o, choice);
  }

  lemma ReadStaysOnTrack(c: Codec, files: FileSystem, p: Process, at: ReadPoint, o: Output)
    requires Sound(c) && ValidIntent(c, p.intent) && FilesOk(c, files) && OutputHashed(c, o)
    requires p.pc == Reading(at) && ReadPointOk(c, files, p.intent, at)
    requires NoObstacle(c, files, p.intent, o, p) && Carries(p.pc, o)
    ensures
      var pc' := StepRead(c, files, p.intent, at);
      && NoObstacle(c, files, p.intent, o, p.(pc := pc')) && Carries(pc', o) && !Stopped(pc')
      && (pc'.Claiming? ==> pc'.claim.AccessClaim? || pc'.claim.CompletionClaim?)
  {
    LoadEventIs(c, files, RegistrationPath(p.intent.cohortSha));
    LoadEventIs(c, files, AccessPath(p.intent.intentSha));
    LoadEventIs(c, files, CompletionPath(p.intent.intentSha));
  }

  lemma PublishStaysOnTrack(c: Codec, files: FileSystem, bundles: map<Target, Bundle>, p: Process, expected: Bundle,
                            at: PublishPoint, o: Output, choice: Choice)
    requires Sound(c) && ValidIntent(c, p.intent) && BundlesOk(c, files, bundles) && OutputHashed(c, o)
    requires Sealed(c, files, p.intent.intentSha, expected, p.intent, o)
    requires PublishPointOk(bundles, Target(p.root, p.intent.intentSha), expected, at)
    ensures
      var t := Target(p.root, p.intent.intentSha);
      var (bundles', pc') := StepPublish(c, bundles, t, o, expected, at, choice);
      && Carries(pc', o) && (pc'.Publishing? || pc'.Done? || pc'.Failed?)
      && (pc'.Failed? ==> t in bundles' && Sealed(c, files, t.intentSha, bundles'[t], p.intent, o) &&
                          !VerifyBundle(c, bundles'[t]))
  {
    var t := Target(p.root, p.intent.intentSha);
    if at.CompareTarget? && t in bundles {
      assert BundleOk(c, files, t.intentSha, bundles[t]);
      var j, o' :| Sealed(c, files, t.intentSha, bundles[t], j, o');
      IntentDetermined(c, j, p.intent);
      OutputDetermined(c, files, p.intent, o, o');
    }
  }

  // The three kinds of program points at which an evaluator works.
  lemma ClaimEffectOnTrack(c: Codec, s: State, p: Process, o: Output, choice: Choice)
    requires Inv(c, s) && ProcessOk(c, s, p) && Sound(c) && OnTrackAt(c, s.files, s.bundles, p, o) && p.pc.Claiming?
    ensures
      var e := StepPc(c, s.files, s.bundles, p.intent, p.root, p.pc, choice);
      OnTrackAt(c, e.files, e.bundles, p.(pc := e.pc), o)
  {
    ClaimStaysOnTrack(c, s.files, p, o, choice);
  }

  lemma ReadEffectOnTrack(c: Codec, s: State, p: Process, o: Output, choice: Choice)
    requires Inv(c, s) && ProcessOk(c, s, p) && Sound(c) && OutputHashed(c, o)
    requires OnTrackAt(c, s.files, s.bundles, p, o) && p.pc.Reading?
    ensures
      var e := StepPc(c, s.files, s.bundles, p.intent, p.root, p.pc, choice);
      OnTrackAt(c, e.files, e.bundles, p.(pc := e.pc), o)
  {
    ReadStaysOnTrack(c, s.files, p, p.pc.readPoint, o);
  }

  lemma PublishEffectOnTrack(c: Codec, s: State, p: Process, o: Output, choice: Choice)
    requires Inv(c, s) && ProcessOk(c, s, p) && Sound(c) && OutputHashed(c, o)
    requires OnTrackAt(c, s.files, s.bundles, p, o) && p.pc.Publishing?
    ensures
      var e := StepPc(c, s.files, s.bundles, p.intent, p.root, p.pc, choice);
      OnTrackAt(c, e.files, e.bundles, p.(pc := e.pc), o)
  {
    PublishStaysOnTrack(c, s.files, s.bundles, p, p.pc.expected, p.pc.publishPoint, o, choice);
  }

  lemma EffectOnTrack(c: Codec, s: State, p: Process, o: Output, choice: Choice)
    requires Inv(c, s) && ProcessOk(c, s, p) && Sound(c) && OutputHashed(c, o) && choice.output == o
    requires OnTrackAt(c, s.files, s.bundles, p, o)
    ensures
      var e := StepPc(c, s.files, s.bundles, p.intent, p.root, p.pc, choice);
      OnTrackAt(c, e.files, e.bundles, p.(pc := e.pc), o)
  {
    match p.pc {
      case Claiming(_, _) => ClaimEffectOnTrack(c, s, p, o, choice);
      case Reading(_) => ReadEffectOnTrack(c, s, p, o, choice);
      case Publishing(_, _, _) => PublishEffectOnTrack(c, s, p, o, choice);
      case _ =>
    }
  }

  lemma AloneStaysOnTrack(c: Codec, s: State, pid: Pid, o: Output, choice: Choice)
    requires Sound(c) && Inv(c, s) && OutputHashed(c, o) && choice.output == o && OnTrack(c, s, pid, o)
    ensures OnTrack(c, Apply(c, s, Step(pid, choice)), pid, o)
  {
    assert ProcessOk(c, s, s.procs[pid]);
    EffectOnTrack(c, s, s.procs[pid], o, choice);
  }

  // The state after one step alone, as a fact about states only.
  ghost predicate Follows(c: Codec, s: State, s': State, pid: Pid)
    requires pid in s.procs
  {
    && Inv(c, s') && Grows(s.files, s'.files)
    && pid in s'.procs && s'.procs[pid].intent == s.procs[pid].intent && s'.procs[pid].root == s.procs[pid].root
  }

  lemma FollowsTransitive(c: Codec, s: State, s': State, s'': State, pid: Pid)
    requires pid in s.procs && Follows(c, s, s', pid) && Follows(c, s', s'', pid)
    ensures Follows(c, s, s'', pid)
  {
  }

  lemma StepAlone(c: Codec, s: State, pid: Pid, choice: Choice)
    requires Sound(c) && Inv(c, s) && pid in s.procs && !Stopped(s.procs[pid].pc)
    ensures
      var s1 := Apply(c, s, Step(pid, choice));
      Follows(c, s, s1, pid) && Closer(c, s1.procs[pid].pc, s.procs[pid].pc)
  {
    ApplyKeeps(c, s, Step(pid, choice));
    PcGetsCloser(c, s, pid, choice);
  }

  lemma EvaluatorStepAlone(c: Codec, s: State, pid: Pid, o: Output, choices: nat -> Choice,
                           step: (nat, State) -> State, start: nat)
    requires Sound(c) && Inv(c, s) && OutputHashed(c, o) && OnTrack(c, s, pid, o) && !Stopped(s.procs[pid].pc)
    requires Steps(c, pid, choices, step) && choices(start).output == o
    ensures
      var s1 := step(start, s);
      Follows(c, s, s1, pid) && OnTrack(c, s1, pid, o) && Closer(c, s1.procs[pid].pc, s.procs[pid].pc)
  {
    assert IsStep(c, pid, choices, step, start, s);
    AloneStaysOnTrack(c, s, pid, o, choices(start));
    StepAlone(c, s, pid, choices(start));
  }

  // What one round keeps and brings closer, for any rounds, aims and distances.
  ghost predicate Advances(step: (nat, State) -> State, fine: State -> bool, stopped: State -> bool,
                           distance: State -> nat, bytes: State -> nat, k: nat, s: State) {
    fine(s) && !stopped(s) ==>
      var s' := step(k, s);
      && fine(s')
      && (distance(s') < distance(s) || (distance(s') == distance(s) && bytes(s') < bytes(s)))
  }

  lemma {:induction false} IterateStops(step: (nat, State) -> State, fine: State -> bool, stopped: State -> bool,
                                        distance: State -> nat, bytes: State -> nat, s: State,
                                        start: nat) returns (n: nat)
    requires fine(s) && forall k, t :: Advances(step, fine, stopped, distance, bytes, k, t)
    ensures fine(Iterate(step, s, start, n)) && stopped(Iterate(step, s, start, n))
    decreases distance(s), bytes(s)
  {
    if stopped(s) {
      n := 0;
    } else {
      assert Advances(step, fine, stopped, distance, bytes, start, s);
      n := IterateStops(step, fine, stopped, distance, bytes, step(start, s), start + 1);
      n := n + 1;
    }
  }

  function PcOf(s: State, pid: Pid): Pc {
    if pid in s.procs then s.procs[pid].pc else Failed
  }

  ghost predicate EvaluatorFine(c: Codec, first: State, s: State, pid: Pid, o: Output)
    requires pid in first.procs
  {
    Follows(c, first, s, pid) && OnTrack(c, s, pid, o)
  }

  lemma EvaluatorAdvances(c: Codec, first: State, s: State, pid: Pid, o: Output, choices: nat -> Choice,
                          step: (nat, State) -> State, k: nat)
    requires Sound(c) && OutputHashed(c, o) && pid in first.procs && EvaluatorFine(c, first, s, pid, o)
    requires !Stopped(PcOf(s, pid)) && Steps(c, pid, choices, step) && choices(k).output == o
    ensures EvaluatorFine(c, first, step(k, s), pid, o) && Closer(c, PcOf(step(k, s), pid), PcOf(s, pid))
  {
    EvaluatorStepAlone(c, s, pid, o, choices, step, k);
    FollowsTransitive(c, first, s, step(k, s), pid);
  }

  // An evaluator on track finishes after finitely many of its own steps.
  lemma FinishesAlone(c: Codec, s: State, pid: Pid, o: Output, choices: nat -> Choice,
                      step: (nat, State) -> State, start: nat) returns (n: nat, s': State)
    requires Sound(c) && Inv(c, s) && OutputHashed(c, o) && OnTrack(c, s, pid, o)
    requires Steps(c, pid, choices, step) && forall k :: choices(k).output == o
    ensures s' == Iterate(step, s, start, n)
    ensures Follows(c, s, s', pid) && OnTrack(c, s', pid, o) && Stopped(s'.procs[pid].pc)
  {
    var fine := t => EvaluatorFine(c, s, t, pid, o);
    var stopped := t => Stopped(PcOf(t, pid));
    var distance, bytes := t => Distance(PcOf(t, pid)), t => BytesLeft(c, PcOf(t, pid));
    forall k, t
      ensures Advances(step, fine, stopped, distance, bytes, k, t)
    {
      if fine(t) && !stopped(t) {
        EvaluatorAdvances(c, s, t, pid, o, choices, step, k);
      }
    }
    n := IterateStops(step, fine, stopped, distance, bytes, s, start);
    s' := Iterate(step, s, start, n);
  }

  lemma OnlySteps(c: Codec, pid: Pid, choices: nat -> Choice)
    ensures Steps(c, pid, choices, Only(c, pid, choices))
  {
  }

  // If the cohort is registered to the intent and every record of the intent that exists is
  // readable and, for a completion, is for the outcome that scoring gives again, then a new
  // evaluator run finishes.
  lemma RestartReaches(c: Codec, actions: seq<Action>, pid: Pid, root: nat, i: Intent, o: Output,
                       choices: nat -> Choice) returns (n: nat)
    requires Sound(c) && ValidIntent(c, i) && OutputHashed(c, o)
    requires forall k :: choices(k).output == o
    requires
      var s := Run(c, EMPTY, actions);
      && pid !in s.procs
      && HasRegistration(c, s.files, i)
      && (AccessPath(i.intentSha) in s.files ==> HasAccess(c, s.files, i))
      && (CompletionPath(i.intentSha) in s.files ==> HasCompletion(c, s.files, i, o))
    ensures
      var s := Run(c, EMPTY, actions);
      var s' := Alone(c, Apply(c, s, Launch(pid, Evaluator, i, root)), pid, choices, n);
      var t := Target(root, i.intentSha);
      && Inv(c, s') && Grows(s.files, s'.files)
      && HasCompletion(c, s'.files, i, o)
      && t in s'.bundles && s'.bundles[t] == ExpectedBundle(c, i, ChainAt(c, s'.files, i, o), o)
      && pid in s'.procs
      && s'.procs[pid].pc == (if Chronological(ChainAt(c, s'.files, i, o)) && Promotable(i, o) then Done(o) else Failed)
  {
    var s := Run(c, EMPTY, actions);
    EmptyInv(c);
    RunKeeps(c, EMPTY, actions);
    var s1 := Apply(c, s, Launch(pid, Evaluator, i, root));
    ApplyKeeps(c, s, Launch(pid, Evaluator, i, root));
    OnlySteps(c, pid, choices);
    var s';
    n, s' := FinishesAlone(c, s1, pid, o, choices, Only(c, pid, choices), 0);
    assert ProcessOk(c, s', s'.procs[pid]);
    assert Sealed(c, s'.files, i.intentSha, s'.bundles[Target(root, i.intentSha)], i, o);
    SealedLinked(c, s'.files, i.intentSha, s'.bundles[Target(root, i.intentSha)], i, o);
    SealedVerifies(c, i, ChainAt(c, s'.files, i, o), o);
  }

  // ---------------------------------------------------------------- registration retries

  // The intent file is compared byte for byte; the registration only has to read.
  ghost predicate RegistrarAt(c: Codec, files: FileSystem, p: Process) {
    var i := p.intent;
    && (p.pc.Registered? || (p.pc.Claiming? && (p.pc.claim.IntentClaim? || p.pc.claim.RegistrationClaim?)))
    && (p.pc.Claiming? && p.pc.claim.IntentClaim? ==> !p.pc.claimPoint.Load? && !p.pc.claimPoint.Check?)
    && (IntentPath(i.intentSha) in files && !Writes(p, IntentPath(i.intentSha)) ==>
          files[IntentPath(i.intentSha)] == File(IntentDoc(i), |c.encode(IntentDoc(i))|))
    && (RegistrationPath(i.cohortSha) in files && !Writes(p, RegistrationPath(i.cohortSha)) ==>
          HasRegistration(c, files, i))
  }

  ghost predicate RegistrarOnTrack(c: Codec, s: State, pid: Pid) {
    pid in s.procs && RegistrarAt(c, s.files, s.procs[pid])
  }

  lemma RegistrarClaimStays(c: Codec, files: FileSystem, p: Process, choice: Choice)
    requires p.pc.Claiming? && ClaimReady(c, files, p.intent, p.pc.claim, p.pc.claimPoint) && RegistrarAt(c, files, p)
    ensures
      var (files', pc') := StepClaim(c, files, p.intent, p.pc.claim, p.pc.claimPoint, choice);
      RegistrarAt(c, files', p.(pc := pc'))
  {
    var i, claim, at := p.intent, p.pc.claim, p.pc.claimPoint;
    var (files', pc') := StepClaim(c, files, i, claim, at, choice);
    ClaimStepOk(c, files, map[], i, Target(0, i.intentSha), claim, at, choice);
    RecordsStable(c, files, files', i);
    if at.Load? {
      LoadEventIs(c, files, ClaimPath(i, claim));
    }
  }

  lemma RegistrarStaysOnTrack(c: Codec, s: State, pid: Pid, choice: Choice)
    requires Sound(c) && Inv(c, s) && RegistrarOnTrack(c, s, pid)
    ensures RegistrarOnTrack(c, Apply(c, s, Step(pid, choice)), pid)
  {
    var p := s.procs[pid];
    assert ProcessOk(c, s, p);
    if p.pc.Claiming? {
      RegistrarClaimStays(c, s.files, p, choice);
    }
  }

  lemma RegistrarStepAlone(c: Codec, s: State, pid: Pid, choices: nat -> Choice, step: (nat, State) -> State,
                           start: nat)
    requires Sound(c) && Inv(c, s) && RegistrarOnTrack(c, s, pid) && !s.procs[pid].pc.Registered?
    requires Steps(c, pid, choices, step)
    ensures
      var s1 := step(start, s);
      Follows(c, s, s1, pid) && RegistrarOnTrack(c, s1, pid) && Closer(c, s1.procs[pid].pc, s.procs[pid].pc)
  {
    assert IsStep(c, pid, choices, step, start, s);
    RegistrarStaysOnTrack(c, s, pid, choices(start));
    StepAlone(c, s, pid, choices(start));
  }

  ghost predicate RegistrarFine(c: Codec, first: State, s: State, pid: Pid)
    requires pid in first.procs
  {
    Follows(c, first, s, pid) && RegistrarOnTrack(c, s, pid)
  }

  lemma RegistrarAdvances(c: Codec, first: State, s: State, pid: Pid, choices: nat -> Choice,
                          step: (nat, State) -> State, k: nat)
    requires Sound(c) && pid in first.procs && RegistrarFine(c, first, s, pid)
    requires !PcOf(s, pid).Registered? && Steps(c, pid, choices, step)
    ensures RegistrarFine(c, first, step(k, s), pid) && Closer(c, PcOf(step(k, s), pid), PcOf(s, pid))
  {
    RegistrarStepAlone(c, s, pid, choices, step, k);
    FollowsTransitive(c, first, s, step(k, s), pid);
  }

  lemma RegistrarFinishesAlone(c: Codec, s: State, pid: Pid, choices: nat -> Choice,
                               step: (nat, State) -> State, start: nat) returns (n: nat, s': State)
    requires Sound(c) && Inv(c, s) && RegistrarOnTrack(c, s, pid) && Steps(c, pid, choices, step)
    ensures s' == Iterate(step, s, start, n)
    ensures Follows(c, s, s', pid) && s'.procs[pid].pc == Registered
  {
    var fine := t => RegistrarFine(c, s, t, pid);
    var stopped := t => PcOf(t, pid).Registered?;
    var distance, bytes := t => Distance(PcOf(t, pid)), t => BytesLeft(c, PcOf(t, pid));
    forall k, t
      ensures Advances(step, fine, stopped, distance, bytes, k, t)
    {
      if fine(t) && !stopped(t) {
        RegistrarAdvances(c, s, t, pid, choices, step, k);
      }
    }
    n := IterateStops(step, fine, stopped, distance, bytes, s, start);
    s' := Iterate(step, s, start, n);
  }

  // Registering again succeeds at any later time, and the first record stays as it was.
  lemma RegisterAgain(c: Codec, actions: seq<Action>, pid: Pid, root: nat, i: Intent, choices: nat -> Choice)
    returns (n: nat)
    requires Sound(c) && ValidIntent(c, i)
    requires
      var s := Run(c, EMPTY, actions);
      && pid !in s.procs
      && (IntentPath(i.intentSha) in s.files ==>
            s.files[IntentPath(i.intentSha)] == File(IntentDoc(i), |c.encode(IntentDoc(i))|))
      && (RegistrationPath(i.cohortSha) in s.files ==> HasRegistration(c, s.files, i))
    ensures
      var s := Run(c, EMPTY, actions);
      var s' := Alone(c, Apply(c, s, Launch(pid, Registrar, i, root)), pid, choices, n);
      && pid in s'.procs && s'.procs[pid].pc == Registered
      && HasRegistration(c, s'.files, i)
      && (RegistrationPath(i.cohortSha) in s.files ==> RegistrationAt(s'.files, i) == RegistrationAt(s.files, i))
  {
    var s := Run(c, EMPTY, actions);
    EmptyInv(c);
    RunKeeps(c, EMPTY, actions);
    var s1 := Apply(c, s, Launch(pid, Registrar, i, root));
    ApplyKeeps(c, s, Launch(pid, Registrar, i, root));
    OnlySteps(c, pid, choices);
    var s';
    n, s' := RegistrarFinishesAlone(c, s1, pid, choices, Only(c, pid, choices), 0);
    assert ProcessOk(c, s', s'.procs[pid]);
    RecordsStable(c, s.files, s'.files, i);
  }
}
