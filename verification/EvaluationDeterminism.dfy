// Recovery when scoring is deterministic: every run of an intent works towards one outcome.
module EvaluationDeterminism {
  import opened Common
  import opened EvaluationRecords
  import opened EvaluationProtocol
  import opened EvaluationSafety
  import opened EvaluationTheorems
  import opened EvaluationProgress

  // The step in which a process of the intent parses the labels and scores the cohort.
  predicate ScoringStep(s: State, a: Action, i: Intent) {
    a.Step? && a.pid in s.procs && s.procs[a.pid].intent == i && s.procs[a.pid].pc.Scoring?
  }

  // Every scoring of the intent along the run returns the same outcome.
  ghost predicate Deterministic(c: Codec, s: State, actions: seq<Action>, i: Intent, o: Output)
    decreases |actions|
  {
    actions != [] ==>
      && (ScoringStep(s, actions[0], i) ==> actions[0].choice.output == o)
      && Deterministic(c, Apply(c, s, actions[0]), actions[1..], i, o)
  }

  // A completion, whole or cut short, that is for this outcome.
  predicate CompletionFor(d: Doc, o: Output) {
    && d.CompletionDoc?
    && d.completion.body.identity.reportSha == o.report.reportSha
    && d.completion.body.identity.decisionSha == o.decision.decisionSha
  }

  // The completion file of the intent, if there is one, and every process of the intent are for
  // this outcome.
  ghost predicate SettledOn(s: State, i: Intent, o: Output) {
    && (CompletionPath(i.intentSha) in s.files ==> CompletionFor(s.files[CompletionPath(i.intentSha)].doc, o))
    && forall p | p in s.procs && s.procs[p].intent == i :: Carries(s.procs[p].pc, o)
  }

  lemma ClaimCarries(c: Codec, files: FileSystem, i: Intent, claim: Claim, at: ClaimPoint, choice: Choice, o: Output)
    requires Carries(Claiming(claim, at), o)
    ensures Carries(StepClaim(c, files, i, claim, at, choice).1, o)
  {
  }

  lemma ReadCarries(c: Codec, files: FileSystem, i: Intent, at: ReadPoint, o: Output)
    requires Carries(Reading(at), o)
    ensures Carries(StepRead(c, files, i, at), o)
  {
  }

  lemma PublishCarries(c: Codec, bundles: map<Target, Bundle>, t: Target, o: Output, expected: Bundle, at: PublishPoint,
                       choice: Choice)
    ensures Carries(StepPublish(c, bundles, t, o, expected, at, choice).1, o)
  {
  }

  lemma StepCarries(c: Codec, s: State, p: Process, choice: Choice, o: Output)
    requires Carries(p.pc, o) && (p.pc.Scoring? ==> choice.output == o)
    ensures Carries(StepPc(c, s.files, s.bundles, p.intent, p.root, p.pc, choice).pc, o)
  {
    match p.pc {
      case Claiming(claim, at) => ClaimCarries(c, s.files, p.intent, claim, at, choice, o);
      case Reading(at) => ReadCarries(c, s.files, p.intent, at, o);
      case Publishing(output, expected, at) =>
        PublishCarries(c, s.bundles, Target(p.root, p.intent.intentSha), output, expected, at, choice);
      case _ =>
    }
  }

  // A completion file appears only when a process of its own intent creates it for the outcome
  // that the process carries.
  lemma CompletionAppears(c: Codec, s: State, p: Process, choice: Choice, i: Intent, o: Output)
    requires Sound(c) && ValidIntent(c, i) && ProcessOk(c, s, p) && (p.intent == i ==> Carries(p.pc, o))
    requires CompletionPath(i.intentSha) !in s.files
    ensures
      var files' := StepPc(c, s.files, s.bundles, p.intent, p.root, p.pc, choice).files;
      CompletionPath(i.intentSha) in files' ==> CompletionFor(files'[CompletionPath(i.intentSha)].doc, o)
  {
    var path := CompletionPath(i.intentSha);
    if p.pc.Claiming? && p.pc.claimPoint.Create? && ClaimPath(p.intent, p.pc.claim) == path {
      assert p.pc.claim.CompletionClaim?;
      IntentDetermined(c, i, p.intent);
      assert ClaimDocOk(c, i, p.pc.claim, p.pc.claimPoint.doc);
    }
  }

  lemma StepSettles(c: Codec, s: State, pid: Pid, choice: Choice, i: Intent, o: Output)
    requires Sound(c) && ValidIntent(c, i) && Inv(c, s) && SettledOn(s, i, o) && pid in s.procs
    requires ScoringStep(s, Step(pid, choice), i) ==> choice.output == o
    ensures SettledOn(Apply(c, s, Step(pid, choice)), i, o)
  {
    var p := s.procs[pid];
    assert ProcessOk(c, s, p);
    if p.intent == i {
      StepCarries(c, s, p, choice, o);
    }
    ApplyKeeps(c, s, Step(pid, choice));
    if CompletionPath(i.intentSha) !in s.files {
      CompletionAppears(c, s, p, choice, i, o);
    }
  }

  lemma LaunchSettles(c: Codec, s: State, a: Action, i: Intent, o: Output)
    requires a.Launch? && SettledOn(s, i, o)
    ensures SettledOn(Apply(c, s, a), i, o)
  {
    var s' := Apply(c, s, a);
    forall p | p in s'.procs && s'.procs[p].intent == i
      ensures Carries(s'.procs[p].pc, o)
    {
      if p != a.pid || a.pid in s.procs {
        assert s'.procs[p] == s.procs[p];
      }
    }
  }

  lemma CrashSettles(c: Codec, s: State, pid: Pid, i: Intent, o: Output)
    requires SettledOn(s, i, o)
    ensures SettledOn(Apply(c, s, Crash(pid)), i, o)
  {
  }

  lemma ActionSettles(c: Codec, s: State, a: Action, i: Intent, o: Output)
    requires Sound(c) && ValidIntent(c, i) && Inv(c, s) && SettledOn(s, i, o)
    requires ScoringStep(s, a, i) ==> a.choice.output == o
    ensures SettledOn(Apply(c, s, a), i, o)
  {
    match a {
      case Step(pid, choice) =>
        if pid in s.procs {
          StepSettles(c, s, pid, choice, i, o);
        }
      case Launch(_, _, _, _) => LaunchSettles(c, s, a, i, o);
      case Crash(pid) => CrashSettles(c, s, pid, i, o);
    }
  }

  lemma {:induction false} RunSettles(c: Codec, s: State, actions: seq<Action>, i: Intent, o: Output)
    requires Sound(c) && ValidIntent(c, i) && Inv(c, s) && SettledOn(s, i, o) && Deterministic(c, s, actions, i, o)
    ensures SettledOn(Run(c, s, actions), i, o)
    decreases |actions|
  {
    if actions != [] {
      ApplyKeeps(c, s, actions[0]);
      ActionSettles(c, s, actions[0], i, o);
      RunSettles(c, Apply(c, s, actions[0]), actions[1..], i, o);
    }
  }

  // With deterministic scoring, every readable completion of the intent is the completion for its
  // one outcome, and every process past scoring carries that outcome.
  lemma OneOutcomeAlong(c: Codec, actions: seq<Action>, i: Intent, o: Output)
    requires Sound(c) && ValidIntent(c, i) && Deterministic(c, EMPTY, actions, i, o)
    ensures
      var s := Run(c, EMPTY, actions);
      && (Readable(c, s.files, CompletionPath(i.intentSha)) ==> HasCompletion(c, s.files, i, o))
      && (forall p | p in s.procs && s.procs[p].intent == i :: Carries(s.procs[p].pc, o))
  {
    var s := Run(c, EMPTY, actions);
    EmptyInv(c);
    RunKeeps(c, EMPTY, actions);
    RunSettles(c, EMPTY, actions, i, o);
    if Readable(c, s.files, CompletionPath(i.intentSha)) {
      CompletionIsFor(c, s.files, i, o);
    }
  }

  lemma CompletionIsFor(c: Codec, files: FileSystem, i: Intent, o: Output)
    requires Sound(c) && ValidIntent(c, i) && FilesOk(c, files) && Readable(c, files, CompletionPath(i.intentSha))
    requires CompletionFor(files[CompletionPath(i.intentSha)].doc, o)
    ensures HasCompletion(c, files, i, o)
  {
    assert FileOk(c, files, CompletionPath(i.intentSha));
    assert FileOk(c, files, AccessPath(i.intentSha));
    assert AccessFits(c, files[AccessPath(i.intentSha)].doc.access.body, i);
    AccessRegistered(c, files, i);
  }

  lemma ReadableAccessIs(c: Codec, files: FileSystem, i: Intent)
    requires Sound(c) && ValidIntent(c, i) && FilesOk(c, files) && Readable(c, files, AccessPath(i.intentSha))
    ensures HasAccess(c, files, i)
  {
    assert FileOk(c, files, AccessPath(i.intentSha));
    assert AccessFits(c, files[AccessPath(i.intentSha)].doc.access.body, i);
  }

  // No record of the intent was left partly written.
  predicate NoPartialRecord(c: Codec, files: FileSystem, i: Intent) {
    && (AccessPath(i.intentSha) in files ==> Readable(c, files, AccessPath(i.intentSha)))
    && (CompletionPath(i.intentSha) in files ==> Readable(c, files, CompletionPath(i.intentSha)))
  }

  // Recovery.  Whatever happened before, with crashes at any step: if scoring is deterministic,
  // the cohort is registered to the intent and no record of it was left partly written, then a
  // new evaluator run finishes.  The one bundle of the outcome is sealed, and the command succeeds
  // exactly when the timestamps are in order and the decision passed.
  lemma RestartConverges(c: Codec, actions: seq<Action>, pid: Pid, root: nat, i: Intent, o: Output,
                         choices: nat -> Choice) returns (n: nat)
    requires Sound(c) && ValidIntent(c, i) && OutputHashed(c, o)
    requires Deterministic(c, EMPTY, actions, i, o) && forall k :: choices(k).output == o
    requires
      var s := Run(c, EMPTY, actions);
      pid !in s.procs && HasRegistration(c, s.files, i) && NoPartialRecord(c, s.files, i)
    ensures
      var s := Run(c, EMPTY, actions);
      var s' := Alone(c, Apply(c, s, Launch(pid, Evaluator, i, root)), pid, choices, n);
      var t := Target(root, i.intentSha);
      && Inv(c, s') && Grows(s.files, s'.files)
      && HasCompletion(c, s'.files, i, o)
      && t in s'.bundles && s'.bundles[t] == ExpectedBundle(c, i, ChainAt(c, s'.files, i, o), o)
      && pid in s'.procs
      && s'.procs[pid].pc == (if Chronological(ChainAt(c, s'.files, i, o)) && Promotable(i, o) then Done(o) else Failed)
  {
    var s := Run(c, EMPTY, actions);
    EmptyInv(c);
    RunKeeps(c, EMPTY, actions);
    OneOutcomeAlong(c, actions, i, o);
    if AccessPath(i.intentSha) in s.files {
      ReadableAccessIs(c, s.files, i);
    }
    n := RestartReaches(c, actions, pid, root, i, o, choices);
  }
}
