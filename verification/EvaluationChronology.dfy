// The timestamps of the ledger, under a clock that never runs backwards.
module EvaluationChronology {
  import opened Common
  import opened EvaluationRecords
  import opened EvaluationProtocol
  import opened EvaluationSafety
  import opened EvaluationTheorems

  // Every reading of the clock is at least as late as every earlier one.
  predicate MonotoneClock(c: Codec, s: State, actions: seq<Action>)
    decreases |actions|
  {
    actions == [] ||
    ((actions[0].Step? ==> actions[0].choice.time >= s.now) && MonotoneClock(c, Apply(c, s, actions[0]), actions[1..]))
  }

  function TimeOf(d: Doc): nat {
    match d
    case RegistrationDoc(e) => e.body.registeredAt
    case AccessDoc(e) => e.body.accessedAt
    case CompletionDoc(e) => e.body.completedAt
    case _ => 0
  }

  // An event is no younger than now and no older than the event it follows.
  predicate Dated(files: FileSystem, now: nat, d: Doc) {
    && TimeOf(d) <= now
    && (d.AccessDoc? ==>
          var p := RegistrationPath(d.access.body.cohortSha);
          p in files && TimeOf(files[p].doc) <= TimeOf(d))
    && (d.CompletionDoc? ==>
          var p := AccessPath(d.completion.body.identity.intentSha);
          p in files && TimeOf(files[p].doc) <= TimeOf(d))
  }

  predicate PendingDated(files: FileSystem, now: nat, pc: Pc) {
    match pc
    case Claiming(_, Create(d)) => Dated(files, now, d)
    case Claiming(_, Write(d, _)) => Dated(files, now, d)
    case Claiming(_, Compare(d)) => Dated(files, now, d)
    case _ => true
  }

  ghost predicate TimesOk(s: State) {
    && (forall p | p in s.files :: Dated(s.files, s.now, s.files[p].doc))
    && (forall p | p in s.procs :: PendingDated(s.files, s.now, s.procs[p].pc))
  }

  lemma DatedStable(files: FileSystem, files': FileSystem, now: nat, now': nat, d: Doc)
    requires Grows(files, files') && now <= now' && Dated(files, now, d)
    ensures Dated(files', now', d)
  {
  }

  lemma NewDocDated(c: Codec, files: FileSystem, i: Intent, claim: Claim, now: nat, time: nat)
    requires ClaimOk(c, files, i, claim) && time >= now
    requires forall p | p in files :: Dated(files, now, files[p].doc)
    ensures Dated(files, time, NewDoc(c, i, claim, time))
  {
    if claim.AccessClaim? {
      assert Dated(files, now, files[RegistrationPath(i.cohortSha)].doc);
    }
    if claim.CompletionClaim? {
      assert Dated(files, now, files[AccessPath(i.intentSha)].doc);
    }
  }

  // A step's own file and pending event stay dated.
  lemma ClaimStepDated(c: Codec, files: FileSystem, i: Intent, claim: Claim, at: ClaimPoint, now: nat, choice: Choice)
    requires ClaimReady(c, files, i, claim, at) && choice.time >= now
    requires forall p | p in files :: Dated(files, now, files[p].doc)
    requires PendingDated(files, now, Claiming(claim, at))
    ensures
      var (files', pc') := StepClaim(c, files, i, claim, at, choice);
      && Grows(files, files')
      && (forall p | p in files' :: Dated(files', choice.time, files'[p].doc))
      && PendingDated(files', choice.time, pc')
  {
    var (files', pc') := StepClaim(c, files, i, claim, at, choice);
    ClaimStepOk(c, files, map[], i, Target(0, i.intentSha), claim, at, choice);
    var path := ClaimPath(i, claim);
    forall p | p in files'
      ensures Dated(files', choice.time, files'[p].doc)
    {
      if p in files {
        assert files'[p].doc == files[p].doc;
        DatedStable(files, files', now, choice.time, files[p].doc);
      } else {
        assert p == path && at.Create? && files'[p].doc == at.doc;
        DatedStable(files, files', now, choice.time, at.doc);
      }
    }
    match at {
      case Check => NewDocDated(c, files, i, claim, now, choice.time);
      case Create(d) => DatedStable(files, files', now, choice.time, d);
      case Write(d, _) => DatedStable(files, files', now, choice.time, d);
      case _ =>
    }
  }

  lemma PendingStable(files: FileSystem, files': FileSystem, now: nat, now': nat, pc: Pc)
    requires Grows(files, files') && now <= now' && PendingDated(files, now, pc)
    ensures PendingDated(files', now', pc)
  {
  }

  lemma OthersDated(c: Codec, s: State, s': State, pid: Pid)
    requires TimesOk(s) && Grows(s.files, s'.files) && s.now <= s'.now
    requires forall q | q in s'.procs && q != pid :: q in s.procs && s'.procs[q] == s.procs[q]
    ensures forall q | q in s'.procs && q != pid :: PendingDated(s'.files, s'.now, s'.procs[q].pc)
  {
    forall q | q in s'.procs && q != pid
      ensures PendingDated(s'.files, s'.now, s'.procs[q].pc)
    {
      PendingStable(s.files, s'.files, s.now, s'.now, s.procs[q].pc);
    }
  }

  // What the step itself writes and leaves pending.
  lemma OwnStepDated(c: Codec, s: State, p: Process, choice: Choice)
    requires Sound(c) && Inv(c, s) && ProcessOk(c, s, p) && choice.time >= s.now && PendingDated(s.files, s.now, p.pc)
    requires forall q | q in s.files :: Dated(s.files, s.now, s.files[q].doc)
    ensures
      var e := StepPc(c, s.files, s.bundles, p.intent, p.root, p.pc, choice);
      && Grows(s.files, e.files)
      && PendingDated(e.files, choice.time, e.pc)
      && (forall q | q in e.files :: Dated(e.files, choice.time, e.files[q].doc))
  {
    if p.pc.Claiming? {
      ClaimStepDated(c, s.files, p.intent, p.pc.claim, p.pc.claimPoint, s.now, choice);
    } else {
      QuietStepDated(c, s.files, s.bundles, p, s.now, choice);
    }
  }

  lemma StepDated(c: Codec, s: State, pid: Pid, choice: Choice)
    requires Sound(c) && Inv(c, s) && TimesOk(s) && pid in s.procs && choice.time >= s.now
    ensures TimesOk(Apply(c, s, Step(pid, choice)))
  {
    assert ProcessOk(c, s, s.procs[pid]) && PendingDated(s.files, s.now, s.procs[pid].pc);
    OwnStepDated(c, s, s.procs[pid], choice);
    OthersDated(c, s, Apply(c, s, Step(pid, choice)), pid);
  }

  // Other steps write no file and leave no event pending.
  lemma QuietStepDated(c: Codec, files: FileSystem, bundles: map<Target, Bundle>, p: Process, now: nat, choice: Choice)
    requires !p.pc.Claiming? && choice.time >= now
    requires forall q | q in files :: Dated(files, now, files[q].doc)
    ensures
      var e := StepPc(c, files, bundles, p.intent, p.root, p.pc, choice);
      && e.files == files
      && PendingDated(files, choice.time, e.pc)
      && (forall q | q in files :: Dated(files, choice.time, files[q].doc))
  {
    forall q | q in files
      ensures Dated(files, choice.time, files[q].doc)
    {
      assert Dated(files, now, files[q].doc);
    }
  }

  lemma ActionDated(c: Codec, s: State, a: Action)
    requires Sound(c) && Inv(c, s) && TimesOk(s) && (a.Step? ==> a.choice.time >= s.now)
    ensures TimesOk(Apply(c, s, a))
  {
    if a.Step? && a.pid in s.procs {
      StepDated(c, s, a.pid, a.choice);
    }
  }

  lemma {:induction false} RunDated(c: Codec, s: State, actions: seq<Action>)
    requires Sound(c) && Inv(c, s) && TimesOk(s) && MonotoneClock(c, s, actions)
    ensures TimesOk(Run(c, s, actions))
    decreases |actions|
  {
    if actions != [] {
      ApplyKeeps(c, s, actions[0]);
      ActionDated(c, s, actions[0]);
      RunDated(c, Apply(c, s, actions[0]), actions[1..]);
    }
  }

  lemma ChainDated(c: Codec, s: State, i: Intent, o: Output)
    requires TimesOk(s) && HasCompletion(c, s.files, i, o)
    ensures Chronological(ChainAt(c, s.files, i, o))
  {
    assert Dated(s.files, s.now, s.files[AccessPath(i.intentSha)].doc);
    assert Dated(s.files, s.now, s.files[CompletionPath(i.intentSha)].doc);
  }

  // Under a monotone clock, every sealed bundle is in chronological order, so it verifies
  // exactly when the decision in it passed for its intent and report.
  lemma PublishedVerifies(c: Codec, actions: seq<Action>, t: Target)
    requires Sound(c) && MonotoneClock(c, EMPTY, actions) && t in Run(c, EMPTY, actions).bundles
    ensures
      var s := Run(c, EMPTY, actions);
      exists i, o ::
        && Sealed(c, s.files, t.intentSha, s.bundles[t], i, o)
        && Chronological(ChainAt(c, s.files, i, o))
        && (VerifyBundle(c, s.bundles[t]) <==> Promotable(i, o))
  {
    var s := Run(c, EMPTY, actions);
    EmptyInv(c);
    RunKeeps(c, EMPTY, actions);
    RunDated(c, EMPTY, actions);
    assert BundleOk(c, s.files, t.intentSha, s.bundles[t]);
    var i, o :| Sealed(c, s.files, t.intentSha, s.bundles[t], i, o);
    ChainDated(c, s, i, o);
    SealedLinked(c, s.files, t.intentSha, s.bundles[t], i, o);
    SealedVerifies(c, i, ChainAt(c, s.files, i, o), o);
  }
}
