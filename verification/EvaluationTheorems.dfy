// What holds in every reachable state and across every run of the evaluation protocol.
module EvaluationTheorems {
  import opened Common
  import opened EvaluationRecords
  import opened EvaluationProtocol
  import opened EvaluationSafety

  lemma EmptyInv(c: Codec)
    ensures Inv(c, EMPTY)
  {
  }

  // Everything that shows that the test cohort was opened for an intent.
  predicate Opened(s: State, i: Intent) {
    || AccessPath(i.intentSha) in s.files
    || CompletionPath(i.intentSha) in s.files
    || (exists t | t in s.bundles :: t.intentSha == i.intentSha)
    || (exists p | p in s.procs :: s.procs[p].intent == i && PastAccess(s.procs[p].pc))
  }

  // The program points at and after parsing the labels.
  predicate PastAccess(pc: Pc) {
    match pc
    case Claiming(claim, _) => claim.CompletionClaim?
    case Scoring => true
    case Reading(AssertFile(goal)) => !goal.ForAccess?
    case Reading(AssertLoad(goal)) => !goal.ForAccess?
    case Reading(_) => true
    case Publishing(_, _, _) => true
    case Done(_) => true
    case _ => false
  }

  // No process parses labels or produces scores before a readable access record of its own
  // intent, on a readable registration of its own intent, is on file.
  lemma LookNeedsAccess(c: Codec, actions: seq<Action>, pid: Pid)
    requires Sound(c)
    requires pid in Run(c, EMPTY, actions).procs && PastAccess(Run(c, EMPTY, actions).procs[pid].pc)
    ensures
      var s := Run(c, EMPTY, actions);
      HasRegistration(c, s.files, s.procs[pid].intent) && HasAccess(c, s.files, s.procs[pid].intent)
  {
    var s := Run(c, EMPTY, actions);
    EmptyInv(c);
    RunKeeps(c, EMPTY, actions);
    assert ProcessOk(c, s, s.procs[pid]);
    PastAccessRegistered(c, s, s.procs[pid]);
  }

  lemma PastAccessRegistered(c: Codec, s: State, p: Process)
    requires Sound(c) && FilesOk(c, s.files) && ProcessOk(c, s, p) && PastAccess(p.pc)
    ensures HasRegistration(c, s.files, p.intent) && HasAccess(c, s.files, p.intent)
  {
    if p.pc.Reading? && (p.pc.readPoint.AssertFile? || p.pc.readPoint.AssertLoad?) {
      AccessRegistered(c, s.files, p.intent);
    }
  }

  // A file at the access path, even one cut short by a crash, has a readable registration.
  lemma AccessRegistered(c: Codec, files: FileSystem, i: Intent)
    requires Sound(c) && FilesOk(c, files) && ValidIntent(c, i) && AccessPath(i.intentSha) in files
    ensures HasRegistration(c, files, i)
  {
    var p := AccessPath(i.intentSha);
    assert FileOk(c, files, p);
    var a := files[p].doc.access.body;
    assert AccessFits(c, a, i);
    assert FileOk(c, files, RegistrationPath(a.cohortSha));
    assert RegistrationFits(c, files[RegistrationPath(a.cohortSha)].doc.registration.body, i);
  }

  lemma OpenedRegistered(c: Codec, s: State, i: Intent)
    requires Sound(c) && Inv(c, s) && ValidIntent(c, i) && Opened(s, i)
    ensures HasRegistration(c, s.files, i)
  {
    if CompletionPath(i.intentSha) in s.files {
      assert FileOk(c, s.files, CompletionPath(i.intentSha));
    }
    forall t | t in s.bundles && t.intentSha == i.intentSha
      ensures AccessPath(i.intentSha) in s.files
    {
      assert BundleOk(c, s.files, t.intentSha, s.bundles[t]);
    }
    forall p | p in s.procs && s.procs[p].intent == i && PastAccess(s.procs[p].pc)
      ensures AccessPath(i.intentSha) in s.files
    {
      assert ProcessOk(c, s, s.procs[p]);
      PastAccessRegistered(c, s, s.procs[p]);
    }
    AccessRegistered(c, s.files, i);
  }

  // The registration file of the cohort, even one cut short by a crash, is for this intent.
  predicate Registers(files: FileSystem, i: Intent) {
    var p := RegistrationPath(i.cohortSha);
    p in files && files[p].doc.RegistrationDoc? && files[p].doc.registration.body.intentSha == i.intentSha
  }

  // Everything that shows that a cohort was taken by an intent: its registration, a process that
  // finished registering it, or anything that shows that it was opened.
  predicate Taken(s: State, i: Intent) {
    || Registers(s.files, i)
    || (exists p | p in s.procs :: s.procs[p].intent == i && s.procs[p].pc.Registered?)
    || Opened(s, i)
  }

  lemma TakenRegisters(c: Codec, s: State, i: Intent)
    requires Sound(c) && Inv(c, s) && ValidIntent(c, i) && Taken(s, i)
    ensures Registers(s.files, i)
  {
    if Opened(s, i) {
      OpenedRegistered(c, s, i);
    }
    forall p | p in s.procs && s.procs[p].intent == i && s.procs[p].pc.Registered?
      ensures Registers(s.files, i)
    {
      assert ProcessOk(c, s, s.procs[p]);
    }
  }

  // At most one intent per cohort ever gets a registration, an access, a completion or a
  // published bundle, or is scored, under every interleaving, with crashes anywhere, counting
  // partly written records too.
  lemma OneIntentPerCohort(c: Codec, actions: seq<Action>, i: Intent, j: Intent)
    requires Sound(c) && ValidIntent(c, i) && ValidIntent(c, j) && i.cohortSha == j.cohortSha
    requires Taken(Run(c, EMPTY, actions), i) && Taken(Run(c, EMPTY, actions), j)
    ensures i == j
  {
    var s := Run(c, EMPTY, actions);
    EmptyInv(c);
    RunKeeps(c, EMPTY, actions);
    TakenRegisters(c, s, i);
    TakenRegisters(c, s, j);
    IntentDetermined(c, i, j);
  }

  // The owner of a cohort never changes later, either.
  lemma CohortOwnerStable(c: Codec, actions: seq<Action>, later: seq<Action>, i: Intent, j: Intent)
    requires Sound(c) && ValidIntent(c, i) && ValidIntent(c, j) && i.cohortSha == j.cohortSha
    requires Taken(Run(c, EMPTY, actions), i) && Taken(Run(c, Run(c, EMPTY, actions), later), j)
    ensures i == j
  {
    var s := Run(c, EMPTY, actions);
    EmptyInv(c);
    RunKeeps(c, EMPTY, actions);
    RunKeeps(c, s, later);
    TakenRegisters(c, s, i);
    TakenRegisters(c, Run(c, s, later), j);
    IntentDetermined(c, i, j);
  }

  // ---------------------------------------------------------------- the chain of records

  // A visible bundle holds exactly the bytes sealed from the three ledger records of its
  // intent and from the very outputs whose digests the completion record carries.
  lemma PublishedIsSealed(c: Codec, actions: seq<Action>, t: Target)
    requires Sound(c) && t in Run(c, EMPTY, actions).bundles
    ensures
      var s := Run(c, EMPTY, actions);
      exists i, o ::
        && Sealed(c, s.files, t.intentSha, s.bundles[t], i, o)
        && Linked(c, i, ChainAt(c, s.files, i, o), o)
        && s.bundles[t].Keys == FileNames()
  {
    var s := Run(c, EMPTY, actions);
    EmptyInv(c);
    RunKeeps(c, EMPTY, actions);
    assert BundleOk(c, s.files, t.intentSha, s.bundles[t]);
    var i, o :| Sealed(c, s.files, t.intentSha, s.bundles[t], i, o);
    SealedKeys(c, s.files, t.intentSha, s.bundles[t], i, o);
    SealedLinked(c, s.files, t.intentSha, s.bundles[t], i, o);
  }

  lemma SealedLinked(c: Codec, files: FileSystem, sha: Digest, b: Bundle, i: Intent, o: Output)
    requires Sealed(c, files, sha, b, i, o)
    ensures Linked(c, i, ChainAt(c, files, i, o), o)
  {
  }

  // A completion record, even a partly written one, follows a readable access and a readable
  // registration of the same intent and cohort, and holds the digests of exactly those events.
  lemma CompletionFollowsAccess(c: Codec, actions: seq<Action>, i: Intent)
    requires Sound(c) && ValidIntent(c, i) && CompletionPath(i.intentSha) in Run(c, EMPTY, actions).files
    ensures
      var files := Run(c, EMPTY, actions).files;
      && HasRegistration(c, files, i) && HasAccess(c, files, i)
      && files[CompletionPath(i.intentSha)].doc.CompletionDoc?
      && var id := files[CompletionPath(i.intentSha)].doc.completion.body.identity;
      && id.cohortSha == i.cohortSha && id.intentSha == i.intentSha
      && id.registrationSha == RegistrationAt(files, i).eventSha
      && id.accessSha == AccessAt(files, i).eventSha
      && id.evaluationSha == c.hash(EvaluationPayload(i.intentSha, id.registrationSha, id.accessSha, id.reportSha,
                                                      id.decisionSha))
  {
    var s := Run(c, EMPTY, actions);
    EmptyInv(c);
    RunKeeps(c, EMPTY, actions);
    assert FileOk(c, s.files, CompletionPath(i.intentSha));
    assert FileOk(c, s.files, AccessPath(i.intentSha));
    assert AccessFits(c, AccessAt(s.files, i).body, i);
    AccessRegistered(c, s.files, i);
  }

  // ---------------------------------------------------------------- nothing is rewritten

  // A readable record reads the same for ever, whatever happens later; so does its timestamp.
  lemma RecordNeverChanges(c: Codec, actions: seq<Action>, later: seq<Action>, p: Path)
    requires Sound(c) && LoadDoc(c, Run(c, EMPTY, actions).files, p).Some?
    ensures LoadDoc(c, Run(c, Run(c, EMPTY, actions), later).files, p) == LoadDoc(c, Run(c, EMPTY, actions).files, p)
  {
    var s := Run(c, EMPTY, actions);
    EmptyInv(c);
    RunKeeps(c, EMPTY, actions);
    RunKeeps(c, s, later);
    var files' := Run(c, s, later).files;
    assert FileOk(c, s.files, p);
    assert FileOk(c, files', p);
    LoadIsReadable(c, s.files, p);
    LoadIsReadable(c, files', p);
  }

  // A bundle directory is complete from the moment it is visible, and never changes.
  lemma BundleNeverChanges(c: Codec, actions: seq<Action>, later: seq<Action>, t: Target)
    requires Sound(c) && t in Run(c, EMPTY, actions).bundles
    ensures
      var s := Run(c, EMPTY, actions);
      var s' := Run(c, s, later);
      t in s'.bundles && s'.bundles[t] == s.bundles[t] && s'.bundles[t].Keys == FileNames()
  {
    var s := Run(c, EMPTY, actions);
    EmptyInv(c);
    RunKeeps(c, EMPTY, actions);
    RunKeeps(c, s, later);
    VisibleIsWhole(c, s.files, s.bundles, t);
  }

  // One intent has one outcome: whatever output roots were used and however often scoring
  // was repeated, every bundle of the intent is the same, byte for byte.
  lemma OneOutcome(c: Codec, actions: seq<Action>, t: Target, t': Target)
    requires Sound(c)
    requires t in Run(c, EMPTY, actions).bundles && t' in Run(c, EMPTY, actions).bundles
    requires t.intentSha == t'.intentSha
    ensures Run(c, EMPTY, actions).bundles[t] == Run(c, EMPTY, actions).bundles[t']
  {
    var s := Run(c, EMPTY, actions);
    EmptyInv(c);
    RunKeeps(c, EMPTY, actions);
    assert BundleOk(c, s.files, t.intentSha, s.bundles[t]);
    assert BundleOk(c, s.files, t'.intentSha, s.bundles[t']);
    var i, o :| Sealed(c, s.files, t.intentSha, s.bundles[t], i, o);
    var i', o' :| Sealed(c, s.files, t'.intentSha, s.bundles[t'], i', o');
    IntentDetermined(c, i, i');
    OutputDetermined(c, s.files, i, o, o');
  }

  // The completion record admits one report and one decision.
  lemma OutputDetermined(c: Codec, files: FileSystem, i: Intent, o: Output, o': Output)
    requires Sound(c) && OutputHashed(c, o) && OutputHashed(c, o')
    requires HasCompletion(c, files, i, o) && HasCompletion(c, files, i, o')
    ensures o == o'
  {
    HashInjective(c, ReportPayload(o.report.body), ReportPayload(o'.report.body));
    HashInjective(c, DecisionPayload(o.decision.body), DecisionPayload(o'.decision.body));
  }

  // Once a completion is on record, a run with another report or decision never finishes.
  lemma SecondOutcomeFails(c: Codec, actions: seq<Action>, later: seq<Action>, pid: Pid, o: Output)
    requires Sound(c) && OutputHashed(c, o)
    requires
      var s := Run(c, Run(c, EMPTY, actions), later);
      && pid in s.procs
      && HasCompletion(c, Run(c, EMPTY, actions).files, s.procs[pid].intent, o)
      && s.procs[pid].pc.Done?
    ensures Run(c, Run(c, EMPTY, actions), later).procs[pid].pc == Done(o)
  {
    var s0 := Run(c, EMPTY, actions);
    var s := Run(c, s0, later);
    EmptyInv(c);
    RunKeeps(c, EMPTY, actions);
    RunKeeps(c, s0, later);
    var p := s.procs[pid];
    assert ProcessOk(c, s, p);
    CompletionStable(c, s0.files, s.files, p.intent, o);
    OutputDetermined(c, s.files, p.intent, o, p.pc.output);
  }

  // ---------------------------------------------------------------- partial records block

  ghost predicate NoWriter(s: State, path: Path) {
    forall p | p in s.procs :: !Writes(s.procs[p], path)
  }

  // A claim step of a process that does not write `path` leaves `path` alone.
  lemma ForeignClaimStep(c: Codec, files: FileSystem, i: Intent, claim: Claim, at: ClaimPoint, choice: Choice,
                         path: Path)
    requires path in files
    requires ClaimPath(i, claim) == path ==> !at.Write?
    ensures
      var (files', pc') := StepClaim(c, files, i, claim, at, choice);
      && path in files' && files'[path] == files[path]
      && (pc'.Claiming? && pc'.claimPoint.Write? ==> ClaimPath(i, pc'.claim) != path)
  {
  }

  // A file whose creator is gone stays as it is: nobody else may write it.
  lemma OrphanStays(c: Codec, s: State, a: Action, path: Path)
    requires path in s.files && NoWriter(s, path)
    ensures
      var s' := Apply(c, s, a);
      path in s'.files && s'.files[path] == s.files[path] && NoWriter(s', path)
  {
    if a.Step? && a.pid in s.procs && s.procs[a.pid].pc.Claiming? {
      var p := s.procs[a.pid];
      assert !Writes(p, path);
      ForeignClaimStep(c, s.files, p.intent, p.pc.claim, p.pc.claimPoint, a.choice, path);
    }
  }

  lemma {:induction false} OrphanStaysForever(c: Codec, s: State, actions: seq<Action>, path: Path)
    requires path in s.files && NoWriter(s, path)
    ensures
      var s' := Run(c, s, actions);
      path in s'.files && s'.files[path] == s.files[path]
    decreases |actions|
  {
    if actions != [] {
      OrphanStays(c, s, actions[0], path);
      OrphanStaysForever(c, Apply(c, s, actions[0]), actions[1..], path);
    }
  }

  // A registration that a crash cut short blocks its cohort for good: no intent of the cohort is
  // ever opened, now or later, and no registrar of it ever succeeds.
  lemma PartialRegistrationBlocks(c: Codec, actions: seq<Action>, later: seq<Action>, i: Intent)
    requires Sound(c) && ValidIntent(c, i)
    requires
      var s := Run(c, EMPTY, actions);
      var path := RegistrationPath(i.cohortSha);
      path in s.files && !Readable(c, s.files, path) && NoWriter(s, path)
    ensures
      var s' := Run(c, Run(c, EMPTY, actions), later);
      && !Opened(s', i)
      && forall p | p in s'.procs && s'.procs[p].intent.cohortSha == i.cohortSha :: !s'.procs[p].pc.Registered?
  {
    var s := Run(c, EMPTY, actions);
    EmptyInv(c);
    RunKeeps(c, EMPTY, actions);
    RunKeeps(c, s, later);
    OrphanStaysForever(c, s, later, RegistrationPath(i.cohortSha));
    var s' := Run(c, s, later);
    forall p | p in s'.procs && s'.procs[p].intent.cohortSha == i.cohortSha
      ensures !s'.procs[p].pc.Registered?
    {
      assert ProcessOk(c, s', s'.procs[p]);
    }
    if Opened(s', i) {
      OpenedRegistered(c, s', i);
      assert false;
    }
  }

  // An access record that a crash cut short likewise ends its intent: it is never scored,
  // completed or published afterwards.
  lemma PartialAccessBlocks(c: Codec, actions: seq<Action>, later: seq<Action>, i: Intent)
    requires Sound(c) && ValidIntent(c, i)
    requires
      var s := Run(c, EMPTY, actions);
      var path := AccessPath(i.intentSha);
      path in s.files && !Readable(c, s.files, path) && NoWriter(s, path)
    ensures
      var s' := Run(c, Run(c, EMPTY, actions), later);
      && CompletionPath(i.intentSha) !in s'.files
      && (forall t | t in s'.bundles :: t.intentSha != i.intentSha)
      && (forall p | p in s'.procs && s'.procs[p].intent == i :: !PastAccess(s'.procs[p].pc))
  {
    var s := Run(c, EMPTY, actions);
    EmptyInv(c);
    RunKeeps(c, EMPTY, actions);
    RunKeeps(c, s, later);
    OrphanStaysForever(c, s, later, AccessPath(i.intentSha));
    var s' := Run(c, s, later);
    assert CompletionPath(i.intentSha) in s'.files ==> FileOk(c, s'.files, CompletionPath(i.intentSha));
    forall t | t in s'.bundles
      ensures t.intentSha != i.intentSha
    {
      assert BundleOk(c, s'.files, t.intentSha, s'.bundles[t]);
    }
    forall p | p in s'.procs && s'.procs[p].intent == i
      ensures !PastAccess(s'.procs[p].pc)
    {
      assert ProcessOk(c, s', s'.procs[p]);
      if PastAccess(s'.procs[p].pc) {
        PastAccessRegistered(c, s', s'.procs[p]);
        assert false;
      }
    }
  }

  // The program points after the completion is on record.
  predicate PastCompletion(pc: Pc) {
    match pc
    case Reading(AssertFile(goal)) => goal.ForEvidence?
    case Reading(AssertLoad(goal)) => goal.ForEvidence?
    case Reading(NeedAccess(_)) => false
    case Reading(ReadRegistration(_)) => false
    case Reading(ReadAccess(_, _)) => false
    case Reading(_) => true
    case Publishing(_, _, _) => true
    case Done(_) => true
    case _ => false
  }

  lemma PastCompletionHasIt(c: Codec, s: State, p: Process) returns (o: Output)
    requires ProcessOk(c, s, p) && PastCompletion(p.pc)
    ensures HasCompletion(c, s.files, p.intent, o)
  {
    if p.pc.Reading? {
      var at := p.pc.readPoint;
      o := if at.AssertFile? || at.AssertLoad? then at.goal.output else at.output;
    } else {
      o := p.pc.output;
    }
  }

  lemma PublishedHasCompletion(c: Codec, s: State, t: Target, i: Intent)
    requires Sound(c) && Inv(c, s) && ValidIntent(c, i) && t in s.bundles && t.intentSha == i.intentSha
    ensures Readable(c, s.files, CompletionPath(i.intentSha))
  {
    assert BundleOk(c, s.files, t.intentSha, s.bundles[t]);
  }

  // A completion that a crash cut short ends its intent as well: no run of it gets past the
  // completion, and nothing is published for it.
  lemma PartialCompletionBlocks(c: Codec, actions: seq<Action>, later: seq<Action>, i: Intent)
    requires Sound(c) && ValidIntent(c, i)
    requires
      var s := Run(c, EMPTY, actions);
      var path := CompletionPath(i.intentSha);
      path in s.files && !Readable(c, s.files, path) && NoWriter(s, path)
    ensures
      var s' := Run(c, Run(c, EMPTY, actions), later);
      && (forall o :: !HasCompletion(c, s'.files, i, o))
      && (forall t | t in s'.bundles :: t.intentSha != i.intentSha)
      && (forall p | p in s'.procs && s'.procs[p].intent == i :: !PastCompletion(s'.procs[p].pc))
  {
    var s := Run(c, EMPTY, actions);
    EmptyInv(c);
    RunKeeps(c, EMPTY, actions);
    RunKeeps(c, s, later);
    OrphanStaysForever(c, s, later, CompletionPath(i.intentSha));
    var s' := Run(c, s, later);
    assert !Readable(c, s'.files, CompletionPath(i.intentSha));
    forall t | t in s'.bundles
      ensures t.intentSha != i.intentSha
    {
      if t.intentSha == i.intentSha {
        PublishedHasCompletion(c, s', t, i);
      }
    }
    forall p | p in s'.procs && s'.procs[p].intent == i
      ensures !PastCompletion(s'.procs[p].pc)
    {
      assert ProcessOk(c, s', s'.procs[p]);
      if PastCompletion(s'.procs[p].pc) {
        var o := PastCompletionHasIt(c, s', s'.procs[p]);
      }
    }
  }
}
