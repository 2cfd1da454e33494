// The ledger as its callers see it: methods over the record files, run without interruption.
// Each method call is one of the runs of the concurrent protocol.
module EvaluationLedger {
  import opened Common
  import opened EvaluationRecords
  import opened EvaluationProtocol
  import opened EvaluationSafety
  import opened EvaluationTheorems

  function Whole(c: Codec, doc: Doc): File {
    File(doc, |c.encode(doc)|)
  }

  // Whether an existing record lets the claim through.
  predicate Admits(c: Codec, files: FileSystem, i: Intent, claim: Claim) {
    var path := ClaimPath(i, claim);
    path in files ==> LoadEvent(c, files, path).Some? && Adopts(i, claim, LoadEvent(c, files, path).value)
  }

  // The record files after a claim: an existing record is never touched.
  function Recorded(c: Codec, files: FileSystem, i: Intent, claim: Claim, time: nat): FileSystem {
    var path := ClaimPath(i, claim);
    if path in files then files else files[path := Whole(c, NewDoc(c, i, claim, time))]
  }

  predicate IsRegistered(c: Codec, files: FileSystem, i: Intent) {
    && LoadEvent(c, files, RegistrationPath(i.cohortSha)).Some?
    && RegistrationMatches(i, LoadEvent(c, files, RegistrationPath(i.cohortSha)).value)
  }

  // The check succeeds exactly when the text of the registration file reads as an event with its
  // own digest that names the cohort, the intent and the model.
  ghost predicate NamesIntent(c: Codec, files: FileSystem, i: Intent, r: Registration) {
    && LoadDoc(c, files, RegistrationPath(i.cohortSha)) == Some(RegistrationDoc(r))
    && r.eventSha == c.hash(RegistrationPayload(r.body))
    && r.body.cohortSha == i.cohortSha && r.body.intentSha == i.intentSha && r.body.modelSha == i.body.artifact.modelSha
  }

  // In every reachable state, with crashes anywhere, the check tells exactly whether the cohort
  // is taken by this intent through a registration that was written far enough to be read; the
  // model needs no separate look, because the intent digest fixes it.
  lemma RegisteredExactly(c: Codec, actions: seq<Action>, i: Intent)
    requires Sound(c) && ValidIntent(c, i)
    ensures
      var files := Run(c, EMPTY, actions).files;
      IsRegistered(c, files, i) <==> Readable(c, files, RegistrationPath(i.cohortSha)) && Registers(files, i)
  {
    var s := Run(c, EMPTY, actions);
    var path := RegistrationPath(i.cohortSha);
    EmptyInv(c);
    RunKeeps(c, EMPTY, actions);
    LoadEventIs(c, s.files, path);
    if path in s.files {
      assert FileOk(c, s.files, path);
      assert RegistrationFits(c, s.files[path].doc.registration.body, i);
    }
  }

  // What a completion of this intent and output must say, given the recorded events.
  function CompletionOf(c: Codec, files: FileSystem, i: Intent, o: Output): Option<Claim> {
    var r, a := LoadEvent(c, files, RegistrationPath(i.cohortSha)), LoadEvent(c, files, AccessPath(i.intentSha));
    if r.Some? && r.value.RegistrationDoc? && a.Some? && a.value.AccessDoc?
    then Some(CompletionClaim(IdentityOf(c, i, r.value.registration.eventSha, a.value.access.eventSha, o), o)) else None
  }

  class LedgerDirectory {
    var files: FileSystem

    constructor ()
      ensures files == map[]
    {
      files := map[];
    }

    // Exclusive creation; an exact retry adopts the bytes that are there.
    method WriteOnce(c: Codec, path: Path, doc: Doc) returns (ok: bool)
      modifies this
      ensures ok <==> path !in old(files) || Contents(c, old(files)[path]) == c.encode(doc)
      ensures files == if path in old(files) then old(files) else old(files)[path := Whole(c, doc)]
    {
      if path in files {
        return Contents(c, files[path]) == c.encode(doc);
      }
      files := files[path := Whole(c, doc)];
      ok := true;
    }

    // The common part of the three ledger methods: look first, create and write otherwise.
    method Record(c: Codec, i: Intent, claim: Claim, time: nat) returns (ok: bool)
      requires !claim.IntentClaim?
      modifies this
      ensures ok <==> Admits(c, old(files), i, claim)
      ensures files == Recorded(c, old(files), i, claim, time)
    {
      var path := ClaimPath(i, claim);
      if path in files {
        var event := LoadEvent(c, files, path);
        return event.Some? && Adopts(i, claim, event.value);
      }
      ok := WriteOnce(c, path, NewDoc(c, i, claim, time));
    }

    method Preregister(c: Codec, i: Intent, time: nat) returns (ok: bool)
      modifies this
      ensures ok <==> Admits(c, old(files), i, RegistrationClaim)
      ensures files == Recorded(c, old(files), i, RegistrationClaim, time)
    {
      ok := Record(c, i, RegistrationClaim, time);
    }

    method AssertRegistered(c: Codec, i: Intent) returns (ok: bool)
      ensures ok <==> IsRegistered(c, files, i)
      ensures ok <==> exists r :: NamesIntent(c, files, i, r)
    {
      var event := LoadEvent(c, files, RegistrationPath(i.cohortSha));
      ok := event.Some? && RegistrationMatches(i, event.value);
      assert ok ==> NamesIntent(c, files, i, event.value.registration);
    }

    method ClaimAccess(c: Codec, i: Intent, time: nat) returns (ok: bool)
      modifies this
      ensures ok <==> IsRegistered(c, old(files), i) && Admits(c, old(files), i, AccessClaim)
      ensures files == if IsRegistered(c, old(files), i) then Recorded(c, old(files), i, AccessClaim,
                                                                       time) else old(files)
    {
      ok := AssertRegistered(c, i);
      if ok {
        ok := Record(c, i, AccessClaim, time);
      }
    }

    method RecordCompletion(c: Codec, i: Intent, o: Output, time: nat) returns (ok: bool)
      modifies this
      ensures
        var claim := CompletionOf(c, old(files), i, o);
        if !IsRegistered(c, old(files), i) || claim.None? then !ok && files == old(files)
        else (ok <==> Admits(c, old(files), i, claim.value)) && files == Recorded(c, old(files), i, claim.value, time)
    {
      ok := AssertRegistered(c, i);
      if !ok {
        return;
      }
      var claim := CompletionOf(c, files, i, o);
      if claim.None? {
        return false;
      }
      ok := Record(c, i, claim.value, time);
    }

    method PreregisterIntent(c: Codec, i: Intent, time: nat) returns (ok: bool)
      modifies this
      ensures
        var written := Recorded(c, old(files), i, IntentClaim, time);
        var same := IntentPath(i.intentSha) in old(files) ==>
                      Contents(c, old(files)[IntentPath(i.intentSha)]) == c.encode(IntentDoc(i));
        && (ok <==> same && Admits(c, written, i, RegistrationClaim))
        && files == if same then Recorded(c, written, i, RegistrationClaim, time) else written
    {
      ok := WriteOnce(c, IntentPath(i.intentSha), IntentDoc(i));
      if ok {
        ok := Preregister(c, i, time);
      }
    }
  }

  // ---------------------------------------------------------------- calls are protocol runs

  // The steps of one claim by a process that nobody disturbs, with the choices from `start` on.
  function RunClaim(c: Codec, files: FileSystem, i: Intent, claim: Claim, at: ClaimPoint, choices: nat -> Choice,
                    start: nat, steps: nat): (FileSystem, Pc)
    decreases steps
  {
    if steps == 0 then (files, Claiming(claim, at))
    else
      var (files', pc') := StepClaim(c, files, i, claim, at, choices(start));
      if pc'.Claiming? && pc'.claim == claim
      then RunClaim(c, files', i, claim, pc'.claimPoint, choices, start + 1, steps - 1) else (files', pc')
  }

  // However the write calls cut the text, it ends up in the file as a whole.
  lemma {:induction false} WritesWhole(c: Codec, files: FileSystem, i: Intent, claim: Claim, doc: Doc, written: nat,
                                       choices: nat -> Choice, start: nat) returns (steps: nat)
    requires written <= |c.encode(doc)|
    ensures RunClaim(c, files, i, claim, Write(doc, written), choices, start, steps)
         == (files[ClaimPath(i, claim) := Whole(c, doc)], AfterClaim(claim))
    decreases |c.encode(doc)| - written
  {
    var path := ClaimPath(i, claim);
    var n := Advance(written, choices(start).bytes, |c.encode(doc)|);
    if n == |c.encode(doc)| {
      steps := 1;
      assert RunClaim(c, files, i, claim, Write(doc, written), choices, start, 1) == (files[path := File(doc, n)], AfterClaim(claim));
    } else {
      var files' := files[path := File(doc, n)];
      var more := WritesWhole(c, files', i, claim, doc, n, choices, start + 1);
      steps := more + 1;
      assert RunClaim(c, files, i, claim, Write(doc, written), choices, start, steps)
          == RunClaim(c, files', i, claim, Write(doc, n), choices, start + 1, more);
      assert files'[path := Whole(c, doc)] == files[path := Whole(c, doc)];
    }
  }

  // A method call does what the protocol does step by step: whatever the sizes of the write calls,
  // the process gets to the same files and the same verdict.
  lemma RecordIsProtocolRun(c: Codec, files: FileSystem, i: Intent, claim: Claim, choices: nat -> Choice)
    returns (steps: nat)
    requires !claim.IntentClaim? && Sound(c)
    ensures RunClaim(c, files, i, claim, Check, choices, 0, steps)
         == (Recorded(c, files, i, claim, choices(0).time),
             if Admits(c, files, i, claim) then AfterClaim(claim) else Failed)
  {
    var path, doc := ClaimPath(i, claim), NewDoc(c, i, claim, choices(0).time);
    if path in files {
      steps := 2;
      assert RunClaim(c, files, i, claim, Check, choices, 0, 2) == RunClaim(c, files, i, claim, Load, choices, 1, 1);
    } else {
      var created := files[path := File(doc, 0)];
      var more := WritesWhole(c, created, i, claim, doc, 0, choices, 2);
      steps := more + 2;
      assert RunClaim(c, files, i, claim, Check, choices, 0, steps)
          == RunClaim(c, files, i, claim, Create(doc), choices, 1, more + 1);
      assert RunClaim(c, files, i, claim, Create(doc), choices, 1, more + 1)
          == RunClaim(c, created, i, claim, Write(doc, 0), choices, 2, more);
      assert created[path := Whole(c, doc)] == files[path := Whole(c, doc)];
    }
  }

  // The first record stands: an exact retry at any later time is admitted and changes nothing.
  lemma RetryKeepsFirst(c: Codec, files: FileSystem, i: Intent, claim: Claim, time: nat, later: nat)
    requires Sound(c) && !claim.IntentClaim? && Admits(c, files, i, claim)
    ensures var after := Recorded(c, files, i, claim, time);
            Admits(c, after, i, claim) && Recorded(c, after, i, claim, later) == after
  {
    var path, doc := ClaimPath(i, claim), NewDoc(c, i, claim, time);
    if path !in files {
      ReadWhole(c, doc);
      assert c.encode(doc)[..|c.encode(doc)|] == c.encode(doc);
    }
  }

  // A different claim on the same path is refused after the first one.
  lemma OtherCompletionRefused(c: Codec, files: FileSystem, i: Intent, first: Claim, second: Claim, time: nat)
    requires Sound(c) && first.CompletionClaim? && second.CompletionClaim? && first.identity != second.identity
    requires Admits(c, files, i, first)
    ensures !Admits(c, Recorded(c, files, i, first, time), i, second)
  {
    var path, doc := ClaimPath(i, first), NewDoc(c, i, first, time);
    if path !in files {
      ReadWhole(c, doc);
      assert c.encode(doc)[..|c.encode(doc)|] == c.encode(doc);
    }
  }
}
