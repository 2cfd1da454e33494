// Applying schema migrations in file order, with any number of runs at once and failures
// between any two steps.  The SQL of a file and its record share one transaction.
module Migrations {
  import opened Common

  datatype File = File(name: nat)

  type Schema = nat

  // What the SQL of a file does to a schema; None when the database refuses it.
  datatype Engine = Engine(apply: (File, Schema) -> Option<Schema>)

  // The committed schema after a sequence of files.
  function Fold(e: Engine, start: Schema, files: seq<File>): Option<Schema> {
    if files == [] then Some(start)
    else
      match Fold(e, start, files[..|files| - 1])
      case None => None
      case Some(s) => e.apply(files[|files| - 1], s)
  }

  // ---------------------------------------------------------------- concurrent runs

  // `Executed` has run the SQL of its first pending file inside an open transaction, whose view
  // nobody else sees; `Inserted` has also written the record and holds its primary key.
  datatype Pc =
    | Start
    | Ready(pending: seq<File>)
    | Executed(pending: seq<File>, view: Schema)
    | Inserted(pending: seq<File>, view: Schema)
    | Finished
    | Failed

  // `log` is the order in which transactions committed.
  datatype Database = Database(schema: Schema, recorded: set<File>, log: seq<File>)

  datatype State = State(db: Database, runs: seq<Pc>)

  // Proceed, or fail: an SQL error, a lost connection or a crash.  The open transaction is then
  // rolled back, which leaves the committed database alone.
  datatype Choice = Proceed | Break

  // sorted(files) without the recorded ones.
  function Pending(files: seq<File>, recorded: set<File>): seq<File> {
    if files == [] then []
    else
      var rest := Pending(files[1..], recorded);
      if files[0] in recorded then rest else [files[0]] + rest
  }

  predicate Holds(pc: Pc, file: File) {
    pc.Inserted? && pc.pending != [] && pc.pending[0] == file
  }

  predicate Locked(runs: seq<Pc>, file: File) {
    exists k :: 0 <= k < |runs| && Holds(runs[k], file)
  }

  function StepReady(e: Engine, pending: seq<File>, db: Database): Pc {
    if pending == [] then Finished
    else
      match e.apply(pending[0], db.schema)
      case None => Failed
      case Some(view) => Executed(pending, view)
  }

  // The primary key makes the insert fail when the file is recorded, and wait while another open
  // transaction has inserted it.
  function StepExecuted(pc: Pc, s: State): Pc
    requires pc.Executed? && pc.pending != []
  {
    if pc.pending[0] in s.db.recorded then Failed
    else if Locked(s.runs, pc.pending[0]) then pc
    else Inserted(pc.pending, pc.view)
  }

  function Commit(pc: Pc, db: Database): Database
    requires pc.Inserted? && pc.pending != []
  {
    Database(pc.view, db.recorded + {pc.pending[0]}, db.log + [pc.pending[0]])
  }

  function StepPc(e: Engine, files: seq<File>, pc: Pc, s: State, choice: Choice): (Pc, Database) {
    if pc.Finished? || pc.Failed? then (pc, s.db)
    else if choice.Break? then (Failed, s.db)
    else
      match pc
      case Start => (Ready(Pending(files, s.db.recorded)), s.db)
      case Ready(pending) => (StepReady(e, pending, s.db), s.db)
      case Executed(pending, _) => (if pending == [] then pc else StepExecuted(pc, s), s.db)
      case Inserted(pending, _) => if pending == [] then (pc, s.db) else (Ready(pending[1..]), Commit(pc, s.db))
      case _ => (pc, s.db)
  }

  function Step(e: Engine, files: seq<File>, s: State, who: nat, choice: Choice): State {
    if who >= |s.runs| then s
    else
      var (pc, db) := StepPc(e, files, s.runs[who], s, choice);
      State(db, s.runs[who := pc])
  }

  datatype Action = Action(who: nat, choice: Choice)

  function Execute(e: Engine, files: seq<File>, s: State, actions: seq<Action>): State
    decreases |actions|
  {
    if actions == [] then s else Execute(e, files, Step(e, files, s, actions[0].who, actions[0].choice), actions[1..])
  }

  // ---------------------------------------------------------------- the invariant

  // The committed database: a prefix of the files, applied in order, one transaction each.
  ghost predicate DatabaseOk(e: Engine, start: Schema, files: seq<File>, db: Database) {
    && db.log <= files
    && db.recorded == SetOf(db.log)
    && Fold(e, start, db.log) == Some(db.schema)
  }

  // What is pending for a run begins at or before the first file that is not recorded.
  predicate Suffix(files: seq<File>, pending: seq<File>, log: seq<File>) {
    && |pending| <= |files| && pending == files[|files| - |pending|..]
    && |files| - |pending| <= |log|
  }

  predicate AtFrontier(files: seq<File>, pending: seq<File>, log: seq<File>) {
    |files| - |pending| == |log|
  }

  ghost predicate RunOk(e: Engine, files: seq<File>, pc: Pc, db: Database) {
    match pc
    case Start => true
    case Ready(pending) => Suffix(files, pending, db.log)
    case Executed(pending, view) =>
      && pending != [] && Suffix(files, pending, db.log)
      && (AtFrontier(files, pending, db.log) ==> e.apply(pending[0], db.schema) == Some(view))
    case Inserted(pending, view) =>
      && pending != [] && Suffix(files, pending, db.log)
      && AtFrontier(files, pending, db.log) && e.apply(pending[0], db.schema) == Some(view)
    case Finished => db.log == files
    case Failed => true
  }

  ghost predicate OneHolder(runs: seq<Pc>) {
    forall j, k | 0 <= j < |runs| && 0 <= k < |runs| && runs[j].Inserted? && runs[k].Inserted? :: j == k
  }

  ghost predicate Inv(e: Engine, start: Schema, files: seq<File>, s: State) {
    && Distinct(files)
    && DatabaseOk(e, start, files, s.db)
    && (forall k | 0 <= k < |s.runs| :: RunOk(e, files, s.runs[k], s.db))
    && OneHolder(s.runs)
  }

  lemma {:induction false} PendingIsSuffix(files: seq<File>, n: nat)
    requires Distinct(files) && n <= |files|
    ensures Pending(files, SetOf(files[..n])) == files[n..]
  {
    PendingFrom(files, SetOf(files[..n]), 0, n);
    assert files[0..] == files;
  }

  lemma {:induction false} PendingFrom(files: seq<File>, recorded: set<File>, k: nat, n: nat)
    requires Distinct(files) && k <= n <= |files| && recorded == SetOf(files[..n])
    ensures Pending(files[k..], recorded) == files[n..]
    decreases |files| - k
  {
    if k < n {
      PendingFrom(files, recorded, k + 1, n);
      assert files[k..][1..] == files[k + 1..] && files[k] == files[..n][k];
    } else {
      NothingRecorded(files, recorded, n);
    }
  }

  lemma {:induction false} NothingRecorded(files: seq<File>, recorded: set<File>, k: nat)
    requires k <= |files| && forall j | k <= j < |files| :: files[j] !in recorded
    ensures Pending(files[k..], recorded) == files[k..]
    decreases |files| - k
  {
    if k < |files| {
      NothingRecorded(files, recorded, k + 1);
      assert files[k..][1..] == files[k + 1..];
      assert files[k..] == [files[k]] + files[k + 1..];
    }
  }

  lemma CommitKeepsDatabase(e: Engine, start: Schema, files: seq<File>, pc: Pc, db: Database)
    requires DatabaseOk(e, start, files, db) && RunOk(e, files, pc, db) && pc.Inserted?
    ensures DatabaseOk(e, start, files, Commit(pc, db))
    ensures RunOk(e, files, Ready(pc.pending[1..]), Commit(pc, db))
  {
    var file, db' := pc.pending[0], Commit(pc, db);
    assert file == files[|db.log|];
    assert db'.log == files[..|db.log| + 1];
    assert db'.log[..|db'.log| - 1] == db.log;
    assert SetOf(db'.log) == SetOf(db.log) + {file};
    assert pc.pending[1..] == files[|files| - |pc.pending[1..]|..];
  }

  lemma OthersKeep(e: Engine, files: seq<File>, pc: Pc, committing: Pc, db: Database)
    requires RunOk(e, files, pc, db) && RunOk(e, files, committing, db) && committing.Inserted? && !pc.Inserted?
    ensures RunOk(e, files, pc, Commit(committing, db))
  {
  }

  lemma StartIsReady(e: Engine, start: Schema, files: seq<File>, db: Database)
    requires Distinct(files) && DatabaseOk(e, start, files, db)
    ensures RunOk(e, files, Ready(Pending(files, db.recorded)), db)
  {
    assert db.log == files[..|db.log|];
    PendingIsSuffix(files, |db.log|);
  }

  lemma ReadyKeeps(e: Engine, start: Schema, files: seq<File>, pending: seq<File>, db: Database)
    requires DatabaseOk(e, start, files, db) && Suffix(files, pending, db.log)
    ensures RunOk(e, files, StepReady(e, pending, db), db)
  {
    if pending == [] {
      assert db.log == files[..|db.log|];
    }
  }

  // Only at the frontier can a record be new, and whoever holds a record is at the frontier.
  lemma InsertKeeps(e: Engine, start: Schema, files: seq<File>, s: State, who: nat)
    requires Inv(e, start, files, s) && who < |s.runs| && s.runs[who].Executed?
    ensures var pc := StepExecuted(s.runs[who], s);
            RunOk(e, files, pc, s.db) && (pc.Inserted? ==> forall k | 0 <= k < |s.runs| :: !s.runs[k].Inserted?)
  {
    var pc := s.runs[who];
    var k := |files| - |pc.pending|;
    assert pc.pending[0] == files[k];
    if k < |s.db.log| {
      assert files[k] == s.db.log[k];
    }
    forall n | 0 <= n < |s.runs| && s.runs[n].Inserted?
      ensures AtFrontier(files, pc.pending, s.db.log) ==> Holds(s.runs[n], pc.pending[0])
    {
      assert RunOk(e, files, s.runs[n], s.db);
      assert s.runs[n].pending[0] == files[|files| - |s.runs[n].pending|];
    }
  }

  ghost predicate GrowsLog(before: Database, after: Database) {
    before.log <= after.log
  }

  lemma StepPcKeeps(e: Engine, start: Schema, files: seq<File>, s: State, who: nat, choice: Choice)
    returns (pc: Pc, db: Database)
    requires Inv(e, start, files, s) && who < |s.runs|
    ensures (pc, db) == StepPc(e, files, s.runs[who], s, choice)
    ensures DatabaseOk(e, start, files, db) && RunOk(e, files, pc, db) && GrowsLog(s.db, db)
    ensures db == s.db || (s.runs[who].Inserted? && db == Commit(s.runs[who], s.db))
    ensures pc.Inserted? ==> forall k | 0 <= k < |s.runs| && k != who :: !s.runs[k].Inserted?
  {
    var step := StepPc(e, files, s.runs[who], s, choice);
    pc, db := step.0, step.1;
    assert RunOk(e, files, s.runs[who], s.db);
    if choice.Proceed? {
      match s.runs[who]
      case Start => StartIsReady(e, start, files, s.db);
      case Ready(pending) => ReadyKeeps(e, start, files, pending, s.db);
      case Executed(_, _) => InsertKeeps(e, start, files, s, who);
      case Inserted(_, _) => CommitKeepsDatabase(e, start, files, s.runs[who], s.db);
      case _ =>
    }
  }

  lemma RunsKeep(e: Engine, start: Schema, files: seq<File>, s: State, who: nat, pc: Pc, db: Database, runs: seq<Pc>)
    requires Inv(e, start, files, s) && who < |s.runs| && RunOk(e, files, pc, db) && runs == s.runs[who := pc]
    requires db == s.db || (s.runs[who].Inserted? && db == Commit(s.runs[who], s.db))
    ensures forall k | 0 <= k < |runs| :: RunOk(e, files, runs[k], db)
  {
    forall k | 0 <= k < |runs|
      ensures RunOk(e, files, runs[k], db)
    {
      if k != who && db != s.db {
        assert !s.runs[k].Inserted?;
        OthersKeep(e, files, s.runs[k], s.runs[who], s.db);
      }
    }
  }

  lemma StepKeeps(e: Engine, start: Schema, files: seq<File>, s: State, who: nat, choice: Choice) returns (s': State)
    requires Inv(e, start, files, s)
    ensures s' == Step(e, files, s, who, choice)
    ensures Inv(e, start, files, s') && GrowsLog(s.db, s'.db)
  {
    s' := s;
    if who < |s.runs| {
      var pc, db := StepPcKeeps(e, start, files, s, who, choice);
      s' := State(db, s.runs[who := pc]);
      RunsKeep(e, start, files, s, who, pc, db, s'.runs);
    }
  }

  ghost predicate Initial(start: Schema, s: State) {
    s.db == Database(start, {}, []) && forall k | 0 <= k < |s.runs| :: s.runs[k] == Start
  }

  lemma InitialInv(e: Engine, start: Schema, files: seq<File>, s: State)
    requires Distinct(files) && Initial(start, s)
    ensures Inv(e, start, files, s)
  {
  }

  lemma {:induction false} ExecuteKeeps(e: Engine, start: Schema, files: seq<File>, s: State, actions: seq<Action>)
    requires Inv(e, start, files, s)
    ensures Inv(e, start, files, Execute(e, files, s, actions)) && GrowsLog(s.db, Execute(e, files, s, actions).db)
    decreases |actions|
  {
    if actions != [] {
      var s' := StepKeeps(e, start, files, s, actions[0].who, actions[0].choice);
      ExecuteKeeps(e, start, files, s', actions[1..]);
    }
  }

  // ---------------------------------------------------------------- what the runs promise

  // At every moment of any interleaving the recorded migrations are a prefix of the files, the
  // committed schema is that prefix applied in order, and no file was committed twice.
  lemma RecordedIsPrefix(e: Engine, start: Schema, files: seq<File>, s: State, actions: seq<Action>)
    requires Distinct(files) && Initial(start, s)
    ensures var db := Execute(e, files, s, actions).db;
            && db.log <= files && Distinct(db.log)
            && db.recorded == SetOf(files[..|db.log|])
            && Fold(e, start, files[..|db.log|]) == Some(db.schema)
  {
    InitialInv(e, start, files, s);
    ExecuteKeeps(e, start, files, s, actions);
    var db := Execute(e, files, s, actions).db;
    assert db.log == files[..|db.log|];
  }

  // A run that finishes leaves every file applied, whatever the other runs did.
  lemma FinishedMeansAll(e: Engine, start: Schema, files: seq<File>, s: State, actions: seq<Action>, k: nat)
    requires Distinct(files) && Initial(start, s) && k < |Execute(e, files, s, actions).runs|
    requires Execute(e, files, s, actions).runs[k] == Finished
    ensures Fold(e, start, files) == Some(Execute(e, files, s, actions).db.schema)
  {
    InitialInv(e, start, files, s);
    ExecuteKeeps(e, start, files, s, actions);
    assert RunOk(e, files, Finished, Execute(e, files, s, actions).db);
  }

  // ---------------------------------------------------------------- starting again

  // The moves of one run that nothing disturbs: read what is pending, then three steps a file.
  function Alone(who: nat, steps: nat): seq<Action> {
    if steps == 0 then [] else [Action(who, Proceed)] + Alone(who, steps - 1)
  }

  ghost predicate NobodyHolds(s: State) {
    forall k | 0 <= k < |s.runs| :: !s.runs[k].Inserted?
  }

  ghost predicate Applies(e: Engine, start: Schema, files: seq<File>) {
    forall n | 0 <= n <= |files| :: Fold(e, start, files[..n]).Some?
  }

  lemma NextApplies(e: Engine, start: Schema, files: seq<File>, db: Database)
    requires Applies(e, start, files) && DatabaseOk(e, start, files, db) && |db.log| < |files|
    ensures e.apply(files[|db.log|], db.schema).Some?
  {
    var n := |db.log| + 1;
    assert files[..n][..n - 1] == files[..n - 1] == db.log;
    assert Fold(e, start, files[..n]).Some?;
  }

  lemma ThreeSteps(e: Engine, files: seq<File>, s: State, who: nat)
    ensures Execute(e, files, s, Alone(who, 3))
         == Step(e, files, Step(e, files, Step(e, files, s, who, Proceed), who, Proceed), who, Proceed)
  {
    assert Alone(who, 3)[1..] == Alone(who, 2) && Alone(who, 2)[1..] == Alone(who, 1) &&
           Alone(who, 1)[1..] == Alone(who, 0);
    var s1 := Step(e, files, s, who, Proceed);
    var s2 := Step(e, files, s1, who, Proceed);
    assert Execute(e, files, s2, Alone(who, 1)) == Step(e, files, s2, who, Proceed);
    assert Execute(e, files, s1, Alone(who, 2)) == Execute(e, files, s2, Alone(who, 1));
  }

  // The frontier file of a run that nobody competes with.
  ghost predicate Undisturbed(e: Engine, start: Schema, files: seq<File>, s: State, who: nat) {
    && Inv(e, start, files, s) && Applies(e, start, files) && NobodyHolds(s) && who < |s.runs|
    && s.runs[who].Ready? && AtFrontier(files, s.runs[who].pending, s.db.log)
  }

  lemma ExecutesNext(e: Engine, start: Schema, files: seq<File>, s: State, who: nat) returns (view: Schema)
    requires Undisturbed(e, start, files, s, who) && s.runs[who].pending != []
    ensures Step(e, files, s, who, Proceed) == s.(runs := s.runs[who := Executed(s.runs[who].pending, view)])
  {
    assert RunOk(e, files, s.runs[who], s.db);
    assert s.runs[who].pending[0] == files[|s.db.log|];
    NextApplies(e, start, files, s.db);
    view := e.apply(s.runs[who].pending[0], s.db.schema).value;
  }

  lemma InsertsNext(e: Engine, start: Schema, files: seq<File>, s: State, who: nat)
    requires Inv(e, start, files, s) && NobodyHolds(s) && who < |s.runs|
    requires s.runs[who].Executed? && AtFrontier(files, s.runs[who].pending, s.db.log)
    ensures s.runs[who].pending != []
    ensures Step(e, files, s, who, Proceed) == s.(runs := s.runs[who := Inserted(s.runs[who].pending,
                                                                                 s.runs[who].view)])
  {
    var pc := s.runs[who];
    assert RunOk(e, files, pc, s.db);
    assert pc.pending[0] == files[|s.db.log|];
    assert s.db.log == files[..|s.db.log|];
    assert pc.pending[0] !in s.db.recorded;
    assert !Locked(s.runs, pc.pending[0]);
  }

  lemma OneFile(e: Engine, start: Schema, files: seq<File>, s: State, who: nat) returns (s': State)
    requires Undisturbed(e, start, files, s, who) && s.runs[who].pending != []
    ensures s' == Execute(e, files, s, Alone(who, 3))
    ensures Undisturbed(e, start, files, s', who) && s'.runs[who] == Ready(s.runs[who].pending[1..])
  {
    var view := ExecutesNext(e, start, files, s, who);
    var s1 := StepKeeps(e, start, files, s, who, Proceed);
    InsertsNext(e, start, files, s1, who);
    var s2 := StepKeeps(e, start, files, s1, who, Proceed);
    s' := StepKeeps(e, start, files, s2, who, Proceed);
    ThreeSteps(e, files, s, who);
  }

  lemma {:induction false} ExecuteAppend(e: Engine, files: seq<File>, s: State, a: seq<Action>, b: seq<Action>)
    ensures Execute(e, files, s, a + b) == Execute(e, files, Execute(e, files, s, a), b)
    decreases |a|
  {
    if a == [] {
      assert a + b == b;
    } else {
      ExecuteAppend(e, files, Step(e, files, s, a[0].who, a[0].choice), a[1..], b);
      assert (a + b)[1..] == a[1..] + b;
    }
  }

  lemma {:induction false} AloneAppend(who: nat, a: nat, b: nat)
    ensures Alone(who, a + b) == Alone(who, a) + Alone(who, b)
  {
    if a > 0 {
      AloneAppend(who, a - 1, b);
    }
  }

  lemma OneStep(e: Engine, files: seq<File>, s: State, who: nat, steps: nat)
    ensures Execute(e, files, s, Alone(who, steps + 1)) == Execute(e, files, Step(e, files, s, who, Proceed),
                                                                   Alone(who, steps))
  {
    assert Alone(who, steps + 1)[1..] == Alone(who, steps);
  }

  lemma {:induction false} ReadyFinishes(e: Engine, start: Schema, files: seq<File>, s: State, who: nat)
    requires Undisturbed(e, start, files, s, who)
    ensures var done := Execute(e, files, s, Alone(who, 3 * |s.runs[who].pending| + 1));
            who < |done.runs| && done.runs[who] == Finished
    decreases |s.runs[who].pending|
  {
    var n := |s.runs[who].pending|;
    if n == 0 {
      OneStep(e, files, s, who, 0);
    } else {
      var s' := OneFile(e, start, files, s, who);
      ReadyFinishes(e, start, files, s', who);
      AloneAppend(who, 3, 3 * (n - 1) + 1);
      ExecuteAppend(e, files, s, Alone(who, 3), Alone(who, 3 * (n - 1) + 1));
    }
  }

  // Whatever failed before, a new run that is left alone applies the rest of the files, provided
  // that they apply at all and that no open transaction holds a record.
  lemma RunAgainFinishes(e: Engine, start: Schema, files: seq<File>, s: State, actions: seq<Action>, who: nat)
    requires Distinct(files) && Initial(start, s) && Applies(e, start, files)
    requires NobodyHolds(Execute(e, files, s, actions)) && who < |Execute(e, files, s, actions).runs|
    requires Execute(e, files, s, actions).runs[who] == Start
    ensures |Execute(e, files, s, actions).db.log| <= |files|
    ensures var now := Execute(e, files, s, actions);
            var done := Execute(e, files, now, Alone(who, 3 * (|files| - |now.db.log|) + 2));
            && who < |done.runs| && done.runs[who] == Finished
            && done.db.log == files && Fold(e, start, files) == Some(done.db.schema)
  {
    InitialInv(e, start, files, s);
    ExecuteKeeps(e, start, files, s, actions);
    var now := Execute(e, files, s, actions);
    var steps := 3 * (|files| - |now.db.log|) + 1;
    assert now.db.log == files[..|now.db.log|];
    PendingIsSuffix(files, |now.db.log|);
    var ready := StepKeeps(e, start, files, now, who, Proceed);
    assert Undisturbed(e, start, files, ready, who);
    ReadyFinishes(e, start, files, ready, who);
    OneStep(e, files, now, who, steps);
    ExecuteKeeps(e, start, files, now, Alone(who, steps + 1));
    assert RunOk(e, files, Finished, Execute(e, files, now, Alone(who, steps + 1)).db);
  }

  // ---------------------------------------------------------------- one run on its own

  // A connection to a database that nobody else uses at the moment.
  class Connection {
    var db: Database

    constructor (initial: Database)
      ensures db == initial
    {
      db := initial;
    }

    // Runs the SQL of a file and records it in one transaction; a failure rolls both back.
    method Apply(e: Engine, file: File, broken: bool) returns (ok: bool)
      modifies this
      ensures ok <==> !broken && file !in old(db).recorded && e.apply(file, old(db).schema).Some?
      ensures db == if ok
                    then Database(e.apply(file, old(db).schema).value, old(db).recorded + {file}, old(db).log + [file])
                    else old(db)
    {
      var view := e.apply(file, db.schema);
      if view.None? || file in db.recorded || broken {
        return false;
      }
      db := Database(view.value, db.recorded + {file}, db.log + [file]);
      ok := true;
    }

    // Applies what is pending and stops at the first failure.  `broken` are the files whose
    // transaction is lost for other reasons than their SQL.
    method Migrate(e: Engine, ghost start: Schema, files: seq<File>, broken: set<File>) returns (ok: bool)
      requires Distinct(files) && DatabaseOk(e, start, files, db)
      modifies this
      ensures DatabaseOk(e, start, files, db) && GrowsLog(old(db), db)
      ensures ok <==> db.log == files
      ensures !ok ==>
                var next := files[|db.log|];
                next in broken || e.apply(next, db.schema).None?
    {
      var pending := Pending(files, db.recorded);
      ghost var first := |db.log|;
      assert db.log == files[..first];
      PendingIsSuffix(files, first);
      for k := 0 to |pending|
        invariant DatabaseOk(e, start, files, db) && GrowsLog(old(db), db)
        invariant |db.log| == first + k
      {
        assert pending[k] == files[first + k] && db.log == files[..first + k];
        ghost var before := db;
        var applied := Apply(e, pending[k], pending[k] in broken);
        if !applied {
          return false;
        }
        CommitKeepsDatabase(e, start, files, Inserted(files[first + k..], db.schema), before);
      }
      ok := true;
    }
  }
}
