// Packaging a local encoder tree into a content-addressed directory while the tree may change,
// with any number of publishers and crashes between any two steps.
module EncoderBundle {
  import opened Common

  datatype Path = Path(text: string)

  type Tree = map<Path, Bytes>

  datatype Stamp = Stamp(size: nat, sha: Digest)

  type Listing = map<Path, Stamp>

  const PROVENANCE := Path("bundle-provenance.json")

  // What one publisher was told: the operator's pin and the declared model.
  datatype Config = Config(pin: Digest, model: nat)

  // File hashes, the hash over a listing, the provenance text for a listing, and the limits and
  // path rules of the inspection.
  datatype Tools = Tools(
    sha: Bytes -> Digest,
    identity: Listing -> Digest,
    provenance: (Config, Listing) -> Bytes,
    admissible: Listing -> bool)

  predicate SameIdentity(t: Tools, a: Listing, b: Listing) {
    t.identity(a) == t.identity(b)
  }

  ghost predicate HashesPin(t: Tools) {
    && ShaPins(t.sha)
    && (forall a, b | SameIdentity(t, a, b) :: a == b)
  }

  function StampOf(t: Tools, file: Bytes): Stamp {
    Stamp(|file|, t.sha(file))
  }

  function ListingOf(t: Tools, tree: Tree): Listing {
    map path | path in tree :: StampOf(t, tree[path])
  }

  function Identity(t: Tools, tree: Tree): Digest {
    t.identity(ListingOf(t, tree))
  }

  // ---------------------------------------------------------------- the protocol

  // `Checking` is before the look at the destination, `Renaming` after it found nothing.
  datatype Pc =
    | Start
    | Copying(listing: Listing, todo: set<Path>, staged: Tree)
    | Checking(listing: Listing, staged: Tree)
    | Renaming(listing: Listing, staged: Tree)
    | Published(listing: Listing, digest: Digest)
    | Failed

  datatype Process = Process(config: Config, pc: Pc)

  datatype State = State(destinations: map<Digest, Tree>, processes: seq<Process>)

  // Everything that a process reads from the source is up to the environment: the listing that
  // an inspection pieces together, and the bytes of a file at the moment it is copied.
  datatype Choice =
    | Crash
    | Inspect(observed: Listing)
    | Copy(path: Path, bytes: Bytes)
    | Run

  function StepStart(t: Tools, c: Config, observed: Listing): Pc {
    if t.admissible(observed) && t.identity(observed) == c.pin then Copying(observed, observed.Keys, map[]) else Failed
  }

  // Copies one file and hashes the copy; the listing says which hash it must have.
  function StepCopy(t: Tools, pc: Pc, path: Path, bytes: Bytes): Pc
    requires pc.Copying?
  {
    if path !in pc.todo || path !in pc.listing then pc
    else if t.sha(bytes) != pc.listing[path].sha then Failed
    else Copying(pc.listing, pc.todo - {path}, pc.staged[path := bytes])
  }

  // Inspects the source again, then adds the provenance file to the staged tree.
  function StepSeal(t: Tools, c: Config, pc: Pc, observed: Listing): Pc
    requires pc.Copying?
  {
    if pc.todo != {} || !t.admissible(observed) || t.identity(observed) != c.pin then Failed
    else
      var staged := pc.staged[PROVENANCE := t.provenance(c, pc.listing)];
      if t.admissible(ListingOf(t, staged)) then Checking(pc.listing, staged) else Failed
  }

  // Adopts a directory that is already there: its contents must have the digest of its name, and
  // its provenance must be the one of this publisher.
  function Adopt(t: Tools, c: Config, listing: Listing, digest: Digest, found: Tree): Pc {
    if t.admissible(ListingOf(t, found)) && Identity(t, found) == digest
       && PROVENANCE in found && found[PROVENANCE] == t.provenance(c, listing)
    then Published(listing, digest) else Failed
  }

  function StepCheck(t: Tools, c: Config, pc: Pc, destinations: map<Digest, Tree>): Pc
    requires pc.Checking?
  {
    var digest := Identity(t, pc.staged);
    if digest in destinations then Adopt(t, c, pc.listing, digest, destinations[digest])
    else Renaming(pc.listing, pc.staged)
  }

  // rename() is atomic and fails when the destination exists and is not empty.
  function StepRename(t: Tools, c: Config, pc: Pc, destinations: map<Digest, Tree>): (Pc, map<Digest, Tree>)
    requires pc.Renaming?
  {
    var digest := Identity(t, pc.staged);
    if digest in destinations then (Adopt(t, c, pc.listing, digest, destinations[digest]), destinations)
    else
      var after := destinations[digest := pc.staged];
      (Adopt(t, c, pc.listing, digest, pc.staged), after)
  }

  function StepPc(t: Tools, c: Config, pc: Pc, destinations: map<Digest, Tree>, choice: Choice): (Pc,
    map<Digest, Tree>) {
    match pc
    case Start =>
      (if choice.Inspect? then StepStart(t, c, choice.observed) else if choice.Crash? then Failed else pc, destinations)
    case Copying(_, _, _) =>
      (match choice
       case Copy(path, bytes) => StepCopy(t, pc, path, bytes)
       case Inspect(observed) => StepSeal(t, c, pc, observed)
       case Crash => Failed
       case Run => pc, destinations)
    case Checking(_, _) =>
      (if choice.Run? then StepCheck(t, c, pc, destinations) else if choice.Crash? then Failed else pc, destinations)
    case Renaming(_, _) =>
      if choice.Run? then StepRename(t, c, pc, destinations)
      else (if choice.Crash? then Failed else pc, destinations)
    case Published(_, _) => (pc, destinations)
    case Failed => (pc, destinations)
  }

  function Step(t: Tools, s: State, who: nat, choice: Choice): State {
    if who >= |s.processes| then s
    else
      var p := s.processes[who];
      var (pc, destinations) := StepPc(t, p.config, p.pc, s.destinations, choice);
      State(destinations, s.processes[who := p.(pc := pc)])
  }

  datatype Action = Action(who: nat, choice: Choice)

  function Execute(t: Tools, s: State, actions: seq<Action>): State
    decreases |actions|
  {
    if actions == [] then s else Execute(t, Step(t, s, actions[0].who, actions[0].choice), actions[1..])
  }

  // ---------------------------------------------------------------- the invariant

  // The staged files are exactly the listed ones that are not still to be copied.
  predicate Faithful(t: Tools, listing: Listing, staged: Tree, todo: set<Path>) {
    && staged.Keys == listing.Keys - todo
    && forall path | path in staged :: t.sha(staged[path]) == listing[path].sha
  }

  // The tree that a publisher must produce for a listing, as hashes.
  predicate Complete(t: Tools, c: Config, listing: Listing, tree: Tree) {
    && t.identity(listing) == c.pin
    && tree.Keys == listing.Keys + {PROVENANCE}
    && tree[PROVENANCE] == t.provenance(c, listing)
    && forall path | path in listing && path != PROVENANCE :: t.sha(tree[path]) == listing[path].sha
  }

  ghost predicate ProcessOk(t: Tools, p: Process, destinations: map<Digest, Tree>) {
    match p.pc
    case Start => true
    case Copying(listing, todo, staged) => t.identity(listing) == p.config.pin && todo <= listing.Keys &&
                                           Faithful(t, listing, staged, todo)
    case Checking(listing, staged) => Complete(t, p.config, listing, staged) && t.admissible(ListingOf(t, staged))
    case Renaming(listing, staged) => Complete(t, p.config, listing, staged) && t.admissible(ListingOf(t, staged))
    case Published(listing, digest) => digest in destinations && Complete(t, p.config, listing, destinations[digest])
    case Failed => true
  }

  // Somebody's finished work, under the digest of its contents.
  ghost predicate Finished(t: Tools, s: State, digest: Digest) {
    && digest in s.destinations
    && Identity(t, s.destinations[digest]) == digest
    && exists k, listing :: CompletedBy(t, s, digest, k, listing)
  }

  predicate CompletedBy(t: Tools, s: State, digest: Digest, k: int, listing: Listing)
    requires digest in s.destinations
  {
    0 <= k < |s.processes| && Complete(t, s.processes[k].config, listing, s.destinations[digest])
  }

  ghost predicate Inv(t: Tools, s: State) {
    && (forall k | 0 <= k < |s.processes| :: ProcessOk(t, s.processes[k], s.destinations))
    && (forall digest | digest in s.destinations :: Finished(t, s, digest))
  }

  ghost predicate Initial(s: State) {
    s.destinations == map[] && forall k | 0 <= k < |s.processes| :: s.processes[k].pc == Start
  }

  // A directory holding what this publisher staged is one that it completed: the digest names the
  // contents.
  lemma AdoptedIsComplete(t: Tools, c: Config, listing: Listing, staged: Tree, found: Tree)
    requires HashesPin(t) && Complete(t, c, listing, staged)
    requires Identity(t, found) == Identity(t, staged)
    ensures found == staged
  {
    assert SameIdentity(t, ListingOf(t, found), ListingOf(t, staged));
    assert found.Keys == ListingOf(t, found).Keys && staged.Keys == ListingOf(t, staged).Keys;
    forall path | path in found
      ensures found[path] == staged[path]
    {
      assert ListingOf(t, found)[path] == ListingOf(t, staged)[path];
      assert SameSha(t.sha, found[path], staged[path]);
    }
  }

  ghost predicate Grows(before: map<Digest, Tree>, after: map<Digest, Tree>) {
    forall digest | digest in before :: digest in after && after[digest] == before[digest]
  }

  // Only a rename adds a directory, and it adds the complete one that was staged.
  ghost predicate AddsComplete(t: Tools, p: Process, before: map<Digest, Tree>, after: map<Digest, Tree>) {
    && Grows(before, after)
    && forall digest | digest in after && digest !in before ::
         && Identity(t, after[digest]) == digest
         && p.pc.Renaming? && Complete(t, p.config, p.pc.listing, after[digest])
  }

  lemma StepPcKeeps(t: Tools, p: Process, destinations: map<Digest, Tree>, choice: Choice)
    returns (pc: Pc, after: map<Digest, Tree>)
    requires HashesPin(t) && ProcessOk(t, p, destinations)
    requires forall digest | digest in destinations :: Identity(t, destinations[digest]) == digest
    ensures (pc, after) == StepPc(t, p.config, p.pc, destinations, choice)
    ensures ProcessOk(t, p.(pc := pc), after) && AddsComplete(t, p, destinations, after)
  {
    var step := StepPc(t, p.config, p.pc, destinations, choice);
    pc, after := step.0, step.1;
    match p.pc
    case Checking(listing, staged) =>
      var digest := Identity(t, staged);
      if digest in destinations {
        AdoptedIsComplete(t, p.config, listing, staged, destinations[digest]);
      }
    case Renaming(listing, staged) =>
      var digest := Identity(t, staged);
      if digest in destinations {
        AdoptedIsComplete(t, p.config, listing, staged, destinations[digest]);
      }
    case _ =>
  }

  lemma OthersKeep(t: Tools, p: Process, before: map<Digest, Tree>, after: map<Digest, Tree>)
    requires ProcessOk(t, p, before) && Grows(before, after)
    ensures ProcessOk(t, p, after)
  {
  }

  lemma FinishedKeeps(t: Tools, s: State, s': State, digest: Digest)
    requires Finished(t, s, digest) && Grows(s.destinations, s'.destinations) && |s'.processes| == |s.processes|
    requires forall k | 0 <= k < |s.processes| :: s'.processes[k].config == s.processes[k].config
    ensures Finished(t, s', digest)
  {
    var k, listing :| CompletedBy(t, s, digest, k, listing);
    assert CompletedBy(t, s', digest, k, listing);
  }

  lemma StepOf(t: Tools, s: State, who: nat, choice: Choice) returns (s': State, pc: Pc)
    requires HashesPin(t) && Inv(t, s) && who < |s.processes|
    ensures s' == Step(t, s, who, choice)
    ensures s'.processes == s.processes[who := s.processes[who].(pc := pc)]
    ensures ProcessOk(t, s.processes[who].(pc := pc), s'.destinations)
    ensures AddsComplete(t, s.processes[who], s.destinations, s'.destinations)
  {
    var p := s.processes[who];
    assert forall digest | digest in s.destinations :: Finished(t, s, digest);
    var after;
    pc, after := StepPcKeeps(t, p, s.destinations, choice);
    s' := State(after, s.processes[who := p.(pc := pc)]);
  }

  lemma ProcessesKeep(t: Tools, s: State, who: nat, pc: Pc, s': State)
    requires Inv(t, s) && who < |s.processes| && Grows(s.destinations, s'.destinations)
    requires s'.processes == s.processes[who := s.processes[who].(pc := pc)]
    requires ProcessOk(t, s.processes[who].(pc := pc), s'.destinations)
    ensures forall k | 0 <= k < |s'.processes| :: ProcessOk(t, s'.processes[k], s'.destinations)
  {
    forall k | 0 <= k < |s.processes|
      ensures ProcessOk(t, s'.processes[k], s'.destinations)
    {
      if k != who {
        OthersKeep(t, s.processes[k], s.destinations, s'.destinations);
      }
    }
  }

  lemma StepKeeps(t: Tools, s: State, who: nat, choice: Choice) returns (s': State)
    requires HashesPin(t) && Inv(t, s)
    ensures s' == Step(t, s, who, choice)
    ensures Inv(t, s') && Grows(s.destinations, s'.destinations)
  {
    s' := s;
    if who < |s.processes| {
      var pc;
      s', pc := StepOf(t, s, who, choice);
      ProcessesKeep(t, s, who, pc, s');
      forall digest | digest in s'.destinations
        ensures Finished(t, s', digest)
      {
        if digest in s.destinations {
          FinishedKeeps(t, s, s', digest);
        } else {
          assert CompletedBy(t, s', digest, who, s.processes[who].pc.listing);
        }
      }
    }
  }

  lemma {:induction false} ExecuteKeeps(t: Tools, s: State, actions: seq<Action>)
    requires HashesPin(t) && Inv(t, s)
    ensures Inv(t, Execute(t, s, actions)) && Grows(s.destinations, Execute(t, s, actions).destinations)
    decreases |actions|
  {
    if actions != [] {
      var s' := StepKeeps(t, s, actions[0].who, actions[0].choice);
      ExecuteKeeps(t, s', actions[1..]);
    }
  }

  // ---------------------------------------------------------------- what packaging promises

  // In every reachable state every visible directory is complete, sits under the digest of its
  // own contents, and was finished by one of the publishers.
  lemma NeverVisibleIncomplete(t: Tools, s: State, actions: seq<Action>, digest: Digest)
    requires HashesPin(t) && Initial(s) && digest in Execute(t, s, actions).destinations
    ensures Finished(t, Execute(t, s, actions), digest)
  {
    ExecuteKeeps(t, s, actions);
  }

  // A visible directory never changes afterwards.
  lemma NeverReplaced(t: Tools, s: State, actions: seq<Action>, more: seq<Action>, digest: Digest)
    requires HashesPin(t) && Initial(s) && digest in Execute(t, s, actions).destinations
    ensures var now, later := Execute(t, s, actions), Execute(t, Execute(t, s, actions), more);
            digest in later.destinations && later.destinations[digest] == now.destinations[digest]
  {
    ExecuteKeeps(t, s, actions);
    ExecuteKeeps(t, Execute(t, s, actions), more);
  }

  // The tree that the operator pinned, with the provenance file written over it.
  function WithProvenance(t: Tools, c: Config, pinned: Tree): Tree {
    pinned[PROVENANCE := t.provenance(c, ListingOf(t, pinned))]
  }

  lemma CompleteIsPinned(t: Tools, c: Config, listing: Listing, tree: Tree, pinned: Tree)
    requires HashesPin(t) && Complete(t, c, listing, tree) && Identity(t, pinned) == c.pin
    ensures tree == WithProvenance(t, c, pinned)
  {
    assert SameIdentity(t, listing, ListingOf(t, pinned));
    assert ListingOf(t, pinned).Keys == pinned.Keys;
    forall path | path in pinned && path != PROVENANCE
      ensures tree[path] == pinned[path]
    {
      assert ListingOf(t, pinned)[path].sha == t.sha(pinned[path]);
      assert SameSha(t.sha, tree[path], pinned[path]);
    }
  }

  // However the source changes while it is inspected and copied, a finished publisher's directory
  // holds the pinned tree and its provenance, and nothing else.
  lemma PublishedIsPinned(t: Tools, s: State, actions: seq<Action>, k: nat, pinned: Tree)
    requires HashesPin(t) && Initial(s) && k < |Execute(t, s, actions).processes|
    requires Execute(t, s, actions).processes[k].pc.Published?
    requires Identity(t, pinned) == Execute(t, s, actions).processes[k].config.pin
    ensures var after := Execute(t, s, actions);
            var digest := after.processes[k].pc.digest;
            digest in after.destinations &&
            after.destinations[digest] == WithProvenance(t, after.processes[k].config, pinned)
  {
    ExecuteKeeps(t, s, actions);
    var p := Execute(t, s, actions).processes[k];
    CompleteIsPinned(t, p.config, p.pc.listing, Execute(t, s, actions).destinations[p.pc.digest], pinned);
  }

  // The pinned files survive unchanged exactly when none of them is called like the provenance
  // file, or that one already has the provenance text.
  lemma SourceSurvivesExactly(t: Tools, c: Config, pinned: Tree)
    ensures (forall path | path in pinned :: WithProvenance(t, c, pinned)[path] == pinned[path])
       <==> PROVENANCE !in pinned || pinned[PROVENANCE] == t.provenance(c, ListingOf(t, pinned))
  {
    if PROVENANCE in pinned && forall path | path in pinned :: WithProvenance(t, c, pinned)[path] == pinned[path] {
      assert WithProvenance(t, c, pinned)[PROVENANCE] == pinned[PROVENANCE];
    }
  }

  // Whoever finds the directory already there adopts it: before the rename, or when the rename
  // was lost to a concurrent publisher.
  lemma LoserAdopts(t: Tools, s: State, actions: seq<Action>, k: nat)
    requires HashesPin(t) && Initial(s) && k < |Execute(t, s, actions).processes|
    requires var p := Execute(t, s, actions).processes[k].pc;
             (p.Checking? || p.Renaming?) && Identity(t, p.staged) in Execute(t, s, actions).destinations
    ensures var before := Execute(t, s, actions);
            var p := before.processes[k].pc;
            var after := Published(p.listing, Identity(t, p.staged));
            Step(t, before, k, Run) == before.(processes := before.processes[k := before.processes[k].(pc := after)])
  {
    ExecuteKeeps(t, s, actions);
    var before := Execute(t, s, actions);
    var p := before.processes[k];
    var digest := Identity(t, p.pc.staged);
    assert Finished(t, before, digest);
    AdoptedIsComplete(t, p.config, p.pc.listing, p.pc.staged, before.destinations[digest]);
  }
}
