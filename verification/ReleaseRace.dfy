// Any number of publishers of source releases at once, with crashes between any two steps.
module ReleaseRace {
  import opened Common
  import opened JsonlReader
  import opened SourceRelease
  import opened ReleasePublication

  // What a publisher collected: its directory and the files that belong there.
  datatype Goal = Goal(place: Place, expected: Bundle)

  // Staging happens in a fresh private directory, one file after the other.
  datatype Pc = Start | Staging(written: Bundle) | Done(reused: bool) | Refused | Crashed

  datatype Process = Process(goal: Goal, pc: Pc)

  datatype State = State(directories: map<Place, Bundle>, processes: seq<Process>)

  datatype Choice = Advance(file: File) | Crash

  function Compare(g: Goal, found: Bundle): Pc {
    if Adoptable(found, g.expected) then Done(true) else Refused
  }

  function StepStart(g: Goal, directories: map<Place, Bundle>): Pc {
    if g.place in directories then Compare(g, directories[g.place]) else Staging(map[])
  }

  // Writes one more file, or renames the staging directory once every file is there.  rename()
  // is atomic, and fails onto a directory that exists.
  function StepStaging(g: Goal, written: Bundle, directories: map<Place, Bundle>, file: File): (Pc,
    map<Place, Bundle>) {
    if written.Keys != g.expected.Keys then
      (if file in g.expected then Staging(written[file := g.expected[file]]) else Staging(written), directories)
    else if g.place in directories then (Compare(g, directories[g.place]), directories)
    else (Done(false), directories[g.place := written])
  }

  function StepPc(p: Process, directories: map<Place, Bundle>, choice: Choice): (Pc, map<Place, Bundle>) {
    match p.pc
    case Start => (if choice.Crash? then Crashed else StepStart(p.goal, directories), directories)
    case Staging(written) =>
      if choice.Crash? then (Crashed, directories) else StepStaging(p.goal, written, directories, choice.file)
    case Done(_) => (p.pc, directories)
    case Refused => (p.pc, directories)
    case Crashed => (p.pc, directories)
  }

  function Step(s: State, who: nat, choice: Choice): State {
    if who >= |s.processes| then s
    else
      var (pc, directories) := StepPc(s.processes[who], s.directories, choice);
      State(directories, s.processes[who := s.processes[who].(pc := pc)])
  }

  datatype Action = Action(who: nat, choice: Choice)

  function Execute(s: State, actions: seq<Action>): State
    decreases |actions|
  {
    if actions == [] then s else Execute(Step(s, actions[0].who, actions[0].choice), actions[1..])
  }

  // ---------------------------------------------------------------- the invariant

  predicate PartOf(written: Bundle, expected: Bundle) {
    forall file | file in written :: file in expected && written[file] == expected[file]
  }

  ghost predicate ProcessOk(p: Process, directories: map<Place, Bundle>) {
    match p.pc
    case Staging(written) => PartOf(written, p.goal.expected)
    case Done(_) => p.goal.place in directories && directories[p.goal.place] == p.goal.expected
    case _ => true
  }

  ghost predicate Owned(s: State, place: Place) {
    place in s.directories && exists k :: Owns(s, place, k)
  }

  predicate Owns(s: State, place: Place, k: int)
    requires place in s.directories
  {
    0 <= k < |s.processes| && s.processes[k].goal == Goal(place, s.directories[place])
  }

  ghost predicate Inv(s: State) {
    && (forall k | 0 <= k < |s.processes| :: ProcessOk(s.processes[k], s.directories))
    && (forall place | place in s.directories :: Owned(s, place))
  }

  ghost predicate Initial(s: State) {
    s.directories == map[] && forall k | 0 <= k < |s.processes| :: s.processes[k].pc == Start
  }

  ghost predicate Grows(before: map<Place, Bundle>, after: map<Place, Bundle>) {
    forall place | place in before :: place in after && after[place] == before[place]
  }

  lemma StepPcKeeps(p: Process, directories: map<Place, Bundle>, choice: Choice)
    returns (pc: Pc, after: map<Place, Bundle>)
    requires ProcessOk(p, directories)
    ensures (pc, after) == StepPc(p, directories, choice)
    ensures ProcessOk(p.(pc := pc), after) && Grows(directories, after)
    ensures forall place | place in after && place !in directories :: p.goal == Goal(place, after[place])
  {
    var step := StepPc(p, directories, choice);
    pc, after := step.0, step.1;
    if p.pc.Staging? && p.pc.written.Keys == p.goal.expected.Keys {
      assert p.pc.written == p.goal.expected;
    }
  }

  lemma StepKeeps(s: State, who: nat, choice: Choice) returns (s': State)
    requires Inv(s)
    ensures s' == Step(s, who, choice)
    ensures Inv(s') && Grows(s.directories, s'.directories) && |s'.processes| == |s.processes|
    ensures forall k | 0 <= k < |s.processes| :: s'.processes[k].goal == s.processes[k].goal
  {
    s' := s;
    if who < |s.processes| {
      var p := s.processes[who];
      var pc, after := StepPcKeeps(p, s.directories, choice);
      s' := State(after, s.processes[who := p.(pc := pc)]);
      forall place | place in after
        ensures Owned(s', place)
      {
        if place in s.directories {
          assert Owned(s, place);
          var k :| Owns(s, place, k);
          assert Owns(s', place, k);
        } else {
          assert Owns(s', place, who);
        }
      }
    }
  }

  lemma {:induction false} ExecuteKeeps(s: State, actions: seq<Action>)
    requires Inv(s)
    ensures Inv(Execute(s, actions)) && Grows(s.directories, Execute(s, actions).directories)
    ensures |Execute(s, actions).processes| == |s.processes|
    ensures forall k | 0 <= k < |s.processes| :: Execute(s, actions).processes[k].goal == s.processes[k].goal
    decreases |actions|
  {
    if actions != [] {
      var s' := StepKeeps(s, actions[0].who, actions[0].choice);
      ExecuteKeeps(s', actions[1..]);
    }
  }

  // ---------------------------------------------------------------- what the race promises

  // The goals are those of publishers that collected their evidence.
  ghost predicate FromEvidence<J>(c: Checks<J>, f: Format, g: Goal) {
    exists controls, x, pin, now :: Gathered(c, f, g, controls, x, pin, now)
  }

  predicate Gathered<J>(c: Checks<J>, f: Format, g: Goal, controls: Controls, x: External, pin: Digest, now: nat) {
    && Collected(c, f, controls, x, pin, now).Some?
    && var payload := Collected(c, f, controls, x, pin, now).value;
    g == Goal(PlaceOf(c, f, payload), Expected(f, controls, payload))
  }

  // The directory name determines the files: it is the hash of a manifest that holds the hash of
  // every control file.
  lemma PlaceDeterminesBundle<J>(c: Checks<J>, f: Format, g: Goal, h: Goal)
    requires ShaPins(c.sha) && PrintsAll(f) && FromEvidence(c, f, g) && FromEvidence(c, f, h) && g.place == h.place
    ensures g == h
  {
    var controls, x, pin, now :| Gathered(c, f, g, controls, x, pin, now);
    var controls', x', pin', now' :| Gathered(c, f, h, controls', x', pin', now');
    var payload, payload' := Collected(c, f, controls, x, pin, now).value, Collected(c, f, controls', x', pin',
                                                                                     now').value;
    assert SameSha(c.sha, f.pretty(payload), f.pretty(payload'));
    assert Prints(f, payload) && Prints(f, payload');
    CollectedRefs(c, f, controls, x, controls[Registry], pin, now);
    CollectedRefs(c, f, controls', x', controls'[Registry], pin', now');
    RefsPin(c, controls, controls');
  }

  // A directory holds all the files of the publisher it belongs to from the moment it appears,
  // and keeps them.
  lemma VisibleIsComplete<J>(c: Checks<J>, f: Format, s: State, actions: seq<Action>, more: seq<Action>, k: nat)
    requires ShaPins(c.sha) && PrintsAll(f) && Initial(s) && k < |s.processes|
    requires AllFromEvidence(c, f, s)
    requires s.processes[k].goal.place in Execute(s, actions).directories
    ensures Execute(s, actions).directories[s.processes[k].goal.place] == s.processes[k].goal.expected
    ensures var later := Execute(Execute(s, actions), more);
            s.processes[k].goal.place in later.directories &&
            later.directories[s.processes[k].goal.place] == s.processes[k].goal.expected
  {
    ExecuteKeeps(s, actions);
    ExecuteKeeps(Execute(s, actions), more);
    var now, place := Execute(s, actions), s.processes[k].goal.place;
    assert Owned(now, place);
    var n :| Owns(now, place, n);
    PlaceDeterminesBundle(c, f, s.processes[k].goal, s.processes[n].goal);
  }

  // Who was compared with an existing directory adopted it exactly when its own files fit the
  // limit for control files.
  predicate ComparedBySize(p: Process) {
    && (p.pc == Done(true) ==> FitsControls(p.goal.expected))
    && (p.pc == Refused ==> !FitsControls(p.goal.expected))
  }

  ghost predicate AllComparedBySize(s: State) {
    forall n | 0 <= n < |s.processes| :: ComparedBySize(s.processes[n])
  }

  ghost predicate AllFromEvidence<J>(c: Checks<J>, f: Format, s: State) {
    forall n | 0 <= n < |s.processes| :: FromEvidence(c, f, s.processes[n].goal)
  }

  lemma NoConflict<J>(c: Checks<J>, f: Format, s: State, g: Goal)
    requires ShaPins(c.sha) && PrintsAll(f) && Inv(s) && AllFromEvidence(c, f, s) && FromEvidence(c, f, g)
    ensures g.place in s.directories ==> s.directories[g.place] == g.expected
  {
    if g.place in s.directories {
      assert Owned(s, g.place);
      var n :| Owns(s, g.place, n);
      PlaceDeterminesBundle(c, f, g, s.processes[n].goal);
    }
  }

  lemma StepCompares(s: State, who: nat, choice: Choice)
    requires AllComparedBySize(s)
    requires who < |s.processes| && s.processes[who].goal.place in s.directories ==>
               s.directories[s.processes[who].goal.place] == s.processes[who].goal.expected
    ensures AllComparedBySize(Step(s, who, choice))
  {
    if who < |s.processes| {
      assert ComparedBySize(s.processes[who]);
    }
  }

  lemma {:induction false} RefusalNeedsConflict<J>(c: Checks<J>, f: Format, s: State, actions: seq<Action>)
    requires ShaPins(c.sha) && PrintsAll(f) && Inv(s) && AllComparedBySize(s) && AllFromEvidence(c, f, s)
    ensures AllComparedBySize(Execute(s, actions))
    decreases |actions|
  {
    if actions != [] {
      var who, choice := actions[0].who, actions[0].choice;
      if who < |s.processes| {
        NoConflict(c, f, s, s.processes[who].goal);
      }
      StepCompares(s, who, choice);
      var s' := StepKeeps(s, who, choice);
      RefusalNeedsConflict(c, f, s', actions[1..]);
    }
  }

  lemma GoalFitsExactly<J>(c: Checks<J>, f: Format, g: Goal)
    requires FromEvidence(c, f, g)
    ensures ManifestFile in g.expected
    ensures FitsControls(g.expected) <==> |g.expected[ManifestFile]| <= MAX_CONTROL_BYTES
  {
    var controls, x, pin, now :| Gathered(c, f, g, controls, x, pin, now);
    var payload := Collected(c, f, controls, x, pin, now).value;
    FitsExactly(f, controls, payload);
  }

  // Who loses the race adopts identical bytes, if and only if its manifest is no longer than a
  // control file may be; nobody is refused for any other reason.
  lemma LosersAdopt<J>(c: Checks<J>, f: Format, s: State, actions: seq<Action>, n: nat)
    requires ShaPins(c.sha) && PrintsAll(f) && Initial(s) && n < |s.processes|
    requires AllFromEvidence(c, f, s)
    ensures |Execute(s, actions).processes| == |s.processes|
    ensures var p := Execute(s, actions).processes[n];
            && p.goal == s.processes[n].goal && ManifestFile in p.goal.expected
            && (p.pc == Done(true) ==> |p.goal.expected[ManifestFile]| <= MAX_CONTROL_BYTES)
            && (p.pc == Refused ==> |p.goal.expected[ManifestFile]| > MAX_CONTROL_BYTES)
  {
    ExecuteKeeps(s, actions);
    assert AllComparedBySize(s);
    RefusalNeedsConflict(c, f, s, actions);
    assert ComparedBySize(Execute(s, actions).processes[n]);
    GoalFitsExactly(c, f, s.processes[n].goal);
  }
}
