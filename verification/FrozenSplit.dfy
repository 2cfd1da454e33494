// Dividing labelled queries by a frozen assignment to the training, validation and test split.
module FrozenSplit {
  import opened Common

  datatype Split = Train | Validation | Test

  const SPLITS: set<Split> := {Train, Validation, Test}

  datatype QueryId = QueryId(text: string)

  datatype Query = Query(id: QueryId, grades: seq<nat>)

  datatype Frozen = Frozen(weights: set<Split>, assignments: map<QueryId, Split>)

  datatype SplitError = WrongSplits | WrongQueries | EmptySplit | OneGrade

  // The queries of one split, in the order of the data.
  function Part(queries: seq<Query>, assignments: map<QueryId, Split>, split: Split): seq<Query> {
    if queries == [] then []
    else
      var front, last := Part(queries[..|queries| - 1], assignments, split), queries[|queries| - 1];
      if last.id in assignments && assignments[last.id] == split then front + [last] else front
  }

  ghost function IdsOf(queries: seq<Query>): set<QueryId> {
    set q | q in queries :: q.id
  }

  function Grades(queries: seq<Query>): set<nat> {
    if queries == [] then {} else Grades(queries[..|queries| - 1]) + GradeSet(queries[|queries| - 1].grades)
  }

  function GradeSet(grades: seq<nat>): set<nat> {
    set g | g in grades
  }

  ghost predicate Splittable(queries: seq<Query>, f: Frozen) {
    && f.weights == SPLITS
    && IdsOf(queries) == f.assignments.Keys
    && (forall split | split in SPLITS :: Part(queries, f.assignments, split) != [])
    && |Grades(Part(queries, f.assignments, Train))| >= 2
  }

  // A part after one more query.
  lemma PartGrows(queries: seq<Query>, q: Query, assignments: map<QueryId, Split>, split: Split)
    ensures Part(queries + [q], assignments, split)
         == Part(queries, assignments, split) + (if q.id in assignments && assignments[q.id] == split then [q] else [])
  {
    assert (queries + [q])[..|queries|] == queries;
  }

  // Every query lands in exactly one part: none is lost, copied or put into two splits.
  lemma {:induction false} PartsAreAll(queries: seq<Query>, assignments: map<QueryId, Split>)
    requires forall q | q in queries :: q.id in assignments
    ensures multiset(Part(queries, assignments, Train)) + multiset(Part(queries, assignments, Validation))
            + multiset(Part(queries, assignments, Test)) == multiset(queries)
  {
    if queries != [] {
      var front, last := queries[..|queries| - 1], queries[|queries| - 1];
      assert queries == front + [last];
      PartsAreAll(front, assignments);
      PartGrows(front, last, assignments, Train);
      PartGrows(front, last, assignments, Validation);
      PartGrows(front, last, assignments, Test);
      assert last in queries;
      OneSplit(assignments[last.id]);
    }
  }

  lemma OneSplit(split: Split)
    ensures split == Train || split == Validation || split == Test
  {
  }

  method IdSet(queries: seq<Query>) returns (ids: set<QueryId>)
    ensures ids == IdsOf(queries)
  {
    ids := {};
    for n := 0 to |queries|
      invariant ids == IdsOf(queries[..n])
    {
      assert queries[..n + 1] == queries[..n] + [queries[n]];
      ids := ids + {queries[n].id};
      assert forall q | q in queries[..n + 1] :: q in queries[..n] || q == queries[n];
      assert forall q | q in queries[..n] :: q in queries[..n + 1];
      assert queries[n] in queries[..n + 1];
    }
    assert queries[..|queries|] == queries;
  }

  predicate PartsAre(queries: seq<Query>, n: nat, assignments: map<QueryId, Split>, parts: map<Split, seq<Query>>)
    requires n <= |queries|
  {
    parts.Keys == SPLITS && forall split | split in SPLITS :: parts[split] == Part(queries[..n], assignments, split)
  }

  lemma OnePartGrows(queries: seq<Query>, n: nat, assignments: map<QueryId, Split>, parts: map<Split, seq<Query>>)
    requires n < |queries| && queries[n].id in assignments && PartsAre(queries, n, assignments, parts)
    requires assignments[queries[n].id] in SPLITS
    ensures var split := assignments[queries[n].id];
            PartsAre(queries, n + 1, assignments, parts[split := parts[split] + [queries[n]]])
  {
    assert queries[..n + 1] == queries[..n] + [queries[n]];
    PartGrows(queries[..n], queries[n], assignments, Train);
    PartGrows(queries[..n], queries[n], assignments, Validation);
    PartGrows(queries[..n], queries[n], assignments, Test);
  }

  method SplitQueries(queries: seq<Query>, f: Frozen) returns (r: Result<map<Split, seq<Query>>, SplitError>)
    ensures r.Success? <==> Splittable(queries, f)
    ensures r.Success? ==> r.value.Keys == SPLITS
    ensures r.Success? ==> forall split | split in SPLITS :: r.value[split] == Part(queries, f.assignments, split)
  {
    if f.weights != SPLITS {
      return Failure(WrongSplits);
    }
    var ids := IdSet(queries);
    if ids != f.assignments.Keys {
      return Failure(WrongQueries);
    }
    var parts: map<Split, seq<Query>> := map[Train := [], Validation := [], Test := []];
    for n := 0 to |queries|
      invariant PartsAre(queries, n, f.assignments, parts)
    {
      assert queries[n].id in IdsOf(queries);
      var split := f.assignments[queries[n].id];
      OneSplit(split);
      OnePartGrows(queries, n, f.assignments, parts);
      parts := parts[split := parts[split] + [queries[n]]];
    }
    assert queries[..|queries|] == queries;
    if parts[Train] == [] || parts[Validation] == [] || parts[Test] == [] {
      return Failure(EmptySplit);
    }
    if |Grades(parts[Train])| < 2 {
      return Failure(OneGrade);
    }
    r := Success(parts);
  }
}
