// Pooling of annotation candidates: the fused ranking first, then hits that only one
// retrieval source found, taken from the sources in turn.
module CandidatePool {
  import opened Common

  // A canonical product id.
  datatype Id = Id(text: string)

  datatype Source = Bm25 | Vector

  const SOURCES: seq<Source> := [Bm25, Vector]

  datatype PoolError = NonPositiveMaximum | FusedExceedsMaximum

  datatype Stats = Stats(
    rrfCandidates: nat,
    bm25Candidates: nat,
    vectorCandidates: nat,
    bm25Added: nat,
    vectorAdded: nat,
    pooled: nat)

  datatype Pooled = Pooled(ids: seq<Id>, stats: Stats)

  function Hits(pools: map<Source, seq<Id>>, source: Source): seq<Id> {
    if source in pools then pools[source] else []
  }

  // ---------------------------------------------------------------- reference definition

  // First occurrences, in order.
  function Unique(ids: seq<Id>): seq<Id> {
    if ids == [] then []
    else
      var front, last := Unique(ids[..|ids| - 1]), ids[|ids| - 1];
      if last in front then front else front + [last]
  }

  // The hits from the first one that is not selected yet.
  function Skip(hits: seq<Id>, selected: set<Id>): (rest: seq<Id>)
    ensures |rest| <= |hits|
    ensures rest != [] ==> rest[0] !in selected
  {
    if hits == [] then [] else if hits[0] in selected then Skip(hits[1..], selected) else hits
  }

  // Everything that the sources add in turns when there is no maximum, starting with BM25 or
  // with vector search.
  function Turns(bm25: seq<Id>, vector: seq<Id>, selected: set<Id>, vectorsTurn: bool): seq<Id>
    decreases |bm25| + |vector|,
              if (if vectorsTurn then Skip(vector, selected) else Skip(bm25, selected)) == [] then 1 else 0
  {
    var b, v := Skip(bm25, selected), Skip(vector, selected);
    if b == [] && v == [] then []
    else if !vectorsTurn then
      if b == [] then Turns(bm25, vector, selected, true)
      else [b[0]] + Turns(b[1..], vector, selected + {b[0]}, true)
    else
    if v == [] then Turns(bm25, vector, selected, false)
    else [v[0]] + Turns(bm25, v[1..], selected + {v[0]}, false)
  }

  // The pool without a maximum.
  function FullPool(fused: seq<Id>, bm25: seq<Id>, vector: seq<Id>): seq<Id> {
    Unique(fused) + Turns(bm25, vector, set id | id in fused, false)
  }

  function Take(ids: seq<Id>, n: nat): seq<Id> {
    if n <= |ids| then ids[..n] else ids
  }

  // ---------------------------------------------------------------- facts about the reference

  lemma {:induction false} UniqueIs(ids: seq<Id>)
    ensures Distinct(Unique(ids)) && SetOf(Unique(ids)) == SetOf(ids) && |Unique(ids)| <= |ids|
  {
    if ids != [] {
      var front, last := ids[..|ids| - 1], ids[|ids| - 1];
      UniqueIs(front);
      assert ids == front + [last];
      assert SetOf(ids) == SetOf(front) + {last};
      assert last in Unique(front) <==> last in SetOf(Unique(front));
      if last !in Unique(front) {
        SetOfAppend(Unique(front), [last]);
      }
    }
  }

  lemma SetOfAppend(xs: seq<Id>, ys: seq<Id>)
    ensures SetOf(xs + ys) == SetOf(xs) + SetOf(ys)
  {
  }

  lemma DistinctAppend(xs: seq<Id>, ys: seq<Id>)
    requires Distinct(xs) && Distinct(ys) && SetOf(xs) !! SetOf(ys)
    ensures Distinct(xs + ys)
  {
    forall j, k | 0 <= j < k < |xs + ys|
      ensures (xs + ys)[j] != (xs + ys)[k]
    {
      if j < |xs| <= k {
        assert xs[j] in SetOf(xs) && ys[k - |xs|] in SetOf(ys);
      }
    }
  }

  lemma {:induction false} SkipKeeps(hits: seq<Id>, selected: set<Id>)
    ensures SetOf(hits) + selected == SetOf(Skip(hits, selected)) + selected
  {
    if hits != [] && hits[0] in selected {
      SkipKeeps(hits[1..], selected);
      assert hits == [hits[0]] + hits[1..];
    }
  }

  // Skipping is the same from any later position.
  lemma {:induction false} SkipAgain(hits: seq<Id>, selected: set<Id>)
    ensures Skip(Skip(hits, selected), selected) == Skip(hits, selected)
  {
    if hits != [] && hits[0] in selected {
      SkipAgain(hits[1..], selected);
    }
  }

  lemma {:induction false} TurnsSkip(bm25: seq<Id>, vector: seq<Id>, selected: set<Id>, vectorsTurn: bool)
    ensures Turns(Skip(bm25, selected), vector, selected, vectorsTurn) == Turns(bm25, vector, selected, vectorsTurn)
    ensures Turns(bm25, Skip(vector, selected), selected, vectorsTurn) == Turns(bm25, vector, selected, vectorsTurn)
    decreases |bm25| + |vector|,
              if (if vectorsTurn then Skip(vector, selected) else Skip(bm25, selected)) == [] then 1 else 0
  {
    var b, v := Skip(bm25, selected), Skip(vector, selected);
    SkipAgain(bm25, selected);
    SkipAgain(vector, selected);
    if b == [] && v == [] {
    } else if !vectorsTurn {
      if b == [] {
        TurnsSkip(bm25, vector, selected, true);
      } else {
        SkipTwice(vector, selected, b[0]);
        TurnsSkip(b[1..], vector, selected + {b[0]}, true);
        TurnsSkip(b[1..], v, selected + {b[0]}, true);
      }
    } else {
      if v == [] {
        TurnsSkip(bm25, vector, selected, false);
      } else {
        SkipTwice(bm25, selected, v[0]);
        TurnsSkip(bm25, v[1..], selected + {v[0]}, false);
        TurnsSkip(b, v[1..], selected + {v[0]}, false);
      }
    }
  }

  lemma {:induction false} SkipTwice(hits: seq<Id>, selected: set<Id>, id: Id)
    ensures Skip(Skip(hits, selected), selected + {id}) == Skip(hits, selected + {id})
  {
    if hits != [] && hits[0] in selected {
      SkipTwice(hits[1..], selected, id);
    }
  }

  // New and distinct hits that leave no hit of either source out.
  ghost predicate Completes(added: seq<Id>, bm25: seq<Id>, vector: seq<Id>, selected: set<Id>) {
    && Distinct(added) && SetOf(added) !! selected
    && SetOf(added) + selected == SetOf(bm25) + SetOf(vector) + selected
  }

  lemma CompletesWithFront(first: Id, rest: seq<Id>, mine: seq<Id>, other: seq<Id>, hits: seq<Id>, selected: set<Id>)
    requires mine != [] && mine[0] == first && first !in selected
    requires SetOf(hits) + selected == SetOf(mine) + selected
    requires Completes(rest, mine[1..], other, selected + {first})
    ensures Completes([first] + rest, hits, other, selected)
  {
    assert first !in SetOf(rest);
    AddFront(mine, rest);
  }

  lemma CompletesSwap(added: seq<Id>, a: seq<Id>, b: seq<Id>, selected: set<Id>)
    requires Completes(added, a, b, selected)
    ensures Completes(added, b, a, selected)
  {
  }

  lemma {:induction false} TurnsComplete(bm25: seq<Id>, vector: seq<Id>, selected: set<Id>, vectorsTurn: bool)
    ensures Completes(Turns(bm25, vector, selected, vectorsTurn), bm25, vector, selected)
    decreases |bm25| + |vector|,
              if (if vectorsTurn then Skip(vector, selected) else Skip(bm25, selected)) == [] then 1 else 0
  {
    var b, v := Skip(bm25, selected), Skip(vector, selected);
    SkipKeeps(bm25, selected);
    SkipKeeps(vector, selected);
    if b == [] && v == [] {
    } else if !vectorsTurn {
      if b == [] {
        TurnsComplete(bm25, vector, selected, true);
      } else {
        var rest := Turns(b[1..], vector, selected + {b[0]}, true);
        TurnsComplete(b[1..], vector, selected + {b[0]}, true);
        CompletesWithFront(b[0], rest, b, vector, bm25, selected);
      }
    } else {
      if v == [] {
        TurnsComplete(bm25, vector, selected, false);
      } else {
        var rest := Turns(bm25, v[1..], selected + {v[0]}, false);
        TurnsComplete(bm25, v[1..], selected + {v[0]}, false);
        CompletesSwap(rest, bm25, v[1..], selected + {v[0]});
        CompletesWithFront(v[0], rest, v, bm25, vector, selected);
        CompletesSwap([v[0]] + rest, vector, bm25, selected);
      }
    }
  }

  lemma AddFront(hits: seq<Id>, added: seq<Id>)
    requires hits != [] && Distinct(added) && hits[0] !in added
    ensures Distinct([hits[0]] + added)
    ensures SetOf([hits[0]] + added) == SetOf(added) + {hits[0]}
    ensures SetOf(hits) == SetOf(hits[1..]) + {hits[0]}
  {
    assert hits == [hits[0]] + hits[1..];
  }

  // The pool without a maximum holds every id of every list exactly once, the fused list first.
  lemma FullPoolComplete(fused: seq<Id>, bm25: seq<Id>, vector: seq<Id>)
    ensures
      var all := FullPool(fused, bm25, vector);
      && Distinct(all) && Unique(fused) <= all
      && SetOf(all) == SetOf(fused) + SetOf(bm25) + SetOf(vector)
  {
    UniqueIs(fused);
    var added := Turns(bm25, vector, set id | id in fused, false);
    TurnsComplete(bm25, vector, set id | id in fused, false);
    SetOfAppend(Unique(fused), added);
    DistinctAppend(Unique(fused), added);
  }

  // ---------------------------------------------------------------- the selection loop

  lemma {:induction false} SkipIs(hits: seq<Id>, from: nat, to: nat, selected: set<Id>)
    requires from <= to <= |hits|
    requires forall k | from <= k < to :: hits[k] in selected
    requires to < |hits| ==> hits[to] !in selected
    ensures Skip(hits[from..], selected) == hits[to..]
    decreases |hits| - from
  {
    if from < to {
      SkipIs(hits, from + 1, to, selected);
      assert hits[from..][1..] == hits[from + 1..];
    }
  }

  // What is left to add, seen from inside a round.
  function Left(bm25: seq<Id>, vector: seq<Id>, pb: nat, pv: nat, selected: set<Id>, vectorsTurn: bool): seq<Id>
    requires pb <= |bm25| && pv <= |vector|
  {
    Turns(bm25[pb..], vector[pv..], selected, vectorsTurn)
  }

  // The source whose turn it is has no fresh hit.
  lemma TurnPassed(bm25: seq<Id>, vector: seq<Id>, pb: nat, pv: nat, selected: set<Id>)
    requires pb <= |bm25| && pv <= |vector|
    ensures Skip(bm25[pb..], selected) == [] ==>
              Left(bm25, vector, pb, pv, selected, false) == Left(bm25, vector, |bm25|, pv, selected, true)
    ensures Skip(vector[pv..], selected) == [] ==>
              Left(bm25, vector, pb, pv, selected, true) == Left(bm25, vector, pb, |vector|, selected, false)
  {
    assert bm25[|bm25|..] == [] && vector[|vector|..] == [];
    TurnsSkip(bm25[pb..], vector[pv..], selected, true);
    TurnsSkip(bm25[pb..], vector[pv..], selected, false);
  }

  // The source whose turn it is adds its hit at position `p`.
  lemma BM25Adds(bm25: seq<Id>, vector: seq<Id>, pb: nat, pv: nat, selected: set<Id>, p: nat)
    requires pb <= p < |bm25| && pv <= |vector| && Skip(bm25[pb..], selected) == bm25[p..]
    ensures Left(bm25, vector, pb, pv, selected, false)
         == [bm25[p]] + Left(bm25, vector, p + 1, pv, selected + {bm25[p]}, true)
  {
    assert bm25[p..][1..] == bm25[p + 1..];
  }

  lemma VectorAdds(bm25: seq<Id>, vector: seq<Id>, pb: nat, pv: nat, selected: set<Id>, p: nat)
    requires pb <= |bm25| && pv <= p < |vector| && Skip(vector[pv..], selected) == vector[p..]
    ensures Left(bm25, vector, pb, pv, selected, true)
         == [vector[p]] + Left(bm25, vector, pb, p + 1, selected + {vector[p]}, false)
  {
    assert vector[p..][1..] == vector[p + 1..];
  }

  // The lead of one source over the other, after `turn` turns of a round.
  predicate Fair(turn: nat, bm25Added: nat, vectorAdded: nat, bm25Done: bool, vectorDone: bool) {
    if turn == 1 then
      || bm25Added == vectorAdded + 1
      || (bm25Added > vectorAdded + 1 && vectorDone)
      || (bm25Done && (bm25Added == vectorAdded || (bm25Added > vectorAdded && vectorDone) || vectorAdded > bm25Added))
    else
      || bm25Added == vectorAdded
      || (bm25Added > vectorAdded && vectorDone)
      || (vectorAdded > bm25Added && bm25Done)
  }

  // The state of the loop: what is selected, and what an unbounded run would still add.
  ghost predicate Round(all: seq<Id>, bm25: seq<Id>, vector: seq<Id>, ids: seq<Id>, pb: nat, pv: nat, ab: nat,
                        av: nat, turn: nat) {
    && pb <= |bm25| && pv <= |vector|
    && all == ids + Left(bm25, vector, pb, pv, SetOf(ids), turn == 1)
    && (forall k | 0 <= k < pb :: bm25[k] in SetOf(ids))
    && (forall k | 0 <= k < pv :: vector[k] in SetOf(ids))
    && Fair(turn, ab, av, pb == |bm25|, pv == |vector|)
  }

  lemma SelectOne(ids: seq<Id>, id: Id, rest: seq<Id>)
    ensures ids + ([id] + rest) == (ids + [id]) + rest
    ensures SetOf(ids + [id]) == SetOf(ids) + {id}
  {
    assert SetOf([id]) == {id};
    SetOfAppend(ids, [id]);
  }

  lemma RoundStarts(fused: seq<Id>, bm25: seq<Id>, vector: seq<Id>)
    ensures Round(FullPool(fused, bm25, vector), bm25, vector, Unique(fused), 0, 0, 0, 0, 0)
  {
    UniqueIs(fused);
    assert bm25[0..] == bm25 && vector[0..] == vector;
    assert SetOf(Unique(fused)) == set id | id in fused;
  }

  // A turn of BM25 that moves from position `pb` to `p`.
  lemma BM25Turn(all: seq<Id>, bm25: seq<Id>, vector: seq<Id>, ids: seq<Id>, pb: nat, pv: nat, ab: nat, av: nat, p: nat)
    requires Round(all, bm25, vector, ids, pb, pv, ab, av, 0)
    requires pb <= p <= |bm25| && Skip(bm25[pb..], SetOf(ids)) == bm25[p..]
    requires forall k | pb <= k < p :: bm25[k] in SetOf(ids)
    ensures p == |bm25| ==> Round(all, bm25, vector, ids, p, pv, ab, av, 1)
    ensures p < |bm25| ==> Round(all, bm25, vector, ids + [bm25[p]], p + 1, pv, ab + 1, av, 1)
  {
    if p == |bm25| {
      TurnPassed(bm25, vector, pb, pv, SetOf(ids));
    } else {
      BM25Adds(bm25, vector, pb, pv, SetOf(ids), p);
      SelectOne(ids, bm25[p], Left(bm25, vector, p + 1, pv, SetOf(ids) + {bm25[p]}, true));
    }
  }

  lemma VectorTurn(all: seq<Id>, bm25: seq<Id>, vector: seq<Id>, ids: seq<Id>, pb: nat, pv: nat, ab: nat, av: nat,
                   p: nat)
    requires Round(all, bm25, vector, ids, pb, pv, ab, av, 1)
    requires pv <= p <= |vector| && Skip(vector[pv..], SetOf(ids)) == vector[p..]
    requires forall k | pv <= k < p :: vector[k] in SetOf(ids)
    ensures p == |vector| ==> Round(all, bm25, vector, ids, pb, p, ab, av, 0)
    ensures p < |vector| ==> Round(all, bm25, vector, ids + [vector[p]], pb, p + 1, ab, av + 1, 0)
  {
    if p == |vector| {
      TurnPassed(bm25, vector, pb, pv, SetOf(ids));
    } else {
      VectorAdds(bm25, vector, pb, pv, SetOf(ids), p);
      SelectOne(ids, vector[p], Left(bm25, vector, pb, p + 1, SetOf(ids) + {vector[p]}, false));
    }
  }

  // Leaving the loop with a full pool, or with both sources exhausted.
  lemma RoundEnds(all: seq<Id>, bm25: seq<Id>, vector: seq<Id>, ids: seq<Id>, pb: nat, pv: nat, ab: nat, av: nat,
                  turn: nat, maximum: nat)
    requires Round(all, bm25, vector, ids, pb, pv, ab, av, turn) && |ids| <= maximum
    requires |ids| == maximum || (pb == |bm25| && pv == |vector|)
    ensures ids == Take(all, maximum)
    ensures ab > av + 1 ==> SetOf(vector) <= SetOf(ids)
    ensures av > ab ==> SetOf(bm25) <= SetOf(ids)
  {
    assert all[..|ids|] == ids;
  }

  // The first position from `start` on whose hit is not selected.
  method NextFresh(hits: seq<Id>, start: nat, selected: set<Id>) returns (position: nat)
    requires start <= |hits|
    ensures start <= position <= |hits|
    ensures forall k | start <= k < position :: hits[k] in selected
    ensures position < |hits| ==> hits[position] !in selected
    ensures Skip(hits[start..], selected) == hits[position..]
  {
    position := start;
    while position < |hits| && hits[position] in selected
      invariant start <= position <= |hits|
      invariant forall k | start <= k < position :: hits[k] in selected
    {
      position := position + 1;
    }
    SkipIs(hits, start, position, selected);
  }

  // The fused list without repetitions.
  method Deduplicate(fused: seq<Id>) returns (ids: seq<Id>, selected: set<Id>)
    ensures ids == Unique(fused) && |ids| <= |fused|
    ensures selected == SetOf(ids) == set id | id in fused
  {
    ids, selected := [], {};
    for n := 0 to |fused|
      invariant ids == Unique(fused[..n]) && selected == SetOf(ids)
    {
      assert fused[..n + 1][..n] == fused[..n];
      assert fused[n] in selected <==> fused[n] in ids;
      if fused[n] !in selected {
        SelectOne(ids, fused[n], []);
        ids := ids + [fused[n]];
        selected := selected + {fused[n]};
      }
    }
    assert fused[..|fused|] == fused;
    UniqueIs(fused);
  }

  function HitsOf(source: Source, bm25: seq<Id>, vector: seq<Id>): seq<Id> {
    if source == Bm25 then bm25 else vector
  }

  ghost predicate InRound(all: seq<Id>, bm25: seq<Id>, vector: seq<Id>, ids: seq<Id>, selected: set<Id>,
                          positions: map<Source, nat>, additions: map<Source, nat>, next: Source) {
    && positions.Keys == additions.Keys == {Bm25, Vector}
    && selected == SetOf(ids)
    && Round(all, bm25, vector, ids, positions[Bm25], positions[Vector], additions[Bm25], additions[Vector],
             if next == Bm25 then 0 else 1)
  }

  // One turn of a source: its cursor moves past what is selected, and its first fresh hit joins.
  method TakeTurn(ghost all: seq<Id>, bm25: seq<Id>, vector: seq<Id>, source: Source,
                  ids: seq<Id>, selected: set<Id>, positions: map<Source, nat>, additions: map<Source, nat>)
    returns (ids': seq<Id>, selected': set<Id>, positions': map<Source, nat>, additions': map<Source, nat>, added: bool)
    requires InRound(all, bm25, vector, ids, selected, positions, additions, source)
    ensures InRound(all, bm25, vector, ids', selected', positions', additions', if source == Bm25 then Vector else Bm25)
    ensures forall other | other in positions && other != source :: positions'[other] == positions[other]
    ensures positions[source] <= positions'[source] <= |HitsOf(source, bm25, vector)|
    ensures added ==> positions[source] < positions'[source]
    ensures !added ==> positions'[source] == |HitsOf(source, bm25, vector)| && ids' == ids
    ensures added ==> |ids'| == |ids| + 1
    ensures |ids'| - additions'[Bm25] - additions'[Vector] == |ids| - additions[Bm25] - additions[Vector]
  {
    var hits := HitsOf(source, bm25, vector);
    var position := NextFresh(hits, positions[source], selected);
    if source == Bm25 {
      BM25Turn(all, bm25, vector, ids, positions[Bm25], positions[Vector], additions[Bm25], additions[Vector],
               position);
    } else {
      VectorTurn(all, bm25, vector, ids, positions[Bm25], positions[Vector], additions[Bm25], additions[Vector],
                 position);
    }
    ids', selected', additions', added := ids, selected, additions, false;
    positions' := positions[source := position];
    if position < |hits| {
      SelectOne(ids, hits[position], []);
      positions' := positions'[source := position + 1];
      ids' := ids + [hits[position]];
      selected' := selected + {hits[position]};
      additions' := additions[source := additions[source] + 1];
      added := true;
    }
  }

  // Adds hits of the sources in turns until the pool is full or a round adds nothing.
  method AddInTurns(fused: seq<Id>, bm25: seq<Id>, vector: seq<Id>, first: seq<Id>, firstSet: set<Id>, maximum: nat)
    returns (ids: seq<Id>, additions: map<Source, nat>)
    requires first == Unique(fused) && |first| <= maximum && firstSet == SetOf(first) == set id | id in fused
    ensures ids == Take(FullPool(fused, bm25, vector), maximum)
    ensures additions.Keys == {Bm25, Vector} && |ids| == |first| + additions[Bm25] + additions[Vector]
    ensures additions[Bm25] > additions[Vector] + 1 ==> SetOf(vector) <= SetOf(ids)
    ensures additions[Vector] > additions[Bm25] ==> SetOf(bm25) <= SetOf(ids)
  {
    ids := first;
    var selected := firstSet;
    ghost var all := FullPool(fused, bm25, vector);
    var positions: map<Source, nat> := map[Bm25 := 0, Vector := 0];
    additions := map[Bm25 := 0, Vector := 0];
    ghost var next := Bm25;
    RoundStarts(fused, bm25, vector);
    while |ids| < maximum
      invariant InRound(all, bm25, vector, ids, selected, positions, additions, next)
      invariant |ids| <= maximum && (|ids| < maximum ==> next == Bm25)
      invariant |ids| == |first| + additions[Bm25] + additions[Vector]
      decreases |bm25| + |vector| - positions[Bm25] - positions[Vector]
    {
      var addedThisRound := false;
      ghost var before := positions[Bm25] + positions[Vector];
      for turn := 0 to |SOURCES|
        invariant next == if turn == 1 then Vector else Bm25
        invariant InRound(all, bm25, vector, ids, selected, positions, additions, next)
        invariant |ids| < maximum && |ids| == |first| + additions[Bm25] + additions[Vector]
        invariant before <= positions[Bm25] + positions[Vector]
        invariant addedThisRound ==> before < positions[Bm25] + positions[Vector]
        invariant !addedThisRound && turn >= 1 ==> positions[Bm25] == |bm25|
        invariant !addedThisRound && turn >= 2 ==> positions[Vector] == |vector|
      {
        var added;
        ids, selected, positions, additions, added :=
          TakeTurn(all, bm25, vector, SOURCES[turn], ids, selected, positions, additions);
        next := if turn == 0 then Vector else Bm25;
        addedThisRound := addedThisRound || added;
        if |ids| >= maximum {
          break;
        }
      }
      if !addedThisRound {
        break;
      }
    }
    RoundEnds(all, bm25, vector, ids, positions[Bm25], positions[Vector], additions[Bm25], additions[Vector],
              if next == Bm25 then 0 else 1, maximum);
  }

  method SelectPooled(fused: seq<Id>, pools: map<Source, seq<Id>>, maximum: int) returns (r: Result<Pooled, PoolError>)
    ensures r.Success? <==> maximum >= 1 && |fused| <= maximum
    ensures maximum < 1 ==> r == Failure(NonPositiveMaximum)
    ensures r.Success? ==>
              var bm25, vector := Hits(pools, Bm25), Hits(pools, Vector);
              var all := FullPool(fused, bm25, vector);
              var ids, stats := r.value.ids, r.value.stats;
              && ids == Take(all, maximum)
              && stats.rrfCandidates == |fused| && stats.bm25Candidates == |bm25| && stats.vectorCandidates == |vector|
              && stats.pooled == |ids| == |Unique(fused)| + stats.bm25Added + stats.vectorAdded
              // fairness: a source leads only when the other one has nothing left to add
              && (stats.bm25Added > stats.vectorAdded + 1 ==> SetOf(vector) <= SetOf(ids))
              && (stats.vectorAdded > stats.bm25Added ==> SetOf(bm25) <= SetOf(ids))
  {
    if maximum < 1 {
      return Failure(NonPositiveMaximum);
    }
    if |fused| > maximum {
      return Failure(FusedExceedsMaximum);
    }
    var first, selected := Deduplicate(fused);
    var bm25, vector := Hits(pools, Bm25), Hits(pools, Vector);
    var ids, additions := AddInTurns(fused, bm25, vector, first, selected, maximum);
    r := Success(Pooled(ids, Stats(|fused|, |bm25|, |vector|, additions[Bm25], additions[Vector], |ids|)));
  }

  // ---------------------------------------------------------------- what the pool promises

  // The pool starts with the de-duplicated fused list, holds no id twice and stays within the
  // maximum; below the maximum it holds every hit of every source, and raising the maximum only
  // appends to it.
  lemma PoolIsSound(fused: seq<Id>, bm25: seq<Id>, vector: seq<Id>, maximum: nat, larger: nat)
    requires |fused| <= maximum <= larger
    ensures
      var ids := Take(FullPool(fused, bm25, vector), maximum);
      && Distinct(ids) && |ids| <= maximum && Unique(fused) <= ids
      && SetOf(ids) <= SetOf(fused) + SetOf(bm25) + SetOf(vector)
      && (|ids| < maximum ==> SetOf(ids) == SetOf(fused) + SetOf(bm25) + SetOf(vector))
      && ids <= Take(FullPool(fused, bm25, vector), larger)
  {
    UniqueIs(fused);
    FullPoolComplete(fused, bm25, vector);
    var all := FullPool(fused, bm25, vector);
    var ids := Take(all, maximum);
    assert forall id | id in ids :: id in all;
    assert SetOf(ids) <= SetOf(all);
  }
}
