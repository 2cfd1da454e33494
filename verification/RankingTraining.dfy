// What the ranking trainer accepts of a verified labelled snapshot, and which grades it then uses.
module RankingTraining {
  import opened Common
  import opened JsonlReader
  import opened LabelSnapshot
  import opened LabelTheorems

  const MIN_QUERIES := 3

  // ---------------------------------------------------------------- the trainer's check

  // The trainer names a query by the id inside its context, not by the id of the row.
  predicate HasContext(row: Json) {
    && row.Obj? && CONTEXT in row.fields && row.fields[CONTEXT].Obj?
    && QUERY_ID in row.fields[CONTEXT].fields && row.fields[CONTEXT].fields[QUERY_ID].Str?
    && row.fields[CONTEXT].fields[QUERY_ID].s != ""
  }

  function ContextId(row: Json): string
    requires HasContext(row)
  {
    row.fields[CONTEXT].fields[QUERY_ID].s
  }

  predicate HasProducts(row: Json) {
    IsRow(row) && forall k | 0 <= k < |Candidates(row)| :: HasProduct(Candidates(row)[k])
  }

  function Products(row: Json): seq<string>
    requires HasProducts(row)
  {
    seq(|Candidates(row)|, k requires 0 <= k < |Candidates(row)| => Product(Candidates(row)[k]))
  }

  // A candidate with its grade taken off.
  predicate TrainableCandidate(c: Codec, candidate: Json) {
    Graded(candidate) && IsCandidate(c, Ungrade(candidate))
  }

  predicate Trainable(c: Codec, row: Json) {
    && HasContext(row) && IsContext(c, row)
    && HasProducts(row) && Distinct(Products(row))
    && forall k | 0 <= k < |Candidates(row)| :: TrainableCandidate(c, Candidates(row)[k])
  }

  // The record type folds the category once, and the comparison folds it again.
  predicate CategoryFits(c: Codec, candidate: Json, q: Qrel) {
    q.category.Some? ==> HasCategory(candidate) && c.casefold(c.casefold(candidate.fields[CATEGORY].s)) == q.category.value
  }

  predicate CategoriesFit(c: Codec, row: Json, q: Qrel)
    requires IsRow(row)
  {
    forall k | 0 <= k < |Candidates(row)| :: CategoryFits(c, Candidates(row)[k], q)
  }

  // The products of a row are exactly the adjudicated candidates of a query.
  predicate SameProducts(row: Json, q: Qrel)
    requires HasProducts(row)
  {
    SetOf(Products(row)) == SetOf(q.candidateIds) == q.labels.Keys
  }

  predicate GradeIs(candidate: Json, labels: map<string, nat>) {
    && HasProduct(candidate) && Graded(candidate)
    && Product(candidate) in labels && candidate.fields[GRADE].n == labels[Product(candidate)]
  }

  predicate GradesAre(row: Json, q: Qrel)
    requires IsRow(row)
  {
    forall k | 0 <= k < |Candidates(row)| :: GradeIs(Candidates(row)[k], q.labels)
  }

  // One row against the adjudicated grades of the query that its context names.
  ghost predicate RowAgrees(c: Codec, row: Json, qrels: map<string, Qrel>) {
    && Trainable(c, row)
    && ContextId(row) in qrels
    && SameProducts(row, qrels[ContextId(row)])
    && GradesAre(row, qrels[ContextId(row)])
    && CategoriesFit(c, row, qrels[ContextId(row)])
  }

  ghost predicate AgreesWithQrels(c: Codec, rows: seq<Json>, qrels: map<string, Qrel>) {
    && |rows| >= MIN_QUERIES
    && (forall k {:trigger RowAgrees(c, rows[k], qrels)} | 0 <= k < |rows| :: RowAgrees(c, rows[k], qrels))
    && DistinctContexts(rows)
    && forall query {:trigger Asked(rows, query)} | query in qrels :: Asked(rows, query)
  }

  predicate DistinctContexts(rows: seq<Json>) {
    forall j, k {:trigger DifferentContexts(rows[j], rows[k])} | 0 <= j < k < |rows| ::
      DifferentContexts(rows[j], rows[k])
  }

  predicate DifferentContexts(row: Json, other: Json) {
    HasContext(row) && HasContext(other) && ContextId(row) != ContextId(other)
  }

  ghost predicate Asked(rows: seq<Json>, query: string) {
    exists k :: 0 <= k < |rows| && HasContext(rows[k]) && ContextId(rows[k]) == query
  }

  // ---------------------------------------------------------------- one row

  lemma SameContext(committed: Json, labelled: Json)
    requires IsRow(committed) && OneGradeEach(committed, labelled)
    ensures HasContext(committed) == HasContext(labelled)
    ensures HasContext(labelled) ==> ContextId(committed) == ContextId(labelled) &&
                                     committed.fields[CONTEXT] == labelled.fields[CONTEXT]
  {
    assert |CONTEXT| != |CANDIDATES|;
  }

  lemma SameCandidate(committed: Json, labelled: Json)
    requires committed.Obj? && Graded(labelled) && labelled == Grade(committed, labelled.fields[GRADE].n)
    ensures HasProduct(committed) == HasProduct(labelled)
    ensures HasProduct(labelled) ==> Product(committed) == Product(labelled)
    ensures HasCategory(committed) == HasCategory(labelled)
    ensures HasCategory(labelled) ==> committed.fields[CATEGORY] == labelled.fields[CATEGORY]
  {
    assert |PRODUCT_ID| != |GRADE| && |CATEGORY| != |GRADE|;
  }

  lemma SameRowProducts(c: Codec, committed: Json, labelled: Json, q: Qrel)
    requires IsRow(committed) && OneGradeEach(committed, labelled)
    ensures HasProducts(committed) == HasProducts(labelled)
    ensures HasProducts(labelled) ==> Products(committed) == Products(labelled)
    ensures CategoriesFit(c, committed, q) == CategoriesFit(c, labelled, q)
  {
    forall k | 0 <= k < |Candidates(committed)|
      ensures HasProduct(Candidates(committed)[k]) == HasProduct(Candidates(labelled)[k])
      ensures HasProduct(Candidates(labelled)[k]) ==> Product(Candidates(committed)[k]) == Product(Candidates(labelled)[k])
      ensures CategoryFits(c, Candidates(committed)[k], q) == CategoryFits(c, Candidates(labelled)[k], q)
    {
      SameCandidate(Candidates(committed)[k], Candidates(labelled)[k]);
    }
  }

  // A row is determined by its committed row and by the grades it was checked against.
  lemma GradesDetermineRow(committed: Json, labelled: Json, q: Qrel)
    requires IsRow(committed) && OneGradeEach(committed, labelled) && GradesAre(labelled, q)
    ensures Labelled(Candidates(committed), q.labels) && labelled == LabelRow(committed, q.labels)
  {
    var cs := Candidates(committed);
    forall k | 0 <= k < |cs|
      ensures HasLabel(cs[k], q.labels) && Grade(cs[k], LabelOf(cs[k], q.labels)) == Candidates(labelled)[k]
    {
      SameCandidate(cs[k], Candidates(labelled)[k]);
      assert GradeIs(Candidates(labelled)[k], q.labels);
    }
    assert LabelAll(cs, q.labels) == Candidates(labelled);
  }

  // The committed row of a query, labelled with the grades of that query.
  predicate Named(x: Lineage, id: string, query: string) {
    && id in x.rows && IsRow(x.rows[id]) && query in x.qrels
    && Labelled(Candidates(x.rows[id]), x.qrels[query].labels)
  }

  function LabelledAs(x: Lineage, id: string, query: string): Json
    requires Named(x, id, query)
  {
    LabelRow(x.rows[id], x.qrels[query].labels)
  }

  ghost predicate AdjudicatedRow(c: Codec, x: Lineage, row: Json) {
    && HasId(c, row) && RowId(c, row) in x.rows && HasContext(x.rows[RowId(c, row)])
    && Named(x, RowId(c, row), ContextId(x.rows[RowId(c, row)]))
    && row == LabelledAs(x, RowId(c, row), ContextId(x.rows[RowId(c, row)]))
  }

  // ---------------------------------------------------------------- what the trainer accepts

  // The query that the context of a committed row names has just the candidates of the row.
  predicate RowFits(c: Codec, x: Lineage, id: string)
    requires id in x.rows
  {
    var row := x.rows[id];
    && HasContext(row) && ContextId(row) in x.qrels
    && HasProducts(row) && SameProducts(row, x.qrels[ContextId(row)])
    && CategoriesFit(c, row, x.qrels[ContextId(row)])
  }

  // The contexts of the committed rows name every adjudicated query once, and fit it.
  ghost predicate ContextsFit(c: Codec, x: Lineage) {
    && (forall id {:trigger RowFits(c, x, id)} | id in x.rows :: RowFits(c, x, id))
    && CommittedContextsDiffer(x)
    && forall query {:trigger NamedBySome(x, query)} | query in x.qrels :: NamedBySome(x, query)
  }

  predicate CommittedContextsDiffer(x: Lineage) {
    forall id, other | id in x.rows && other in x.rows && id != other :: DifferentContexts(x.rows[id], x.rows[other])
  }

  ghost predicate NamedBySome(x: Lineage, query: string) {
    exists id :: id in x.rows && HasContext(x.rows[id]) && ContextId(x.rows[id]) == query
  }

  // Every committed row once, labelled with the grades of the query that its context names.
  ghost predicate LabelledByContext(c: Codec, x: Lineage, rows: seq<Json>) {
    && DistinctRows(c, rows) && RowIds(c, rows) == x.rows.Keys
    && forall k | 0 <= k < |rows| :: AdjudicatedRow(c, x, rows[k])
  }

  // ---------------------------------------------------------------- the same contexts

  predicate KeepsContext(c: Codec, x: Lineage, row: Json) {
    && HasId(c, row) && RowId(c, row) in x.rows
    && HasContext(row) && HasContext(x.rows[RowId(c, row)]) && ContextId(row) == ContextId(x.rows[RowId(c, row)])
  }

  // Every committed row once, with its context.
  ghost predicate KeepContexts(c: Codec, x: Lineage, rows: seq<Json>) {
    && DistinctRows(c, rows) && RowIds(c, rows) == x.rows.Keys
    && forall k | 0 <= k < |rows| :: KeepsContext(c, x, rows[k])
  }

  lemma ContextsStayDistinct(c: Codec, x: Lineage, rows: seq<Json>)
    requires KeepContexts(c, x, rows)
    ensures DistinctContexts(rows) <==> CommittedContextsDiffer(x)
  {
    if DistinctContexts(rows) {
      forall id, other | id in x.rows && other in x.rows && id != other
        ensures DifferentContexts(x.rows[id], x.rows[other])
      {
        var j := RowOf(c, rows, id);
        var k := RowOf(c, rows, other);
        assert if j < k then DifferentContexts(rows[j], rows[k]) else DifferentContexts(rows[k], rows[j]);
      }
    }
    if CommittedContextsDiffer(x) {
      forall j, k | 0 <= j < k < |rows|
        ensures DifferentContexts(rows[j], rows[k])
      {
        assert RowId(c, rows[j]) != RowId(c, rows[k]);
        assert KeepsContext(c, x, rows[j]) && KeepsContext(c, x, rows[k]);
        assert DifferentContexts(x.rows[RowId(c, rows[j])], x.rows[RowId(c, rows[k])]);
      }
    }
  }

  lemma AskedIsNamed(c: Codec, x: Lineage, rows: seq<Json>, query: string)
    requires KeepContexts(c, x, rows)
    ensures Asked(rows, query) <==> NamedBySome(x, query)
  {
    if Asked(rows, query) {
      var k :| 0 <= k < |rows| && HasContext(rows[k]) && ContextId(rows[k]) == query;
      assert KeepsContext(c, x, rows[k]);
    }
    if NamedBySome(x, query) {
      var id :| id in x.rows && HasContext(x.rows[id]) && ContextId(x.rows[id]) == query;
      var k := RowOf(c, rows, id);
      assert KeepsContext(c, x, rows[k]);
    }
  }

  lemma SameContexts(c: Codec, x: Lineage, rows: seq<Json>)
    requires KeepContexts(c, x, rows)
    ensures DistinctContexts(rows) <==> CommittedContextsDiffer(x)
    ensures forall query :: Asked(rows, query) <==> NamedBySome(x, query)
  {
    ContextsStayDistinct(c, x, rows);
    forall query
      ensures Asked(rows, query) <==> NamedBySome(x, query)
    {
      AskedIsNamed(c, x, rows, query);
    }
  }

  // ---------------------------------------------------------------- what accepted rows are

  lemma AgreeingRow(c: Codec, x: Lineage, row: Json)
    requires HashPins(c) && Committed(c, x.rows, x.committed)
    requires VerifiedRow(c, row, x.committed) && WellFormed(c, row) && RowAgrees(c, row, x.qrels)
    ensures AdjudicatedRow(c, x, row) && RowFits(c, x, RowId(c, row)) && KeepsContext(c, x, row)
  {
    AcceptedRow(c, x, row);
    var committed, q := x.rows[RowId(c, row)], x.qrels[ContextId(row)];
    SameContext(committed, row);
    SameRowProducts(c, committed, row, q);
    GradesDetermineRow(committed, row, q);
  }

  lemma AgreeingRows(c: Codec, x: Lineage, rows: seq<Json>)
    requires HashPins(c) && Committed(c, x.rows, x.committed) && AllWellFormed(c, rows)
    requires VerifiedRows(c, rows, x.committed) && AgreesWithQrels(c, rows, x.qrels)
    ensures LabelledByContext(c, x, rows) && KeepContexts(c, x, rows)
    ensures forall id {:trigger RowFits(c, x, id)} | id in x.rows :: RowFits(c, x, id)
  {
    forall k | 0 <= k < |rows|
      ensures AdjudicatedRow(c, x, rows[k]) && RowFits(c, x, RowId(c, rows[k])) && KeepsContext(c, x, rows[k])
    {
      AgreeingRow(c, x, rows[k]);
    }
    forall id | id in x.rows
      ensures RowFits(c, x, id)
    {
      var k := RowOf(c, rows, id);
    }
  }

  lemma AcceptedContextsFit(c: Codec, x: Lineage, rows: seq<Json>)
    requires KeepContexts(c, x, rows) && AgreesWithQrels(c, rows, x.qrels)
    requires forall id {:trigger RowFits(c, x, id)} | id in x.rows :: RowFits(c, x, id)
    ensures ContextsFit(c, x)
  {
    SameContexts(c, x, rows);
  }

  // ---------------------------------------------------------------- and what passes

  lemma LabelledHasOneGrade(c: Codec, x: Lineage, row: Json)
    requires Fold(c, GRADE) == GRADE && Committed(c, x.rows, x.committed)
    requires AdjudicatedRow(c, x, row) && ValidQrel(x.qrels[ContextId(x.rows[RowId(c, row)])])
    ensures VerifiedRow(c, row, x.committed) && UnlabelRow(row) == x.rows[RowId(c, row)]
    ensures OneGradeEach(x.rows[RowId(c, row)], row)
  {
    var id := RowId(c, row);
    var committed, q := x.rows[id], x.qrels[ContextId(x.rows[id])];
    assert CommittedRow(c, committed, x.committed);
    LabelledRowVerifies(c, committed, x.committed, q);
    UnlabelLabel(c, committed, q.labels);
    GradedRowIs(c, row);
  }

  lemma CommittedProductsDistinct(c: Codec, row: Json)
    requires HasProducts(row) && ProductIdsDistinct(c, Candidates(row))
    ensures Distinct(Products(row))
  {
    var cs := Candidates(row);
    forall j, k | 0 <= j < k < |cs|
      ensures Products(row)[j] != Products(row)[k]
    {
      assert Text(c, cs[j], PRODUCT_ID) != Text(c, cs[k], PRODUCT_ID);
    }
  }

  lemma FittingRowTrains(c: Codec, x: Lineage, row: Json)
    requires Fold(c, GRADE) == GRADE && Committed(c, x.rows, x.committed)
    requires AdjudicatedRow(c, x, row) && RowFits(c, x, RowId(c, row))
    requires ValidQrel(x.qrels[ContextId(x.rows[RowId(c, row)])])
    ensures Trainable(c, row) && ContextId(row) == ContextId(x.rows[RowId(c, row)])
  {
    var id := RowId(c, row);
    var committed, q := x.rows[id], x.qrels[ContextId(x.rows[id])];
    LabelledHasOneGrade(c, x, row);
    SameContext(committed, row);
    SameRowProducts(c, committed, row, q);
    assert CommittedRow(c, committed, x.committed);
    CommittedProductsDistinct(c, committed);
    forall k | 0 <= k < |Candidates(row)|
      ensures TrainableCandidate(c, Candidates(row)[k])
    {
      assert Ungrade(Candidates(row)[k]) == UngradeAll(Candidates(row))[k] == Candidates(committed)[k];
      assert IsCandidate(c, Candidates(committed)[k]);
    }
  }

  lemma FittingRowAgrees(c: Codec, x: Lineage, row: Json)
    requires Fold(c, GRADE) == GRADE && Committed(c, x.rows, x.committed)
    requires AdjudicatedRow(c, x, row) && RowFits(c, x, RowId(c, row))
    requires ValidQrel(x.qrels[ContextId(x.rows[RowId(c, row)])])
    ensures RowAgrees(c, row, x.qrels) && ContextId(row) == ContextId(x.rows[RowId(c, row)])
  {
    var id := RowId(c, row);
    var committed, q := x.rows[id], x.qrels[ContextId(x.rows[id])];
    FittingRowTrains(c, x, row);
    LabelledHasOneGrade(c, x, row);
    SameRowProducts(c, committed, row, q);
    var labelled := LabelAll(Candidates(committed), q.labels);
    assert Candidates(row) == labelled;
    forall k | 0 <= k < |Candidates(row)|
      ensures GradeIs(Candidates(row)[k], q.labels)
    {
      assert HasLabel(Candidates(committed)[k], q.labels);
      assert HasProduct(Candidates(row)[k]);
      SameCandidate(Candidates(committed)[k], Candidates(row)[k]);
    }
  }

  lemma FittingRows(c: Codec, x: Lineage, rows: seq<Json>)
    requires Fold(c, GRADE) == GRADE && Committed(c, x.rows, x.committed)
    requires forall query | query in x.qrels :: ValidQrel(x.qrels[query])
    requires ContextsFit(c, x) && LabelledByContext(c, x, rows)
    ensures KeepContexts(c, x, rows)
    ensures forall k | 0 <= k < |rows| :: VerifiedRow(c, rows[k], x.committed) && RowAgrees(c, rows[k], x.qrels)
  {
    forall k | 0 <= k < |rows|
      ensures VerifiedRow(c, rows[k], x.committed) && RowAgrees(c, rows[k], x.qrels) && KeepsContext(c, x, rows[k])
    {
      assert AdjudicatedRow(c, x, rows[k]) && RowFits(c, x, RowId(c, rows[k]));
      LabelledHasOneGrade(c, x, rows[k]);
      FittingRowAgrees(c, x, rows[k]);
    }
  }

  lemma FittingContextsAgree(c: Codec, x: Lineage, rows: seq<Json>)
    requires KeepContexts(c, x, rows) && ContextsFit(c, x) && |rows| >= MIN_QUERIES
    requires forall k | 0 <= k < |rows| :: RowAgrees(c, rows[k], x.qrels)
    ensures AgreesWithQrels(c, rows, x.qrels)
  {
    SameContexts(c, x, rows);
  }

  lemma AgreeExactly(c: Codec, x: Lineage, rows: seq<Json>)
    requires Faithful(c) && HashPins(c) && Committed(c, x.rows, x.committed) && AllWellFormed(c, rows)
    requires forall query | query in x.qrels :: ValidQrel(x.qrels[query])
    ensures VerifiedRows(c, rows, x.committed) && AgreesWithQrels(c, rows, x.qrels)
       <==> ContextsFit(c, x) && LabelledByContext(c, x, rows) && |rows| >= MIN_QUERIES
  {
    if VerifiedRows(c, rows, x.committed) && AgreesWithQrels(c, rows, x.qrels) {
      AgreeingRows(c, x, rows);
      AcceptedContextsFit(c, x, rows);
    }
    if ContextsFit(c, x) && LabelledByContext(c, x, rows) && |rows| >= MIN_QUERIES {
      FittingRows(c, x, rows);
      FittingContextsAgree(c, x, rows);
    }
  }

  // The rows of a file pass the verifier and the trainer exactly when the committed contexts name
  // every adjudicated query once and fit it, and the rows are the committed ones, each labelled
  // with the grades of the query that its context names.
  lemma AcceptedExactly(c: Codec, x: Lineage, lines: seq<Bytes>, rows: seq<Json>)
    requires Faithful(c) && HashPins(c) && Committed(c, x.rows, x.committed) && ReadRows(c, lines) == Some(rows)
    requires forall query | query in x.qrels :: ValidQrel(x.qrels[query])
    ensures VerifiedRows(c, rows, x.committed) && AgreesWithQrels(c, rows, x.qrels)
       <==> ContextsFit(c, x) && LabelledByContext(c, x, rows) && |rows| >= MIN_QUERIES
  {
    ReadAreWellFormed(c, lines);
    AgreeExactly(c, x, rows);
  }

  // ---------------------------------------------------------------- the grades of a row's own query

  predicate SameGrades(cs: seq<Json>, mine: map<string, nat>, other: map<string, nat>)
    requires forall k | 0 <= k < |cs| :: cs[k].Obj?
    requires Labelled(cs, mine) && Labelled(cs, other)
  {
    forall k | 0 <= k < |cs| :: LabelOf(cs[k], mine) == LabelOf(cs[k], other)
  }

  // A row labelled with the grades of another query has the grades of its own query exactly when
  // the two queries were graded alike, candidate by candidate.
  lemma OwnGradesExactly(x: Lineage, id: string, query: string)
    requires Named(x, id, id) && Named(x, id, query)
    ensures LabelledAs(x, id, query) == LabelledAs(x, id, id)
       <==> SameGrades(Candidates(x.rows[id]), x.qrels[id].labels, x.qrels[query].labels)
  {
    var row, mine, other := x.rows[id], x.qrels[id].labels, x.qrels[query].labels;
    var cs := Candidates(row);
    var ls, ms := LabelAll(cs, mine), LabelAll(cs, other);
    assert LabelRow(row, mine).fields[CANDIDATES] == Arr(ls) && LabelRow(row, other).fields[CANDIDATES] == Arr(ms);
    assert forall k | 0 <= k < |cs| ::
        ls[k].fields[GRADE] == Int(LabelOf(cs[k], mine)) && ms[k].fields[GRADE] == Int(LabelOf(cs[k], other));
    if SameGrades(cs, mine, other) {
      assert ls == ms;
    }
  }

  // The query that the context of a row names was graded like the row's own query.
  predicate GradedAlike(x: Lineage, id: string) {
    && Named(x, id, id) && HasContext(x.rows[id]) && Named(x, id, ContextId(x.rows[id]))
    && SameGrades(Candidates(x.rows[id]), x.qrels[id].labels, x.qrels[ContextId(x.rows[id])].labels)
  }

  predicate AllAlike(x: Lineage) {
    forall id | id in x.rows :: GradedAlike(x, id)
  }

  predicate OwnLabels(c: Codec, x: Lineage, id: string, row: Json) {
    && Named(x, id, id) && row == LabelledAs(x, id, id)
    && HasId(c, row) && RowId(c, row) == id
  }

  // Every committed row once, in this order, labelled with the grades of its own query.
  ghost predicate Materialized(c: Codec, x: Lineage, order: seq<string>, labelled: seq<Json>) {
    && Enumerates(order, x.rows.Keys) && |labelled| == |order|
    && forall n | 0 <= n < |order| :: OwnLabels(c, x, order[n], labelled[n])
  }

  lemma LabelledAreMaterialized(c: Codec, x: Lineage, order: seq<string>, labelled: seq<Json>)
    requires Committed(c, x.rows, x.committed) && LabelledRows(c, x, order, labelled)
    ensures Materialized(c, x, order, labelled)
  {
    forall n | 0 <= n < |order|
      ensures OwnLabels(c, x, order[n], labelled[n])
    {
      assert order[n] in SetOf(order);
      assert QueryLabelable(c, x, order[n]) && CommittedRow(c, x.rows[order[n]], x.committed);
      LabelKeepsId(c, x.rows[order[n]], x.qrels[order[n]].labels);
    }
  }

  lemma OwnRow(c: Codec, x: Lineage, order: seq<string>, labelled: seq<Json>, row: Json)
    requires Materialized(c, x, order, labelled) && AdjudicatedRow(c, x, row)
    ensures row in labelled <==> GradedAlike(x, RowId(c, row))
  {
    var id := RowId(c, row);
    assert id in SetOf(order);
    var n: nat :| n < |order| && order[n] == id;
    assert OwnLabels(c, x, order[n], labelled[n]);
    OwnGradesExactly(x, id, ContextId(x.rows[id]));
    if row in labelled {
      var m: nat :| m < |labelled| && labelled[m] == row;
      assert OwnLabels(c, x, order[m], labelled[m]);
    }
  }

  lemma RowWithId(c: Codec, x: Lineage, id: string, row: Json, rows: seq<Json>)
    requires OwnLabels(c, x, id, row) && LabelledByContext(c, x, rows) && GradedAlike(x, id)
    ensures row in rows
  {
    var k := RowOf(c, rows, id);
    assert AdjudicatedRow(c, x, rows[k]);
    OwnGradesExactly(x, id, ContextId(x.rows[id]));
  }

  // Which rows two arrangements share decides whether they are the same rows.
  lemma SharedRows(c: Codec, x: Lineage, labelled: seq<Json>, rows: seq<Json>)
    requires DistinctRows(c, rows) && RowIds(c, rows) == x.rows.Keys
    requires forall k | 0 <= k < |rows| :: rows[k] in labelled <==> GradedAlike(x, RowId(c, rows[k]))
    requires AllAlike(x) ==> forall n | 0 <= n < |labelled| :: labelled[n] in rows
    ensures SetOf(rows) == SetOf(labelled) <==> AllAlike(x)
  {
    if SetOf(rows) == SetOf(labelled) {
      forall id | id in x.rows
        ensures GradedAlike(x, id)
      {
        var k := RowOf(c, rows, id);
        assert rows[k] in SetOf(rows);
      }
    }
  }

  lemma OwnRows(c: Codec, x: Lineage, order: seq<string>, labelled: seq<Json>, rows: seq<Json>)
    requires Materialized(c, x, order, labelled) && LabelledByContext(c, x, rows)
    ensures forall k | 0 <= k < |rows| :: rows[k] in labelled <==> GradedAlike(x, RowId(c, rows[k]))
    ensures AllAlike(x) ==> forall n | 0 <= n < |labelled| :: labelled[n] in rows
  {
    forall k | 0 <= k < |rows|
      ensures rows[k] in labelled <==> GradedAlike(x, RowId(c, rows[k]))
    {
      OwnRow(c, x, order, labelled, rows[k]);
    }
    if AllAlike(x) {
      forall n | 0 <= n < |labelled|
        ensures labelled[n] in rows
      {
        assert OwnLabels(c, x, order[n], labelled[n]) && GradedAlike(x, order[n]);
        RowWithId(c, x, order[n], labelled[n], rows);
      }
    }
  }

  // Rows labelled by their contexts are the materialised ones exactly when every context names a
  // query that was graded like the row's own.
  lemma ByContextIsMaterialized(c: Codec, x: Lineage, order: seq<string>, labelled: seq<Json>, rows: seq<Json>)
    requires Materialized(c, x, order, labelled) && LabelledByContext(c, x, rows)
    ensures SetOf(rows) == SetOf(labelled) <==> AllAlike(x)
  {
    OwnRows(c, x, order, labelled, rows);
    SharedRows(c, x, labelled, rows);
  }

  predicate OwnContexts(x: Lineage) {
    forall id | id in x.rows :: HasContext(x.rows[id]) && ContextId(x.rows[id]) == id
  }

  lemma OwnContextsAreAlike(c: Codec, x: Lineage, rows: seq<Json>)
    requires LabelledByContext(c, x, rows) && OwnContexts(x)
    ensures AllAlike(x)
  {
    forall id | id in x.rows
      ensures GradedAlike(x, id)
    {
      var k := RowOf(c, rows, id);
      assert AdjudicatedRow(c, x, rows[k]);
    }
  }

  // Accepted rows are exactly the materialised ones, in some order, if and only if every context
  // names a query that was graded like the row's own; naming the own query is enough.
  lemma AcceptedAreMaterialized(c: Codec, x: Lineage, order: seq<string>, labelled: seq<Json>, lines: seq<Bytes>,
                                rows: seq<Json>)
    requires Faithful(c) && HashPins(c) && Committed(c, x.rows, x.committed) && ReadRows(c, lines) == Some(rows)
    requires LabelledRows(c, x, order, labelled)
    requires VerifiedRows(c, rows, x.committed) && AgreesWithQrels(c, rows, x.qrels)
    ensures SetOf(rows) == SetOf(labelled) <==> AllAlike(x)
    ensures OwnContexts(x) ==> AllAlike(x)
  {
    ReadAreWellFormed(c, lines);
    AgreeingRows(c, x, rows);
    LabelledAreMaterialized(c, x, order, labelled);
    ByContextIsMaterialized(c, x, order, labelled, rows);
    if OwnContexts(x) {
      OwnContextsAreAlike(c, x, rows);
    }
  }

  // The materialised rows pass the trainer exactly when the contexts fit and name queries that
  // were graded alike.
  lemma MaterializedTrainsExactly(c: Codec, x: Lineage, order: seq<string>, labelled: seq<Json>)
    requires Faithful(c) && HashPins(c) && Committed(c, x.rows, x.committed) && LabelledRows(c, x, order, labelled)
    requires forall query | query in x.qrels :: ValidQrel(x.qrels[query])
    ensures AgreesWithQrels(c, labelled, x.qrels) <==> ContextsFit(c, x) && AllAlike(x) && |labelled| >= MIN_QUERIES
  {
    LabelledRowsVerify(c, x, order, labelled);
    LabelledAreWellFormed(c, x, order, labelled);
    LabelledAreMaterialized(c, x, order, labelled);
    AgreeExactly(c, x, labelled);
    if LabelledByContext(c, x, labelled) {
      ByContextIsMaterialized(c, x, order, labelled, labelled);
    }
    if AllAlike(x) {
      AlikeIsByContext(c, x, order, labelled);
    }
  }

  lemma AlikeIsByContext(c: Codec, x: Lineage, order: seq<string>, labelled: seq<Json>)
    requires Materialized(c, x, order, labelled) && AllAlike(x)
    requires DistinctRows(c, labelled) && RowIds(c, labelled) == x.rows.Keys
    ensures LabelledByContext(c, x, labelled)
  {
    forall n | 0 <= n < |labelled|
      ensures AdjudicatedRow(c, x, labelled[n])
    {
      assert OwnLabels(c, x, order[n], labelled[n]) && GradedAlike(x, order[n]);
      OwnGradesExactly(x, order[n], ContextId(x.rows[order[n]]));
    }
  }

  // ---------------------------------------------------------------- contexts that name other queries

  lemma FitsIsNamed(c: Codec, x: Lineage, id: string)
    requires id in x.rows && RowFits(c, x, id)
    ensures Named(x, id, ContextId(x.rows[id]))
  {
    var row, q := x.rows[id], x.qrels[ContextId(x.rows[id])];
    forall k | 0 <= k < |Candidates(row)|
      ensures HasLabel(Candidates(row)[k], q.labels)
    {
      assert Products(row)[k] in SetOf(Products(row));
    }
  }

  predicate NamesQuery(x: Lineage, id: string) {
    id in x.rows && HasContext(x.rows[id]) && Named(x, id, ContextId(x.rows[id]))
  }

  // A row with the grades of the query that its context names.
  function RowByContext(x: Lineage, id: string): Json
    requires NamesQuery(x, id)
  {
    LabelledAs(x, id, ContextId(x.rows[id]))
  }

  function ByContext(x: Lineage, order: seq<string>): (rows: seq<Json>)
    requires forall k | 0 <= k < |order| :: NamesQuery(x, order[k])
    ensures |rows| == |order| && forall k | 0 <= k < |rows| :: rows[k] == RowByContext(x, order[k])
  {
    seq(|order|, k requires 0 <= k < |order| => RowByContext(x, order[k]))
  }

  lemma FittingNames(c: Codec, x: Lineage, order: seq<string>)
    requires Enumerates(order, x.rows.Keys) && forall id {:trigger RowFits(c, x, id)} | id in x.rows ::
               RowFits(c, x, id)
    ensures forall k | 0 <= k < |order| :: NamesQuery(x, order[k])
  {
    forall k | 0 <= k < |order|
      ensures NamesQuery(x, order[k])
    {
      assert order[k] in SetOf(order);
      FitsIsNamed(c, x, order[k]);
    }
  }

  lemma ByContextAt(c: Codec, x: Lineage, id: string)
    requires Committed(c, x.rows, x.committed) && NamesQuery(x, id)
    ensures AdjudicatedRow(c, x, RowByContext(x, id)) && RowId(c, RowByContext(x, id)) == id
  {
    assert CommittedRow(c, x.rows[id], x.committed);
    LabelKeepsId(c, x.rows[id], x.qrels[ContextId(x.rows[id])].labels);
  }

  lemma ByContextIs(c: Codec, x: Lineage, order: seq<string>)
    requires Committed(c, x.rows, x.committed) && Enumerates(order, x.rows.Keys)
    requires forall k | 0 <= k < |order| :: NamesQuery(x, order[k])
    ensures LabelledByContext(c, x, ByContext(x, order))
  {
    forall k | 0 <= k < |order|
      ensures AdjudicatedRow(c, x, ByContext(x, order)[k]) && RowId(c, ByContext(x, order)[k]) == order[k]
    {
      ByContextAt(c, x, order[k]);
    }
    InOrderIsOnce(c, ByContext(x, order), order, x.rows.Keys);
  }

  lemma LabelByContext(c: Codec, x: Lineage, order: seq<string>) returns (rows: seq<Json>)
    requires Committed(c, x.rows, x.committed) && Enumerates(order, x.rows.Keys)
    requires forall id {:trigger RowFits(c, x, id)} | id in x.rows :: RowFits(c, x, id)
    ensures LabelledByContext(c, x, rows) && |rows| == |order|
  {
    FittingNames(c, x, order);
    rows := ByContext(x, order);
    ByContextIs(c, x, order);
  }

  lemma ByContextAreWellFormed(c: Codec, x: Lineage, rows: seq<Json>)
    requires Faithful(c) && Committed(c, x.rows, x.committed) && LabelledByContext(c, x, rows)
    requires forall query | query in x.qrels :: ValidQrel(x.qrels[query])
    ensures AllWellFormed(c, rows) && forall k | 0 <= k < |rows| :: rows[k].Obj?
  {
    forall k | 0 <= k < |rows|
      ensures WellFormed(c, rows[k]) && rows[k].Obj?
    {
      assert AdjudicatedRow(c, x, rows[k]);
      var id := RowId(c, rows[k]);
      assert CommittedRow(c, x.rows[id], x.committed) && ValidQrel(x.qrels[ContextId(x.rows[id])]);
      LabelledIsWellFormed(c, x.rows[id], x.qrels[ContextId(x.rows[id])].labels);
    }
  }

  // Contexts that fit make the file of the rows labelled by them pass, however they name the
  // queries.
  lemma ByContextPasses(c: Codec, x: Lineage, rows: seq<Json>)
    requires Faithful(c) && Committed(c, x.rows, x.committed) && Bound(x.evidence, x.committed, x.snapshotSha)
    requires forall query | query in x.qrels :: ValidQrel(x.qrels[query])
    requires ContextsFit(c, x) && LabelledByContext(c, x, rows)
    ensures Accepted(c, Encode(c, rows), x.committed, x.snapshotSha, x.evidence) <==> AllFit(c, rows)
  {
    FittingRows(c, x, rows);
    ByContextAreWellFormed(c, x, rows);
    ReadEncoded(c, rows);
  }

  lemma ByContextAgrees(c: Codec, x: Lineage, rows: seq<Json>)
    requires Fold(c, GRADE) == GRADE && Committed(c, x.rows, x.committed)
    requires forall query | query in x.qrels :: ValidQrel(x.qrels[query])
    requires ContextsFit(c, x) && LabelledByContext(c, x, rows) && |rows| >= MIN_QUERIES
    ensures AgreesWithQrels(c, rows, x.qrels)
  {
    FittingRows(c, x, rows);
    FittingContextsAgree(c, x, rows);
  }
}
