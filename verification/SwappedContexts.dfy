// Commitments in which two contexts name each other's query: their rows pass every check with
// each other's grades.
module SwappedContexts {
  import opened Common
  import opened LabelSnapshot
  import opened LabelTheorems
  import opened RankingTraining

  function Partner(a: string, b: string, id: string): string {
    if id == a then b else if id == b then a else id
  }

  // The contexts of two rows name each other's query and the others their own.  The two queries
  // have the same candidates, and every candidate has the category of its own query.
  ghost predicate Swapped(c: Codec, x: Lineage, a: string, b: string) {
    && a in x.qrels && b in x.qrels
    && x.qrels[a].labels.Keys == x.qrels[b].labels.Keys && x.qrels[a].category == x.qrels[b].category
    && forall id {:trigger SwappedRow(c, x, a, b, id)} | id in x.rows :: SwappedRow(c, x, a, b, id)
  }

  predicate SwappedRow(c: Codec, x: Lineage, a: string, b: string, id: string)
    requires id in x.rows
  {
    && HasContext(x.rows[id]) && ContextId(x.rows[id]) == Partner(a, b, id)
    && IsRow(x.rows[id]) && id in x.qrels && CategoriesFit(c, x.rows[id], x.qrels[id])
  }

  function Texts(c: Codec, row: Json): seq<Option<string>>
    requires IsRow(row)
  {
    seq(|Candidates(row)|, k requires 0 <= k < |Candidates(row)| => Text(c, Candidates(row)[k], PRODUCT_ID))
  }

  lemma TextsAreCandidates(c: Codec, row: Json, q: Qrel, g: Group)
    requires IsRow(row) && ProductIdsDistinct(c, Candidates(row)) && SameCandidates(c, row, q, g)
    ensures |SetOf(Texts(c, row))| == |Candidates(row)|
    ensures SetOf(Texts(c, row)) == set id | id in q.labels.Keys :: Some(id)
  {
    var cs := Candidates(row);
    SetSize(Texts(c, row));
    forall id | id in q.labels.Keys
      ensures Some(id) in Texts(c, row)
    {
      var k :| 0 <= k < |cs| && Text(c, cs[k], PRODUCT_ID) == Some(id);
      assert Texts(c, row)[k] == Some(id);
    }
  }

  lemma {:induction false} SomeSize(s: set<string>)
    ensures |set id | id in s :: Some(id)| == |s|
  {
    if s != {} {
      var x :| x in s;
      SomeSize(s - {x});
      assert (set id | id in s :: Some(id)) == (set id | id in s - {x} :: Some(id)) + {Some(x)};
    }
  }

  lemma ProductsAreCandidates(row: Json, q: Qrel)
    requires HasProducts(row) && Labelled(Candidates(row), q.labels)
    ensures SetOf(Products(row)) <= q.labels.Keys
  {
    forall id | id in SetOf(Products(row))
      ensures id in q.labels.Keys
    {
      var k :| 0 <= k < |Candidates(row)| && Products(row)[k] == id;
      assert HasLabel(Candidates(row)[k], q.labels);
    }
  }

  // The products of a row as written are exactly the adjudicated candidates of its query: there
  // are as many of them, and each is one.
  lemma OwnProducts(c: Codec, row: Json, q: Qrel, g: Group)
    requires HasProducts(row) && ProductIdsDistinct(c, Candidates(row))
    requires SameCandidates(c, row, q, g) && Labelled(Candidates(row), q.labels)
    ensures SameProducts(row, q)
  {
    CommittedProductsDistinct(c, row);
    SetSize(Products(row));
    TextsAreCandidates(c, row, q, g);
    SomeSize(q.labels.Keys);
    ProductsAreCandidates(row, q);
    SameSize(SetOf(Products(row)), q.labels.Keys);
  }

  predicate OwnCandidates(x: Lineage, id: string) {
    id in x.rows && id in x.qrels && HasProducts(x.rows[id]) && SameProducts(x.rows[id], x.qrels[id])
  }

  lemma CommittedProducts(c: Codec, row: Json, committed: map<string, Digest>)
    requires CommittedRow(c, row, committed)
    ensures HasProducts(row)
  {
    forall k | 0 <= k < |Candidates(row)|
      ensures HasProduct(Candidates(row)[k])
    {
      assert IsCandidate(c, Candidates(row)[k]);
    }
  }

  lemma LabelableProducts(c: Codec, x: Lineage, id: string)
    requires Committed(c, x.rows, x.committed) && AllLabelable(c, x) && id in x.rows
    ensures OwnCandidates(x, id) && Named(x, id, id)
  {
    assert QueryLabelable(c, x, id) && CommittedRow(c, x.rows[id], x.committed);
    CommittedProducts(c, x.rows[id], x.committed);
    OwnProducts(c, x.rows[id], x.qrels[id], x.evidence[id]);
  }

  lemma SameCategory(c: Codec, row: Json, q: Qrel, other: Qrel)
    requires IsRow(row) && CategoriesFit(c, row, q) && q.category == other.category
    ensures CategoriesFit(c, row, other)
  {
    forall k | 0 <= k < |Candidates(row)|
      ensures CategoryFits(c, Candidates(row)[k], other)
    {
      assert CategoryFits(c, Candidates(row)[k], q);
    }
  }

  lemma SwappedRowFits(c: Codec, x: Lineage, a: string, b: string, id: string)
    requires a in x.qrels && b in x.qrels
    requires x.qrels[a].labels.Keys == x.qrels[b].labels.Keys && x.qrels[a].category == x.qrels[b].category
    requires id in x.rows && SwappedRow(c, x, a, b, id)
    requires OwnCandidates(x, id) && OwnCandidates(x, Partner(a, b, id))
    ensures RowFits(c, x, id)
  {
    SameCategory(c, x.rows[id], x.qrels[id], x.qrels[Partner(a, b, id)]);
  }

  lemma SwappedContextsDiffer(c: Codec, x: Lineage, a: string, b: string)
    requires forall id {:trigger SwappedRow(c, x, a, b, id)} | id in x.rows :: SwappedRow(c, x, a, b, id)
    ensures CommittedContextsDiffer(x)
  {
    forall id, other | id in x.rows && other in x.rows && id != other
      ensures DifferentContexts(x.rows[id], x.rows[other])
    {
      assert SwappedRow(c, x, a, b, id) && SwappedRow(c, x, a, b, other);
    }
  }

  lemma SwappedContextsName(c: Codec, x: Lineage, a: string, b: string)
    requires a in x.rows && b in x.rows && forall id {:trigger SwappedRow(c, x, a, b,
                                                                          id)} | id in x.rows ::
               SwappedRow(c, x, a, b, id)
    ensures forall query {:trigger NamedBySome(x, query)} | query in x.rows :: NamedBySome(x, query)
  {
    forall query | query in x.rows
      ensures NamedBySome(x, query)
    {
      assert SwappedRow(c, x, a, b, Partner(a, b, query));
    }
  }

  lemma SwappedRowsFit(c: Codec, x: Lineage, a: string, b: string)
    requires Swapped(c, x, a, b) && x.rows.Keys == x.qrels.Keys
    requires forall id | id in x.rows.Keys :: OwnCandidates(x, id)
    ensures forall id {:trigger RowFits(c, x, id)} | id in x.rows :: RowFits(c, x, id)
  {
    forall id | id in x.rows
      ensures RowFits(c, x, id)
    {
      assert SwappedRow(c, x, a, b, id) && Partner(a, b, id) in x.rows.Keys;
      SwappedRowFits(c, x, a, b, id);
    }
  }

  lemma SwappedContextsFit(c: Codec, x: Lineage, a: string, b: string)
    requires Swapped(c, x, a, b) && x.rows.Keys == x.qrels.Keys
    requires forall id {:trigger RowFits(c, x, id)} | id in x.rows :: RowFits(c, x, id)
    ensures ContextsFit(c, x)
  {
    assert a in x.rows.Keys && b in x.rows.Keys;
    SwappedContextsDiffer(c, x, a, b);
    SwappedContextsName(c, x, a, b);
  }

  lemma SwappedRows(c: Codec, x: Lineage, rows: seq<Json>, a: string, b: string)
    requires LabelledByContext(c, x, rows) && Named(x, a, a) && HasContext(x.rows[a]) && ContextId(x.rows[a]) == b
    requires HasId(c, LabelledAs(x, a, a)) && RowId(c, LabelledAs(x, a, a)) == a
    ensures Named(x, a, b) && LabelledAs(x, a, b) in rows
    ensures LabelledAs(x, a, a) in rows
       <==> SameGrades(Candidates(x.rows[a]), x.qrels[a].labels, x.qrels[b].labels)
  {
    assert a in x.rows.Keys;
    var k := RowOf(c, rows, a);
    assert AdjudicatedRow(c, x, rows[k]);
    OwnGradesExactly(x, a, b);
    if LabelledAs(x, a, a) in rows {
      var j: nat :| j < |rows| && rows[j] == LabelledAs(x, a, a);
    }
  }

  lemma SwappedCommitmentFits(c: Codec, x: Lineage, a: string, b: string)
    requires Committed(c, x.rows, x.committed) && AllLabelable(c, x)
    requires Swapped(c, x, a, b)
    ensures ContextsFit(c, x)
  {
    forall id | id in x.rows.Keys
      ensures OwnCandidates(x, id)
    {
      LabelableProducts(c, x, id);
    }
    SwappedRowsFit(c, x, a, b);
    SwappedContextsFit(c, x, a, b);
  }

  lemma OwnLabelsHaveId(c: Codec, x: Lineage, id: string)
    requires Committed(c, x.rows, x.committed) && Named(x, id, id)
    ensures HasId(c, LabelledAs(x, id, id)) && RowId(c, LabelledAs(x, id, id)) == id
  {
    assert CommittedRow(c, x.rows[id], x.committed);
    LabelKeepsId(c, x.rows[id], x.qrels[id].labels);
  }

  lemma SwappedFacts(c: Codec, x: Lineage, a: string, b: string)
    requires Committed(c, x.rows, x.committed) && AllLabelable(c, x) && Swapped(c, x, a, b)
    ensures Named(x, a, a) && HasContext(x.rows[a]) && ContextId(x.rows[a]) == b
    ensures HasId(c, LabelledAs(x, a, a)) && RowId(c, LabelledAs(x, a, a)) == a
  {
    assert a in x.rows.Keys && SwappedRow(c, x, a, b, a);
    LabelableProducts(c, x, a);
    OwnLabelsHaveId(c, x, a);
  }

  lemma SwappedGrades(c: Codec, x: Lineage, rows: seq<Json>, a: string, b: string)
    requires Committed(c, x.rows, x.committed) && AllLabelable(c, x) && Swapped(c, x, a, b) &&
             LabelledByContext(c, x, rows)
    ensures Named(x, a, a) && Named(x, a, b) && LabelledAs(x, a, b) in rows
    ensures LabelledAs(x, a, a) in rows
       <==> SameGrades(Candidates(x.rows[a]), x.qrels[a].labels, x.qrels[b].labels)
  {
    SwappedFacts(c, x, a, b);
    SwappedRows(c, x, rows, a, b);
  }

  lemma SwappedFile(c: Codec, x: Lineage, order: seq<string>, a: string, b: string) returns (rows: seq<Json>)
    requires Faithful(c) && Committed(c, x.rows, x.committed) && AllLabelable(c, x) && Enumerates(order, x.rows.Keys)
    requires forall query | query in x.qrels :: ValidQrel(x.qrels[query])
    requires Swapped(c, x, a, b) && |order| >= MIN_QUERIES
    ensures LabelledByContext(c, x, rows) && AgreesWithQrels(c, rows, x.qrels)
    ensures Accepted(c, Encode(c, rows), x.committed, x.snapshotSha, x.evidence) <==> AllFit(c, rows)
  {
    SwappedCommitmentFits(c, x, a, b);
    LabelableIsBound(c, x);
    rows := LabelByContext(c, x, order);
    ByContextPasses(c, x, rows);
    ByContextAgrees(c, x, rows);
  }

  // Any labelable commitment of three or more queries in which two queries with the same
  // candidates are named by each other's contexts.  The rows labelled by their contexts pass the
  // verifier and the trainer, and the row of either query carries the grades of the other one
  // unless both were graded alike.
  lemma {:induction false} SwappedContextsPass(c: Codec, x: Lineage, order: seq<string>, a: string,
                                               b: string) returns (rows: seq<Json>)
    requires Faithful(c) && Committed(c, x.rows, x.committed) && AllLabelable(c, x) && Enumerates(order, x.rows.Keys)
    requires forall query | query in x.qrels :: ValidQrel(x.qrels[query])
    requires Swapped(c, x, a, b) && |order| >= MIN_QUERIES
    ensures Accepted(c, Encode(c, rows), x.committed, x.snapshotSha, x.evidence) <==> AllFit(c, rows)
    ensures AgreesWithQrels(c, rows, x.qrels)
    ensures Named(x, a, a) && Named(x, a, b) && LabelledAs(x, a, b) in rows
    ensures LabelledAs(x, a, a) in rows
       <==> SameGrades(Candidates(x.rows[a]), x.qrels[a].labels, x.qrels[b].labels)
  {
    rows := SwappedFile(c, x, order, a, b);
    SwappedGrades(c, x, rows, a, b);
  }
}
