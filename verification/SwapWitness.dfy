// Three committed rows, two of which name each other: a concrete snapshot whose rows pass every
// check with each other's grades.
module SwapWitness {
  import opened Common
  import opened LabelSnapshot
  import opened LabelTheorems
  import opened RankingTraining
  import opened SwappedContexts
  import opened PlainCodec

  const CANDIDATE: Json := Obj(map[PRODUCT_ID := Str("p"), CATEGORY := Str("cpu")])

  function Row(id: string, query: string): Json {
    Obj(map[SCHEMA := Str(ROW_SCHEMA), QUERY_ID := Str(id), CATEGORY := Str("cpu"),
            CONTEXT := Obj(map[QUERY_ID := Str(query)]), CANDIDATES := Arr([CANDIDATE])])
  }

  function QrelWith(grade: nat): Qrel {
    Qrel(None, Some("cpu"), ["p"], map["p" := grade])
  }

  function GroupFor(rowSha: Digest): Group {
    Group(None, "cpu", 0, rowSha, None, {"p"})
  }

  ghost function Sha(id: string, query: string): Digest {
    Plain().hash(Row(id, query))
  }

  function GradeAt(b: string, id: string): nat {
    if id == b then 2 else 1
  }

  // The rows `a` and `b` name each other, and `b` has the better grade.
  ghost function Snapshot(a: string, b: string, c: string): Lineage {
    Lineage(map id | id in {a, b, c} :: Row(id, Partner(a, b, id)),
            map id | id in {a, b, c} :: Sha(id, Partner(a, b, id)), 0,
            map id | id in {a, b, c} :: QrelWith(GradeAt(b, id)),
            map id | id in {a, b, c} :: GroupFor(Sha(id, Partner(a, b, id))))
  }

  lemma FieldNamesDiffer()
    ensures Distinct([SCHEMA, QUERY_ID, CATEGORY, CONTEXT, CANDIDATES, GROUP_ID, CANDIDATE_HASH]) &&
            PRODUCT_ID != CATEGORY
  {
    assert |SCHEMA| == 14 && |QUERY_ID| == 8 && |CATEGORY| == 8 && |CONTEXT| == 7 && |CANDIDATES| == 10;
    assert |GROUP_ID| == 14 && |CANDIDATE_HASH| == 20 && |PRODUCT_ID| == 10;
    assert QUERY_ID[0] == 'q' && CATEGORY[0] == 'c' && SCHEMA[0] == 's' && GROUP_ID[0] == 'q';
  }

  lemma FieldNamesAllowed()
    ensures SCHEMA !in FORBIDDEN && QUERY_ID !in FORBIDDEN && CATEGORY !in FORBIDDEN
    ensures CONTEXT !in FORBIDDEN && CANDIDATES !in FORBIDDEN && PRODUCT_ID !in FORBIDDEN
  {
    assert |SCHEMA| == 14 && |QUERY_ID| == 8 && |CATEGORY| == 8 && |CONTEXT| == 7 && |CANDIDATES| == 10 &&
           |PRODUCT_ID| == 10;
    assert QUERY_ID[0] == 'q' && CATEGORY[0] == 'c';
    assert forall name | name in FORBIDDEN :: |name| == 8 ==> name[0] == 'j' || name[0] == 'r';
  }

  lemma FreeObject(fields: map<string, Json>)
    requires forall key | key in fields :: key !in FORBIDDEN && LabelFree(Plain(), fields[key])
    ensures LabelFree(Plain(), Obj(fields))
  {
    assert forall key | key in fields :: Fold(Plain(), key) == key;
  }

  lemma FreeText(text: string)
    ensures LabelFree(Plain(), Str(text))
  {
  }

  lemma FreePair(a: string, b: string, v: Json, w: Json)
    requires {a, b} !! FORBIDDEN && LabelFree(Plain(), v) && LabelFree(Plain(), w)
    ensures LabelFree(Plain(), Arr([Obj(map[a := v, b := w])]))
  {
    var fields := map[a := v, b := w];
    forall key | key in fields
      ensures key !in FORBIDDEN && LabelFree(Plain(), fields[key])
    {
      assert key in {a, b};
    }
    FreeObject(fields);
  }

  lemma CandidatesAreFree()
    ensures LabelFree(Plain(), Arr([CANDIDATE]))
  {
    assert {PRODUCT_ID, CATEGORY} !! FORBIDDEN by {
      FieldNamesAllowed();
    }
    FreePair(PRODUCT_ID, CATEGORY, Str("p"), Str("cpu"));
  }

  lemma ContextIsFree(query: string)
    ensures LabelFree(Plain(), Obj(map[QUERY_ID := Str(query)]))
  {
    FieldNamesAllowed();
    FreeText(query);
    FreeObject(map[QUERY_ID := Str(query)]);
  }

  lemma FreeRow(a: string, b: string, c: string, d: string, e: string, v: Json, w: Json, x: Json, y: Json, z: Json)
    requires {a, b, c, d, e} !! FORBIDDEN
    requires LabelFree(Plain(), v) && LabelFree(Plain(), w) && LabelFree(Plain(), x) && LabelFree(Plain(), y) &&
             LabelFree(Plain(), z)
    ensures LabelFree(Plain(), Obj(map[a := v, b := w, c := x, d := y, e := z]))
  {
    var fields := map[a := v, b := w, c := x, d := y, e := z];
    forall key | key in fields
      ensures key !in FORBIDDEN && LabelFree(Plain(), fields[key])
    {
      assert key in {a, b, c, d, e};
    }
    FreeObject(fields);
  }

  lemma RowIsLabelFree(id: string, query: string)
    ensures LabelFree(Plain(), Row(id, query))
  {
    assert {SCHEMA, QUERY_ID, CATEGORY, CONTEXT, CANDIDATES} !! FORBIDDEN by {
      FieldNamesAllowed();
    }
    var context, candidates := Obj(map[QUERY_ID := Str(query)]), Arr([CANDIDATE]);
    assert LabelFree(Plain(), context) by {
      ContextIsFree(query);
    }
    assert LabelFree(Plain(), candidates) by {
      CandidatesAreFree();
    }
    FreeText(ROW_SCHEMA);
    FreeText(id);
    FreeText("cpu");
    FreeRow(SCHEMA, QUERY_ID, CATEGORY, CONTEXT, CANDIDATES, Str(ROW_SCHEMA), Str(id), Str("cpu"), context, candidates);
  }

  // Looking up seven different names among five of them.
  lemma Lookup(n: seq<string>, v: seq<Json>)
    requires |n| == 7 && Distinct(n) && |v| == 5
    ensures var fields := map[n[0] := v[0], n[1] := v[1], n[2] := v[2], n[3] := v[3], n[4] := v[4]];
            && n[0] in fields && n[1] in fields && n[2] in fields && n[3] in fields && n[4] in fields
            && fields[n[0]] == v[0] && fields[n[1]] == v[1] && fields[n[2]] == v[2] && fields[n[3]] == v[3] &&
               fields[n[4]] == v[4]
            && n[5] !in fields && n[6] !in fields
  {
  }

  lemma RowLookup(id: string, query: string)
    ensures var fields := Row(id, query).fields;
            && SCHEMA in fields && QUERY_ID in fields && CATEGORY in fields && CONTEXT in fields && CANDIDATES in fields
            && fields[SCHEMA] == Str(ROW_SCHEMA) && fields[QUERY_ID] == Str(id) && fields[CATEGORY] == Str("cpu")
            && fields[CONTEXT] == Obj(map[QUERY_ID := Str(query)]) && fields[CANDIDATES] == Arr([CANDIDATE])
            && GROUP_ID !in fields && CANDIDATE_HASH !in fields
  {
    FieldNamesDiffer();
    Lookup([SCHEMA, QUERY_ID, CATEGORY, CONTEXT, CANDIDATES, GROUP_ID, CANDIDATE_HASH],
           [Str(ROW_SCHEMA), Str(id), Str("cpu"), Obj(map[QUERY_ID := Str(query)]), Arr([CANDIDATE])]);
  }

  lemma FieldsMean(fields: map<string, Json>, id: string)
    requires id != "" && SCHEMA in fields && QUERY_ID in fields && CATEGORY in fields && CONTEXT in fields && CANDIDATES in fields
    requires fields[QUERY_ID] == Str(id) && fields[CANDIDATES] == Arr([CANDIDATE]) && fields[CATEGORY] == Str("cpu")
    ensures IsRow(Obj(fields)) && Candidates(Obj(fields)) == [CANDIDATE]
    ensures HasId(Plain(), Obj(fields)) && RowId(Plain(), Obj(fields)) == id && CategoryText(Obj(fields)) == "cpu"
  {
  }

  lemma RowFields(id: string, query: string)
    requires id != ""
    ensures var row := Row(id, query);
            && IsRow(row) && Candidates(row) == [CANDIDATE]
            && HasId(Plain(), row) && RowId(Plain(), row) == id
            && row.fields[CONTEXT] == Obj(map[QUERY_ID := Str(query)])
            && Field(row, SCHEMA) == Some(Str(ROW_SCHEMA)) && CategoryText(row) == "cpu"
            && Field(row, GROUP_ID) == None && Field(row, CANDIDATE_HASH) == None
  {
    RowLookup(id, query);
    FieldsMean(Row(id, query).fields, id);
  }

  lemma CandidateFields()
    ensures HasProduct(CANDIDATE) && Product(CANDIDATE) == "p" && HasCategory(CANDIDATE) && IsCandidate(Plain(), CANDIDATE)
    ensures Text(Plain(), CANDIDATE, PRODUCT_ID) == Some("p") && CANDIDATE.fields[CATEGORY] == Str("cpu")
  {
    FieldNamesDiffer();
  }

  lemma CommittedFrom(c: Codec, row: Json, id: string, candidate: Json, committed: map<string, Digest>)
    requires IsRow(row) && Candidates(row) == [candidate]
    requires IsCandidate(c, candidate) && Text(c, candidate, PRODUCT_ID).Some?
    requires HasId(c, row) && RowId(c, row) == id && Field(row, SCHEMA) == Some(Str(ROW_SCHEMA))
    requires IsContext(c, row) && LabelFree(c, row) && WellFormed(c, row)
    requires id in committed && committed[id] == c.hash(row) && c.rebuilds(row)
    ensures CommittedRow(c, row, committed)
  {
  }

  lemma RowCommitted(id: string, query: string, committed: map<string, Digest>)
    requires id != "" && id in committed && committed[id] == Sha(id, query)
    ensures CommittedRow(Plain(), Row(id, query), committed) && RowId(Plain(), Row(id, query)) == id
  {
    RowFields(id, query);
    CandidateFields();
    RowIsLabelFree(id, query);
    EveryValueIsWellFormed(Row(id, query));
    CommittedFrom(Plain(), Row(id, query), id, CANDIDATE, committed);
  }

  lemma LabelableFrom(c: Codec, row: Json, candidate: Json, rowSha: Digest, grade: nat)
    requires IsRow(row) && Candidates(row) == [candidate] && c.category(row) == "cpu"
    requires Field(row, GROUP_ID) == None && Field(row, CANDIDATE_HASH) == None
    requires HasProduct(candidate) && Product(candidate) == "p" && Text(c, candidate, PRODUCT_ID) == Some("p")
    ensures Labelable(c, row, rowSha, 0, QrelWith(grade), GroupFor(rowSha))
  {
    assert SetOf(["p"]) == {"p"};
    assert Candidates(row)[0] == candidate;
    assert SameCandidates(c, row, QrelWith(grade), GroupFor(rowSha));
  }

  lemma RowLabelable(id: string, query: string, grade: nat)
    requires id != ""
    ensures Labelable(Plain(), Row(id, query), Sha(id, query), 0, QrelWith(grade), GroupFor(Sha(id, query)))
  {
    RowFields(id, query);
    CandidateFields();
    LabelableFrom(Plain(), Row(id, query), CANDIDATE, Sha(id, query), grade);
  }

  predicate Three(a: string, b: string, c: string) {
    a != "" && b != "" && c != "" && a != b && a != c && b != c
  }

  // What a snapshot holds under an id.
  ghost predicate HoldsAt(x: Lineage, id: string, query: string, grade: nat) {
    && id in x.rows && x.rows[id] == Row(id, query)
    && id in x.committed && x.committed[id] == Sha(id, query)
    && id in x.qrels && x.qrels[id] == QrelWith(grade)
    && id in x.evidence && x.evidence[id] == GroupFor(Sha(id, query))
  }

  ghost predicate IsSnapshot(x: Lineage, a: string, b: string, c: string) {
    && x.rows.Keys == x.committed.Keys == x.qrels.Keys == x.evidence.Keys == {a, b, c} && x.snapshotSha == 0
    && forall id {:trigger HoldsAt(x, id, Partner(a, b, id), GradeAt(b, id))} | id in x.rows ::
         HoldsAt(x, id, Partner(a, b, id), GradeAt(b, id))
  }

  lemma ThreeNames(a: string, b: string, c: string, id: string)
    requires Three(a, b, c) && id in {a, b, c}
    ensures id != "" && Partner(a, b, id) != ""
  {
  }

  lemma InSnapshot(x: Lineage, a: string, b: string, c: string, id: string)
    requires IsSnapshot(x, a, b, c) && id in x.rows
    ensures id in {a, b, c}
  {
    assert id in x.rows.Keys;
  }

  lemma RowAt(x: Lineage, a: string, b: string, c: string, id: string)
    requires Three(a, b, c) && IsSnapshot(x, a, b, c) && id in x.rows
    ensures HoldsAt(x, id, Partner(a, b, id), GradeAt(b, id)) && id != "" && Partner(a, b, id) != ""
  {
    InSnapshot(x, a, b, c, id);
    ThreeNames(a, b, c, id);
  }

  lemma RowCommittedAt(x: Lineage, id: string, query: string, grade: nat)
    requires id != "" && HoldsAt(x, id, query, grade)
    ensures CommittedRow(Plain(), x.rows[id], x.committed) && RowId(Plain(), x.rows[id]) == id
  {
    RowCommitted(id, query, x.committed);
  }

  lemma SnapshotCommitted(x: Lineage, a: string, b: string, c: string)
    requires Three(a, b, c) && IsSnapshot(x, a, b, c)
    ensures Committed(Plain(), x.rows, x.committed)
  {
    forall id | id in x.rows
      ensures CommittedRow(Plain(), x.rows[id], x.committed) && RowId(Plain(), x.rows[id]) == id
    {
      RowAt(x, a, b, c, id);
      RowCommittedAt(x, id, Partner(a, b, id), GradeAt(b, id));
    }
  }

  lemma RowLabelableAt(x: Lineage, id: string, query: string, grade: nat)
    requires id != "" && HoldsAt(x, id, query, grade) && x.snapshotSha == 0
    ensures QueryLabelable(Plain(), x, id)
  {
    RowLabelable(id, query, grade);
  }

  lemma SnapshotLabelable(x: Lineage, a: string, b: string, c: string)
    requires Three(a, b, c) && IsSnapshot(x, a, b, c)
    ensures AllLabelable(Plain(), x)
  {
    forall id | id in x.rows
      ensures QueryLabelable(Plain(), x, id)
    {
      RowAt(x, a, b, c, id);
      RowLabelableAt(x, id, Partner(a, b, id), GradeAt(b, id));
    }
  }

  lemma RowContext(id: string, query: string)
    requires id != "" && query != ""
    ensures HasContext(Row(id, query)) && ContextId(Row(id, query)) == query
  {
    RowFields(id, query);
  }

  lemma RowCategory(id: string, query: string, grade: nat)
    requires id != ""
    ensures IsRow(Row(id, query)) && CategoriesFit(Plain(), Row(id, query), QrelWith(grade))
  {
    RowFields(id, query);
    CandidateFields();
  }

  lemma RowSwapsAt(x: Lineage, a: string, b: string, id: string, query: string, grade: nat)
    requires id != "" && query != "" && query == Partner(a, b, id) && HoldsAt(x, id, query, grade)
    ensures SwappedRow(Plain(), x, a, b, id)
  {
    RowContext(id, query);
    RowCategory(id, query, grade);
  }

  lemma SameQrels(x: Lineage, a: string, b: string)
    requires a in x.qrels && b in x.qrels && x.qrels[a] == QrelWith(1) && x.qrels[b] == QrelWith(2)
    ensures x.qrels[a].labels.Keys == x.qrels[b].labels.Keys && x.qrels[a].category == x.qrels[b].category
  {
  }

  lemma SnapshotSwapped(x: Lineage, a: string, b: string, c: string)
    requires Three(a, b, c) && IsSnapshot(x, a, b, c)
    ensures Swapped(Plain(), x, a, b)
  {
    RowAt(x, a, b, c, a);
    RowAt(x, a, b, c, b);
    SameQrels(x, a, b);
    forall id | id in x.rows
      ensures SwappedRow(Plain(), x, a, b, id)
    {
      RowAt(x, a, b, c, id);
      RowSwapsAt(x, a, b, id, Partner(a, b, id), GradeAt(b, id));
    }
  }

  lemma GradesDifferAt(x: Lineage, a: string, b: string)
    requires a != "" && HoldsAt(x, a, b, 1) && HoldsAt(x, b, a, 2) && Named(x, a, a) && Named(x, a, b)
    ensures !SameGrades(Candidates(x.rows[a]), x.qrels[a].labels, x.qrels[b].labels)
  {
    RowFields(a, b);
    CandidateFields();
    assert Candidates(x.rows[a])[0] == CANDIDATE;
    assert LabelOf(CANDIDATE, x.qrels[a].labels) == 1 && LabelOf(CANDIDATE, x.qrels[b].labels) == 2;
  }

  lemma GradesDiffer(x: Lineage, a: string, b: string, c: string)
    requires Three(a, b, c) && IsSnapshot(x, a, b, c) && Named(x, a, a) && Named(x, a, b)
    ensures !SameGrades(Candidates(x.rows[a]), x.qrels[a].labels, x.qrels[b].labels)
  {
    RowAt(x, a, b, c, a);
    RowAt(x, a, b, c, b);
    GradesDifferAt(x, a, b);
  }

  lemma QrelsAreValid(grade: nat)
    requires grade <= MAX_GRADE
    ensures ValidQrel(QrelWith(grade)) && QrelWith(grade).labels.Keys == {"p"}
  {
    assert SetOf(["p"]) == {"p"};
  }

  lemma SnapshotIsValid(x: Lineage, a: string, b: string, c: string)
    requires Three(a, b, c) && IsSnapshot(x, a, b, c)
    ensures forall query | query in x.qrels :: ValidQrel(x.qrels[query])
  {
    forall query | query in x.qrels
      ensures ValidQrel(x.qrels[query])
    {
      assert query in x.qrels.Keys;
      RowAt(x, a, b, c, query);
      QrelsAreValid(GradeAt(b, query));
    }
  }

  lemma SnapshotAt(a: string, b: string, c: string, id: string)
    requires Three(a, b, c) && id in {a, b, c}
    ensures HoldsAt(Snapshot(a, b, c), id, Partner(a, b, id), GradeAt(b, id))
  {
  }

  lemma SnapshotKeys(a: string, b: string, c: string)
    ensures var x := Snapshot(a, b, c);
            x.rows.Keys == x.committed.Keys == x.qrels.Keys == x.evidence.Keys == {a, b, c} && x.snapshotSha == 0
  {
  }

  lemma SnapshotIs(a: string, b: string, c: string)
    requires Three(a, b, c)
    ensures IsSnapshot(Snapshot(a, b, c), a, b, c)
  {
    SnapshotKeys(a, b, c);
    forall id | id in Snapshot(a, b, c).rows
      ensures HoldsAt(Snapshot(a, b, c), id, Partner(a, b, id), GradeAt(b, id))
    {
      assert id in Snapshot(a, b, c).rows.Keys;
      SnapshotAt(a, b, c, id);
    }
  }

  lemma ThreeInOrder(a: string, b: string, c: string)
    requires Three(a, b, c)
    ensures Enumerates([a, b, c], {a, b, c})
  {
    assert SetOf([a, b, c]) == {a, b, c};
  }

  // With a sound codec, any three ids give a committed, labelable snapshot whose first row the trainer
  // takes with the grade of the second one: no hypothesis about the swap is empty.
  lemma SwapHappens(a: string, b: string, c: string) returns (rows: seq<Json>)
    requires Three(a, b, c)
    ensures Faithful(Plain()) && HashPins(Plain())
    ensures var x := Snapshot(a, b, c);
            && Committed(Plain(), x.rows, x.committed) && AllLabelable(Plain(), x)
            && AgreesWithQrels(Plain(), rows, x.qrels)
            && (Accepted(Plain(), Encode(Plain(), rows), x.committed, 0, x.evidence) <==> AllFit(Plain(), rows))
            && Named(x, a, a) && Named(x, a, b) && LabelledAs(x, a, b) in rows && LabelledAs(x, a, a) !in rows
  {
    PlainIsSound();
    SnapshotIs(a, b, c);
    rows := SwapIn(Snapshot(a, b, c), a, b, c);
  }

  lemma SwapIn(x: Lineage, a: string, b: string, c: string) returns (rows: seq<Json>)
    requires Three(a, b, c) && IsSnapshot(x, a, b, c) && Faithful(Plain())
    ensures Committed(Plain(), x.rows, x.committed) && AllLabelable(Plain(), x)
    ensures AgreesWithQrels(Plain(), rows, x.qrels)
    ensures Accepted(Plain(), Encode(Plain(), rows), x.committed, 0, x.evidence) <==> AllFit(Plain(), rows)
    ensures Named(x, a, a) && Named(x, a, b) && LabelledAs(x, a, b) in rows && LabelledAs(x, a, a) !in rows
  {
    SnapshotCommitted(x, a, b, c);
    SnapshotLabelable(x, a, b, c);
    SnapshotSwapped(x, a, b, c);
    ThreeInOrder(a, b, c);
    SnapshotIsValid(x, a, b, c);
    rows := SwappedContextsPass(Plain(), x, [a, b, c], a, b);
    GradesDiffer(x, a, b, c);
  }
}
