// Labelling a committed ranking snapshot, and the verifier that takes the labels off again.
module LabelSnapshot {
  import opened Common
  import opened JsonlReader

  // JSON as the code holds it; a number with a fraction or an exponent is held by its shortest text.
  datatype Json =
    | Null
    | Bool(b: bool)
    | Int(n: int)
    | Float(text: string)
    | Str(s: string)
    | Arr(items: seq<Json>)
    | Obj(fields: map<string, Json>)

  const GRADE := "relevance_grade"
  const CANDIDATES := "candidates"
  const QUERY_ID := "query_id"
  const PRODUCT_ID := "product_id"
  const CATEGORY := "category"
  const CONTEXT := "context"
  const SCHEMA := "schema_version"
  const ROW_SCHEMA := "pc-build-recommender.ranking-prelabel-query.v1"
  const GROUP_ID := "query_group_id"
  const CANDIDATE_HASH := "candidate_ids_sha256"
  const MAX_GRADE := 4
  const MAX_ROW_BYTES: nat := 8 * 1024 * 1024

  const FORBIDDEN: set<string> := {
    "adjudication", "grade", "human_label", "judgment", "judgments", "label", GRADE,
    "relevance_label", "reviewer", "reviewer_id"
  }

  // What the code takes from its libraries and from the record types of the ranker: text handling,
  // canonical JSON, its parser and its hash, blank lines, the whole numbers and the fractions that
  // canonical JSON can write, the category text of a row, whether a context or a candidate has the
  // fields and values of its record type, and whether the candidate and feature hashes inside a row
  // match what is computed from it.  The parser refuses what canonical JSON cannot write.
  datatype Codec = Codec(
    strip: string -> string,
    casefold: string -> string,
    write: Json -> Bytes,
    parse: Bytes -> Option<Json>,
    blank: Bytes -> bool,
    hash: Json -> Digest,
    whole: int -> bool,
    fraction: string -> bool,
    category: Json -> string,
    context: Json -> bool,
    candidate: Json -> bool,
    rebuilds: Json -> bool)

  function Fold(c: Codec, text: string): string {
    c.casefold(c.strip(text))
  }

  // A value that canonical JSON can write.
  predicate WellFormed(c: Codec, j: Json) {
    match j
    case Int(n) => c.whole(n)
    case Float(text) => c.fraction(text)
    case Arr(items) => forall k | 0 <= k < |items| :: WellFormed(c, items[k])
    case Obj(fields) => forall key | key in fields :: WellFormed(c, fields[key])
    case _ => true
  }

  predicate WritesOneLine(c: Codec, j: Json) {
    var line := c.write(j);
    NEWLINE !in line && !c.blank(line + [NEWLINE]) && c.parse(line + [NEWLINE]) == Some(j)
  }

  predicate ReadsWellFormed(c: Codec, line: Bytes) {
    c.parse(line).Some? ==> WellFormed(c, c.parse(line).value)
  }

  ghost predicate Faithful(c: Codec) {
    && Fold(c, GRADE) == GRADE
    && (forall n | 0 <= n <= MAX_GRADE :: c.whole(n))
    && (forall j | WellFormed(c, j) :: WritesOneLine(c, j))
    && (forall line :: ReadsWellFormed(c, line))
  }

  predicate SameHash(c: Codec, a: Json, b: Json) {
    c.hash(a) == c.hash(b)
  }

  // No two values that can be written share a hash.
  ghost predicate HashPins(c: Codec) {
    forall a, b | WellFormed(c, a) && WellFormed(c, b) && SameHash(c, a, b) :: a == b
  }

  // ---------------------------------------------------------------- rows

  // No key at any depth that could carry evidence from after the annotation.
  predicate LabelFree(c: Codec, j: Json) {
    match j
    case Obj(fields) => forall key | key in fields :: Fold(c, key) !in FORBIDDEN && LabelFree(c, fields[key])
    case Arr(items) => forall k | 0 <= k < |items| :: LabelFree(c, items[k])
    case _ => true
  }

  predicate IsRow(row: Json) {
    && row.Obj?
    && CANDIDATES in row.fields
    && row.fields[CANDIDATES].Arr?
    && row.fields[CANDIDATES].items != []
    && forall k | 0 <= k < |row.fields[CANDIDATES].items| :: row.fields[CANDIDATES].items[k].Obj?
  }

  function Candidates(row: Json): (cs: seq<Json>)
    requires IsRow(row)
    ensures forall k | 0 <= k < |cs| :: cs[k].Obj?
  {
    row.fields[CANDIDATES].items
  }

  function WithCandidates(row: Json, cs: seq<Json>): Json
    requires row.Obj?
  {
    Obj(row.fields[CANDIDATES := Arr(cs)])
  }

  // A non-blank string field, stripped.
  function Text(c: Codec, j: Json, key: string): Option<string>
    requires j.Obj?
  {
    if key in j.fields && j.fields[key].Str? && c.strip(j.fields[key].s) != ""
    then Some(c.strip(j.fields[key].s)) else None
  }

  predicate HasId(c: Codec, row: Json) {
    row.Obj? && Text(c, row, QUERY_ID).Some?
  }

  function RowId(c: Codec, row: Json): string
    requires HasId(c, row)
  {
    Text(c, row, QUERY_ID).value
  }

  predicate DistinctRows(c: Codec, rows: seq<Json>) {
    && (forall k | 0 <= k < |rows| :: HasId(c, rows[k]))
    && (forall j, k | 0 <= j < k < |rows| :: RowId(c, rows[j]) != RowId(c, rows[k]))
  }

  ghost function RowIds(c: Codec, rows: seq<Json>): set<string>
    requires DistinctRows(c, rows)
  {
    set k | 0 <= k < |rows| :: RowId(c, rows[k])
  }

  // ---------------------------------------------------------------- the pre-label commitment

  predicate ProductIdsDistinct(c: Codec, cs: seq<Json>)
    requires forall k | 0 <= k < |cs| :: cs[k].Obj?
  {
    && (forall k | 0 <= k < |cs| :: Text(c, cs[k], PRODUCT_ID).Some?)
    && (forall j, k | 0 <= j < k < |cs| :: Text(c, cs[j], PRODUCT_ID) != Text(c, cs[k], PRODUCT_ID))
  }

  // The context of a row can be read into its record type.
  predicate IsContext(c: Codec, row: Json)
    requires row.Obj?
  {
    CONTEXT in row.fields && row.fields[CONTEXT].Obj? && c.context(row.fields[CONTEXT])
  }

  predicate HasCategory(candidate: Json) {
    && candidate.Obj? && CATEGORY in candidate.fields && candidate.fields[CATEGORY].Str?
    && candidate.fields[CATEGORY].s != ""
  }

  predicate HasProduct(candidate: Json) {
    && candidate.Obj? && PRODUCT_ID in candidate.fields && candidate.fields[PRODUCT_ID].Str?
    && candidate.fields[PRODUCT_ID].s != ""
  }

  function Product(candidate: Json): string
    requires HasProduct(candidate)
  {
    candidate.fields[PRODUCT_ID].s
  }

  // A candidate can be read into its record type, which needs a product id and a category.
  predicate IsCandidate(c: Codec, candidate: Json) {
    HasProduct(candidate) && HasCategory(candidate) && c.candidate(candidate)
  }

  function Field(row: Json, key: string): Option<Json>
    requires row.Obj?
  {
    if key in row.fields then Some(row.fields[key]) else None
  }

  predicate CommittedRow(c: Codec, row: Json, committed: map<string, Digest>) {
    && HasId(c, row)
    && RowId(c, row) in committed
    && c.hash(row) == committed[RowId(c, row)]
    && IsRow(row)
    && ProductIdsDistinct(c, Candidates(row))
    && WellFormed(c, row)
    && LabelFree(c, row)
    && Field(row, SCHEMA) == Some(Str(ROW_SCHEMA))
    && IsContext(c, row)
    && (forall k | 0 <= k < |Candidates(row)| :: IsCandidate(c, Candidates(row)[k]))
    && c.rebuilds(row)
  }

  // The pre-label rows by query id, as the loader accepts them against the committed hashes.
  predicate Committed(c: Codec, rows: map<string, Json>, committed: map<string, Digest>) {
    && rows.Keys == committed.Keys
    && forall id {:trigger CommittedRow(c, rows[id], committed)} | id in rows ::
         CommittedRow(c, rows[id], committed) && RowId(c, rows[id]) == id
  }

  // ---------------------------------------------------------------- labelling

  datatype Qrel = Qrel(groupId: Option<string>, category: Option<string>, candidateIds: seq<string>,
                       labels: map<string, nat>)

  predicate ValidQrel(q: Qrel) {
    && q.labels.Keys <= SetOf(q.candidateIds)
    && forall id | id in q.labels :: q.labels[id] <= MAX_GRADE
  }

  // What the reviewers saw for a query, and the commitment their evidence was bound to.
  datatype Group = Group(
    leakageGroup: Option<string>,
    category: string,
    snapshotSha: Digest,
    rowSha: Digest,
    candidateHash: Option<Json>,
    targets: set<string>)

  predicate SameQuery(c: Codec, row: Json, q: Qrel, g: Group)
    requires row.Obj?
  {
    && (match q.groupId
        case Some(id) => Field(row, GROUP_ID) == Some(Str(id))
        case None => Field(row, GROUP_ID) == None || Field(row, GROUP_ID) == Some(Null))
    && Some(c.category(row)) == q.category == Some(g.category)
    && g.leakageGroup == q.groupId
  }

  predicate SameCandidates(c: Codec, row: Json, q: Qrel, g: Group)
    requires IsRow(row)
  {
    var cs, universe := Candidates(row), SetOf(q.candidateIds);
    && (forall k | 0 <= k < |cs| :: Text(c, cs[k], PRODUCT_ID).Some? && Text(c, cs[k], PRODUCT_ID).value in universe)
    && (forall id | id in universe :: exists k | 0 <= k < |cs| :: Text(c, cs[k], PRODUCT_ID) == Some(id))
    && g.targets == universe == q.labels.Keys
  }

  // The label lookup goes by the product id as written, not by the stripped one.
  predicate Labelled(cs: seq<Json>, labels: map<string, nat>)
    requires forall k | 0 <= k < |cs| :: cs[k].Obj?
  {
    forall k | 0 <= k < |cs| :: HasLabel(cs[k], labels)
  }

  predicate HasLabel(candidate: Json, labels: map<string, nat>)
    requires candidate.Obj?
  {
    PRODUCT_ID in candidate.fields && candidate.fields[PRODUCT_ID].Str? && candidate.fields[PRODUCT_ID].s in labels
  }

  predicate SameLineage(c: Codec, row: Json, rowSha: Digest, snapshotSha: Digest, q: Qrel, g: Group) {
    && IsRow(row)
    && SameQuery(c, row, q, g)
    && g.snapshotSha == snapshotSha && g.rowSha == rowSha && g.candidateHash == Field(row, CANDIDATE_HASH)
    && SameCandidates(c, row, q, g)
  }

  predicate Labelable(c: Codec, row: Json, rowSha: Digest, snapshotSha: Digest, q: Qrel, g: Group) {
    SameLineage(c, row, rowSha, snapshotSha, q, g) && Labelled(Candidates(row), q.labels)
  }

  function Grade(candidate: Json, grade: int): Json
    requires candidate.Obj?
  {
    Obj(candidate.fields[GRADE := Int(grade)])
  }

  function LabelOf(candidate: Json, labels: map<string, nat>): nat
    requires candidate.Obj? && HasLabel(candidate, labels)
  {
    labels[candidate.fields[PRODUCT_ID].s]
  }

  function LabelAll(cs: seq<Json>, labels: map<string, nat>): (r: seq<Json>)
    requires forall k | 0 <= k < |cs| :: cs[k].Obj?
    requires Labelled(cs, labels)
    ensures |r| == |cs| && forall k | 0 <= k < |cs| :: r[k] == Grade(cs[k], LabelOf(cs[k], labels))
  {
    seq(|cs|, k requires 0 <= k < |cs| => Grade(cs[k], LabelOf(cs[k], labels)))
  }

  function LabelRow(row: Json, labels: map<string, nat>): Json
    requires IsRow(row) && Labelled(Candidates(row), labels)
  {
    WithCandidates(row, LabelAll(Candidates(row), labels))
  }

  datatype LabelError = UniversesDiffer | LineageDiffers(id: string) | NoLabel(id: string)

  // Everything the labelling step takes: the pre-label rows with their committed hashes, the
  // adjudicated grades and the annotation evidence, all by query id.
  datatype Lineage = Lineage(
    rows: map<string, Json>,
    committed: map<string, Digest>,
    snapshotSha: Digest,
    qrels: map<string, Qrel>,
    evidence: map<string, Group>)

  predicate Covers(x: Lineage, id: string) {
    id in x.rows && id in x.committed && id in x.qrels && id in x.evidence
  }

  predicate QueryLabelable(c: Codec, x: Lineage, id: string)
    requires Covers(x, id)
  {
    Labelable(c, x.rows[id], x.committed[id], x.snapshotSha, x.qrels[id], x.evidence[id])
  }

  predicate AllLabelable(c: Codec, x: Lineage) {
    && x.rows.Keys == x.committed.Keys == x.qrels.Keys == x.evidence.Keys
    && forall id {:trigger QueryLabelable(c, x, id)} | id in x.rows :: QueryLabelable(c, x, id)
  }

  // Every key once, in some order; the code sorts them.
  ghost predicate Enumerates(order: seq<string>, keys: set<string>) {
    Distinct(order) && SetOf(order) == keys
  }

  ghost predicate LabelledRows(c: Codec, x: Lineage, order: seq<string>, labelled: seq<Json>) {
    && AllLabelable(c, x) && Enumerates(order, x.rows.Keys)
    && |labelled| == |order|
    && forall k | 0 <= k < |order| :: LabelledAt(c, x, order[k], labelled[k])
  }

  predicate LabelledAt(c: Codec, x: Lineage, id: string, row: Json) {
    Covers(x, id) && QueryLabelable(c, x, id) && row == LabelRow(x.rows[id], x.qrels[id].labels)
  }

  method LabelCandidates(cs: seq<Json>, labels: map<string, nat>) returns (r: Option<seq<Json>>)
    requires forall k | 0 <= k < |cs| :: cs[k].Obj?
    ensures r.Some? <==> Labelled(cs, labels)
    ensures r.Some? ==> r.value == LabelAll(cs, labels)
  {
    var labelled: seq<Json> := [];
    for k := 0 to |cs|
      invariant forall i | 0 <= i < k :: HasLabel(cs[i], labels)
      invariant |labelled| == k && forall i | 0 <= i < k :: labelled[i] == Grade(cs[i], LabelOf(cs[i], labels))
    {
      if !HasLabel(cs[k], labels) {
        return None;
      }
      labelled := labelled + [Grade(cs[k], LabelOf(cs[k], labels))];
    }
    r := Some(labelled);
  }

  method LabelQuery(c: Codec, x: Lineage, id: string) returns (r: Result<Json, LabelError>)
    requires Covers(x, id)
    ensures r.Success? <==> QueryLabelable(c, x, id)
    ensures r.Success? ==> LabelledAt(c, x, id, r.value)
  {
    var row, q := x.rows[id], x.qrels[id];
    if !SameLineage(c, row, x.committed[id], x.snapshotSha, q, x.evidence[id]) {
      return Failure(LineageDiffers(id));
    }
    var candidates := LabelCandidates(Candidates(row), q.labels);
    if candidates.None? {
      return Failure(NoLabel(id));
    }
    r := Success(WithCandidates(row, candidates.value));
  }

  // The first rows of the output.
  ghost predicate LabelledSoFar(c: Codec, x: Lineage, order: seq<string>, labelled: seq<Json>) {
    && |labelled| <= |order|
    && forall k | 0 <= k < |labelled| :: LabelledAt(c, x, order[k], labelled[k])
  }

  lemma AllLabelled(c: Codec, x: Lineage, order: seq<string>, labelled: seq<Json>)
    requires x.rows.Keys == x.committed.Keys == x.qrels.Keys == x.evidence.Keys && Enumerates(order, x.qrels.Keys)
    requires LabelledSoFar(c, x, order, labelled) && |labelled| == |order|
    ensures LabelledRows(c, x, order, labelled)
  {
    forall id | id in x.rows
      ensures QueryLabelable(c, x, id)
    {
      assert id in SetOf(order);
      var k :| 0 <= k < |order| && order[k] == id;
      assert LabelledAt(c, x, order[k], labelled[k]);
    }
    assert forall k | 0 <= k < |order| :: LabelledAt(c, x, order[k], labelled[k]);
  }

  lemma InUniverse(x: Lineage, order: seq<string>, n: nat)
    requires x.rows.Keys == x.committed.Keys == x.qrels.Keys == x.evidence.Keys && Enumerates(order, x.qrels.Keys)
    requires n < |order|
    ensures Covers(x, order[n])
  {
    assert order[n] in SetOf(order);
  }

  lemma OneMoreLabelled(c: Codec, x: Lineage, order: seq<string>, labelled: seq<Json>, row: Json)
    requires LabelledSoFar(c, x, order, labelled) && |labelled| < |order| && LabelledAt(c, x, order[|labelled|], row)
    ensures LabelledSoFar(c, x, order, labelled + [row])
  {
  }

  lemma OneMissing(c: Codec, x: Lineage, id: string)
    requires Covers(x, id) && !QueryLabelable(c, x, id)
    ensures !AllLabelable(c, x)
  {
  }

  method MaterializeRows(c: Codec, x: Lineage, order: seq<string>) returns (r: Result<seq<Json>, LabelError>)
    requires x.rows.Keys == x.committed.Keys && Enumerates(order, x.qrels.Keys)
    ensures r.Success? <==> AllLabelable(c, x)
    ensures r.Success? ==> LabelledRows(c, x, order, r.value)
  {
    if x.rows.Keys != x.qrels.Keys || x.evidence.Keys != x.qrels.Keys {
      return Failure(UniversesDiffer);
    }
    var labelled: seq<Json> := [];
    for n := 0 to |order|
      invariant |labelled| == n && LabelledSoFar(c, x, order, labelled)
    {
      InUniverse(x, order, n);
      var row := LabelQuery(c, x, order[n]);
      if row.Failure? {
        OneMissing(c, x, order[n]);
        return Failure(row.error);
      }
      OneMoreLabelled(c, x, order, labelled, row.value);
      labelled := labelled + [row.value];
    }
    AllLabelled(c, x, order, labelled);
    r := Success(labelled);
  }

  // ---------------------------------------------------------------- taking the labels off

  predicate Graded(candidate: Json) {
    && candidate.Obj?
    && GRADE in candidate.fields
    && candidate.fields[GRADE].Int?
    && 0 <= candidate.fields[GRADE].n <= MAX_GRADE
  }

  function Ungrade(candidate: Json): Json
    requires candidate.Obj?
  {
    Obj(candidate.fields - {GRADE})
  }

  function UngradeAll(cs: seq<Json>): (r: seq<Json>)
    requires forall k | 0 <= k < |cs| :: cs[k].Obj?
    ensures |r| == |cs| && forall k | 0 <= k < |cs| :: r[k] == Ungrade(cs[k])
  {
    seq(|cs|, k requires 0 <= k < |cs| => Ungrade(cs[k]))
  }

  function UnlabelRow(row: Json): Json
    requires IsRow(row)
  {
    WithCandidates(row, UngradeAll(Candidates(row)))
  }

  predicate GradedRow(c: Codec, row: Json) {
    && HasId(c, row)
    && IsRow(row)
    && forall k | 0 <= k < |Candidates(row)| :: Graded(Candidates(row)[k])
  }

  predicate VerifiedRow(c: Codec, row: Json, expected: map<string, Digest>) {
    && GradedRow(c, row)
    && RowId(c, row) in expected
    && c.hash(UnlabelRow(row)) == expected[RowId(c, row)]
  }

  predicate Bound(evidence: map<string, Group>, expected: map<string, Digest>, snapshotSha: Digest) {
    && evidence.Keys == expected.Keys
    && forall id | id in evidence :: evidence[id].snapshotSha == snapshotSha && evidence[id].rowSha == expected[id]
  }

  ghost predicate VerifiedRows(c: Codec, rows: seq<Json>, expected: map<string, Digest>) {
    && DistinctRows(c, rows)
    && RowIds(c, rows) == expected.Keys
    && forall k | 0 <= k < |rows| :: VerifiedRow(c, rows[k], expected)
  }

  // ---------------------------------------------------------------- the file

  // The lines of a file as a reader meets them, newlines included.
  function RawLines(b: Bytes): seq<Bytes> {
    Terminated(Lines(b)) + (if Tail(b) == [] then [] else [Tail(b)])
  }

  function Terminated(lines: seq<Bytes>): seq<Bytes> {
    seq(|lines|, k requires 0 <= k < |lines| => lines[k] + [NEWLINE])
  }

  // The JSON objects on the non-blank lines, in order.
  function ReadRows(c: Codec, lines: seq<Bytes>): Option<seq<Json>> {
    if lines == [] then Some([])
    else
      var front, line := ReadRows(c, lines[..|lines| - 1]), lines[|lines| - 1];
      if front.None? || |line| > MAX_ROW_BYTES then None
      else if c.blank(line) then front
      else
        var row := c.parse(line);
        if row.Some? && row.value.Obj? then Some(front.value + [row.value]) else None
  }

  function Encode(c: Codec, rows: seq<Json>): Bytes {
    Join(Written(c, rows))
  }

  function Written(c: Codec, rows: seq<Json>): seq<Bytes> {
    seq(|rows|, k requires 0 <= k < |rows| => c.write(rows[k]))
  }

  predicate FitsLine(c: Codec, row: Json) {
    |c.write(row)| + 1 <= MAX_ROW_BYTES
  }

  predicate AllFit(c: Codec, rows: seq<Json>) {
    forall k | 0 <= k < |rows| :: FitsLine(c, rows[k])
  }

  // ---------------------------------------------------------------- the verifier

  lemma {:induction false} ReadPrefix(c: Codec, lines: seq<Bytes>, n: nat)
    requires n <= |lines| && ReadRows(c, lines).Some?
    ensures ReadRows(c, lines[..n]).Some? && ReadRows(c, lines[..n]).value <= ReadRows(c, lines).value
  {
    if n < |lines| {
      var front := lines[..|lines| - 1];
      ReadPrefix(c, front, n);
      assert front[..n] == lines[..n];
    } else {
      assert lines[..n] == lines;
    }
  }

  // What the scan knows after some rows.
  ghost predicate Scanned(c: Codec, rows: seq<Json>, actual: map<string, Digest>) {
    && DistinctRows(c, rows)
    && actual.Keys == RowIds(c, rows)
    && forall k | 0 <= k < |rows| :: GradedRow(c, rows[k]) && actual[RowId(c, rows[k])] == c.hash(UnlabelRow(rows[k]))
  }

  lemma ScanOne(c: Codec, rows: seq<Json>, actual: map<string, Digest>, row: Json)
    requires Scanned(c, rows, actual) && GradedRow(c, row) && RowId(c, row) !in actual
    ensures Scanned(c, rows + [row], actual[RowId(c, row) := c.hash(UnlabelRow(row))])
  {
    var rows' := rows + [row];
    forall k | 0 <= k < |rows|
      ensures RowId(c, rows[k]) in RowIds(c, rows)
    {
    }
    assert DistinctRows(c, rows');
    forall id
      ensures id in RowIds(c, rows') <==> id in RowIds(c, rows) || id == RowId(c, row)
    {
      if id in RowIds(c, rows) {
        var k :| 0 <= k < |rows| && id == RowId(c, rows[k]);
        assert rows'[k] == rows[k];
      }
      assert rows'[|rows|] == row;
    }
  }

  method UngradeCandidates(cs: seq<Json>) returns (r: Option<seq<Json>>)
    ensures r.Some? <==> forall k | 0 <= k < |cs| :: Graded(cs[k])
    ensures r.Some? ==> r.value == UngradeAll(cs)
  {
    var bare: seq<Json> := [];
    for k := 0 to |cs|
      invariant forall i | 0 <= i < k :: Graded(cs[i])
      invariant |bare| == k && forall i | 0 <= i < k :: bare[i] == Ungrade(cs[i])
    {
      if !Graded(cs[k]) {
        return None;
      }
      bare := bare + [Ungrade(cs[k])];
    }
    r := Some(bare);
  }

  // One row of the scan: its id must be new, and every candidate must carry a grade.
  method ScanRow(c: Codec, ghost rows: seq<Json>, actual: map<string, Digest>, row: Json)
    returns (r: Option<map<string, Digest>>)
    requires Scanned(c, rows, actual) && row.Obj?
    ensures r.Some? <==> GradedRow(c, row) && RowId(c, row) !in actual
    ensures r.Some? ==> Scanned(c, rows + [row], r.value)
  {
    if Text(c, row, QUERY_ID).None? {
      return None;
    }
    var id := Text(c, row, QUERY_ID).value;
    if id in actual {
      return None;
    }
    if CANDIDATES !in row.fields || !row.fields[CANDIDATES].Arr? || row.fields[CANDIDATES].items == [] {
      return None;
    }
    var bare := UngradeCandidates(row.fields[CANDIDATES].items);
    if bare.None? {
      ghost var k :| 0 <= k < |row.fields[CANDIDATES].items| && !Graded(row.fields[CANDIDATES].items[k]);
      assert IsRow(row) ==> !Graded(Candidates(row)[k]);
      return None;
    }
    ScanOne(c, rows, actual, row);
    r := Some(actual[id := c.hash(WithCandidates(row, bare.value))]);
  }

  // A scan that had to stop could not have been part of an accepted file.
  lemma StoppedScan(c: Codec, lines: seq<Bytes>, n: nat, rows: seq<Json>, actual: map<string, Digest>, row: Json,
                    expected: map<string, Digest>)
    requires n < |lines| && ReadRows(c, lines[..n]) == Some(rows) && ReadRows(c, lines[..n + 1]) == Some(rows + [row])
    requires Scanned(c, rows, actual) && row.Obj? && !(GradedRow(c, row) && RowId(c, row) !in actual)
    ensures ReadRows(c, lines).Some? ==> !VerifiedRows(c, ReadRows(c, lines).value, expected)
  {
    if ReadRows(c, lines).Some? {
      var all := ReadRows(c, lines).value;
      ReadPrefix(c, lines, n + 1);
      assert all[|rows|] == (rows + [row])[|rows|] == row;
      assert forall k | 0 <= k < |rows| :: all[k] == (rows + [row])[k] == rows[k];
    }
  }

  lemma UnreadableLine(c: Codec, lines: seq<Bytes>, n: nat)
    requires n < |lines| && ReadRows(c, lines[..n + 1]).None?
    ensures ReadRows(c, lines).None?
  {
    if ReadRows(c, lines).Some? {
      ReadPrefix(c, lines, n + 1);
    }
  }

  method VerifyRows(c: Codec, lines: seq<Bytes>, expected: map<string, Digest>) returns (ok: bool)
    ensures ok <==> ReadRows(c, lines).Some? && VerifiedRows(c, ReadRows(c, lines).value, expected)
  {
    var actual: map<string, Digest> := map[];
    ghost var rows: seq<Json> := [];
    for n := 0 to |lines|
      invariant ReadRows(c, lines[..n]) == Some(rows)
      invariant Scanned(c, rows, actual)
    {
      var line := lines[n];
      assert lines[..n + 1][..n] == lines[..n] && lines[..n + 1][n] == line;
      if |line| > MAX_ROW_BYTES {
        UnreadableLine(c, lines, n);
        return false;
      }
      if !c.blank(line) {
        var parsed := c.parse(line);
        if parsed.None? || !parsed.value.Obj? {
          UnreadableLine(c, lines, n);
          return false;
        }
        var scanned := ScanRow(c, rows, actual, parsed.value);
        if scanned.None? {
          StoppedScan(c, lines, n, rows, actual, parsed.value, expected);
          return false;
        }
        actual := scanned.value;
        rows := rows + [parsed.value];
      }
    }
    assert lines[..|lines|] == lines;
    ok := actual.Keys == expected.Keys && forall id | id in actual :: actual[id] == expected[id];
    MatchingHashes(c, rows, actual, expected);
  }

  lemma MatchingHashes(c: Codec, rows: seq<Json>, actual: map<string, Digest>, expected: map<string, Digest>)
    requires Scanned(c, rows, actual)
    ensures VerifiedRows(c, rows, expected)
       <==> actual.Keys == expected.Keys && forall id | id in actual :: actual[id] == expected[id]
  {
    if VerifiedRows(c, rows, expected) {
      forall id | id in actual
        ensures actual[id] == expected[id]
      {
        var k :| 0 <= k < |rows| && id == RowId(c, rows[k]);
        assert VerifiedRow(c, rows[k], expected);
      }
    }
  }
}
