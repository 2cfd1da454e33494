// Cohort selection and the aggregated output rows over the store of joined observations.
module BlenderCohorts {
  import opened Common
  import opened BlenderJoin
  import opened BlenderOrder
  import opened OrderStatistics
  import opened StrictOrders

  // ---------------------------------------------------------------- groups of rows

  function Group<K(==)>(rows: seq<Row>, f: Row -> K, key: K): seq<Row> {
    if rows == [] then []
    else
      var front := Group(rows[..|rows| - 1], f, key);
      if f(rows[|rows| - 1]) == key then front + [rows[|rows| - 1]] else front
  }

  function Others<K(==)>(rows: seq<Row>, f: Row -> K, key: K): seq<Row> {
    if rows == [] then []
    else
      var front := Others(rows[..|rows| - 1], f, key);
      if f(rows[|rows| - 1]) == key then front else front + [rows[|rows| - 1]]
  }

  // The distinct keys, in order of first appearance.
  function Keys<K(==)>(rows: seq<Row>, f: Row -> K): seq<K> {
    if rows == [] then []
    else
      var front := Keys(rows[..|rows| - 1], f);
      if f(rows[|rows| - 1]) in front then front else front + [f(rows[|rows| - 1])]
  }

  lemma {:induction false} KeysAre<K>(rows: seq<Row>, f: Row -> K)
    ensures Distinct(Keys(rows, f)) && |Keys(rows, f)| <= |rows|
    ensures forall row | row in rows :: f(row) in Keys(rows, f)
    ensures forall key | key in Keys(rows, f) :: exists row :: row in rows && f(row) == key
  {
    if rows != [] {
      var front, last := rows[..|rows| - 1], rows[|rows| - 1];
      KeysAre(front, f);
      assert rows == front + [last];
      assert last in rows && forall row | row in front :: row in rows;
    }
  }

  lemma {:induction false} GroupIs<K>(rows: seq<Row>, f: Row -> K, key: K)
    ensures forall row :: row in Group(rows, f, key) <==> row in rows && f(row) == key
    ensures forall row :: row in Others(rows, f, key) <==> row in rows && f(row) != key
    ensures |Group(rows, f, key)| + |Others(rows, f, key)| == |rows|
  {
    if rows != [] {
      var front, last := rows[..|rows| - 1], rows[|rows| - 1];
      GroupIs(front, f, key);
      assert rows == front + [last];
    }
  }

  lemma {:induction false} GroupOfOthers<K>(rows: seq<Row>, f: Row -> K, key: K, other: K)
    requires key != other
    ensures Group(Others(rows, f, key), f, other) == Group(rows, f, other)
  {
    if rows != [] {
      var front, last := rows[..|rows| - 1], rows[|rows| - 1];
      GroupOfOthers(front, f, key, other);
      if f(last) != key {
        assert (Others(front, f, key) + [last])[..|Others(front, f, key)|] == Others(front, f, key);
      }
    }
  }

  lemma {:induction false} GroupSplit<K>(a: seq<Row>, b: seq<Row>, f: Row -> K, key: K)
    ensures Group(a + b, f, key) == Group(a, f, key) + Group(b, f, key)
  {
    if b == [] {
      assert a + b == a;
    } else {
      GroupSplit(a, b[..|b| - 1], f, key);
      assert (a + b)[..|a + b| - 1] == a + b[..|b| - 1];
    }
  }

  lemma {:induction false} GroupOfMultiset<K>(a: seq<Row>, b: seq<Row>, f: Row -> K, key: K)
    requires multiset(a) == multiset(b)
    ensures multiset(Group(a, f, key)) == multiset(Group(b, f, key))
  {
    if a == [] {
      assert |multiset(b)| == |b|;
    } else {
      var k, rest := Pair(a, b);
      GroupOfMultiset(a[1..], rest, f, key);
      GroupSplit([a[0]], a[1..], f, key);
      GroupSplit([b[k]], b[k + 1..], f, key);
      GroupSplit(b[..k], b[k + 1..], f, key);
      GroupSplit(b[..k], [b[k]] + b[k + 1..], f, key);
    }
  }

  function SumGroups<K(==)>(rows: seq<Row>, f: Row -> K, keys: seq<K>): nat {
    if keys == [] then 0 else |Group(rows, f, keys[0])| + SumGroups(rows, f, keys[1..])
  }

  // The groups of distinct keys that cover all rows hold every row once.
  lemma {:induction false} GroupsPartition<K>(rows: seq<Row>, f: Row -> K, keys: seq<K>)
    requires Distinct(keys) && forall row | row in rows :: f(row) in keys
    ensures SumGroups(rows, f, keys) == |rows|
    decreases keys
  {
    if keys == [] {
      FirstMember(rows);
    } else {
      var rest := Others(rows, f, keys[0]);
      GroupIs(rows, f, keys[0]);
      forall row | row in rest
        ensures f(row) in keys[1..]
      {
      }
      GroupsPartition(rest, f, keys[1..]);
      SumOfOthers(rows, f, keys[0], keys[1..]);
    }
  }

  lemma {:induction false} SumOfOthers<K>(rows: seq<Row>, f: Row -> K, key: K, keys: seq<K>)
    requires key !in keys
    ensures SumGroups(Others(rows, f, key), f, keys) == SumGroups(rows, f, keys)
  {
    if keys != [] {
      SumOfOthers(rows, f, key, keys[1..]);
      GroupOfOthers(rows, f, key, keys[0]);
    }
  }

  // ---------------------------------------------------------------- candidate cohorts

  datatype Summary = Summary(key: CohortKey, joined: nat, hardware: nat, leakage: nat)

  function KeyOfRow(row: Row): CohortKey { row.key }
  function FamilyOfRow(row: Row): Family { row.family }
  function LeakageOfRow(row: Row): LeakageFamily { row.leakage }

  function InCohort(rows: seq<Row>, key: CohortKey): seq<Row> {
    Group(rows, KeyOfRow, key)
  }

  // COUNT(*), COUNT(DISTINCT family), COUNT(DISTINCT leakage_family) of a cohort.
  function Summarize(rows: seq<Row>, key: CohortKey): Summary {
    var cohort := InCohort(rows, key);
    Summary(key, |cohort|, |Keys(cohort, FamilyOfRow)|, |Keys(cohort, LeakageOfRow)|)
  }

  // The text order of the ten cohort columns.
  type KeyOrder = (CohortKey, CohortKey) -> bool

  // ORDER BY leakage_groups DESC, hardware_identities DESC, joined_observations DESC, columns.
  predicate Before(o: KeyOrder, a: Summary, b: Summary) {
    if a.leakage != b.leakage then a.leakage > b.leakage
    else if a.hardware != b.hardware then a.hardware > b.hardware
    else if a.joined != b.joined then a.joined > b.joined
    else Less(o, a.key, b.key)
  }

  function Ranking(o: KeyOrder): (Summary, Summary) -> bool {
    (a, b) => Before(o, a, b)
  }

  lemma RankingIsTotal(o: KeyOrder)
    requires TotalOrder(o)
    ensures TotalOrder(Ranking(o))
  {
    forall a
      ensures !Less(Ranking(o), a, a)
    {
      assert !Less(o, a.key, a.key);
    }
    forall a, b, c | Less(Ranking(o), a, b) && Less(Ranking(o), b, c)
      ensures Less(Ranking(o), a, c)
    {
      assert Less(o, a.key, b.key) && Less(o, b.key, c.key) ==> Less(o, a.key, c.key);
    }
    forall a, b
      ensures a == b || Less(Ranking(o), a, b) || Less(Ranking(o), b, a)
    {
      assert a.key == b.key || Less(o, a.key, b.key) || Less(o, b.key, a.key);
    }
  }

  // One summary for each cohort of the store, in order.
  ghost predicate CandidateList(o: KeyOrder, rows: seq<Row>, list: seq<Summary>) {
    && InOrder(Ranking(o), list)
    && (forall x | x in list :: x == Summarize(rows, x.key) && exists row :: row in rows && row.key == x.key)
    && forall row | row in rows :: Summarize(rows, row.key) in list
  }

  function Summaries(rows: seq<Row>, keys: seq<CohortKey>): (list: seq<Summary>)
    ensures |list| == |keys| && forall k | 0 <= k < |keys| :: list[k] == Summarize(rows, keys[k])
  {
    seq(|keys|, k requires 0 <= k < |keys| => Summarize(rows, keys[k]))
  }

  function CandidateCohorts(o: KeyOrder, rows: seq<Row>): seq<Summary> {
    Sorted(Ranking(o), Summaries(rows, Keys(rows, KeyOfRow)))
  }

  lemma SummariesAre(rows: seq<Row>, keys: seq<CohortKey>)
    requires Distinct(keys)
    ensures Distinct(Summaries(rows, keys))
    ensures forall x: Summary :: x in Summaries(rows, keys) <==> x.key in keys && x == Summarize(rows, x.key)
  {
    var list := Summaries(rows, keys);
    forall j, k | 0 <= j < k < |list|
      ensures list[j] != list[k]
    {
      assert list[j].key == keys[j] && list[k].key == keys[k];
    }
    forall x: Summary | x.key in keys && x == Summarize(rows, x.key)
      ensures x in list
    {
      var k :| 0 <= k < |keys| && keys[k] == x.key;
      assert list[k] == x;
    }
  }

  lemma CandidateCohortsIs(o: KeyOrder, rows: seq<Row>)
    requires TotalOrder(o)
    ensures CandidateList(o, rows, CandidateCohorts(o, rows))
  {
    var keys := Keys(rows, KeyOfRow);
    KeysAre(rows, KeyOfRow);
    RankingIsTotal(o);
    SummariesAre(rows, keys);
    SortedIs(Ranking(o), Summaries(rows, keys));
    forall x | x in CandidateCohorts(o, rows)
      ensures exists row :: row in rows && row.key == x.key
    {
      var row :| row in rows && KeyOfRow(row) == x.key;
    }
    forall row | row in rows
      ensures Summarize(rows, row.key) in CandidateCohorts(o, rows)
    {
      assert KeyOfRow(row) in keys;
    }
  }

  lemma SummarizeOfMultiset(a: seq<Row>, b: seq<Row>, key: CohortKey)
    requires multiset(a) == multiset(b)
    ensures Summarize(a, key) == Summarize(b, key)
  {
    var x, y := InCohort(a, key), InCohort(b, key);
    GroupOfMultiset(a, b, KeyOfRow, key);
    assert |multiset(x)| == |x| && |multiset(y)| == |y|;
    KeysOfMultiset(x, y, FamilyOfRow);
    KeysOfMultiset(x, y, LeakageOfRow);
  }

  lemma SameRows(a: seq<Row>, b: seq<Row>)
    requires multiset(a) == multiset(b)
    ensures forall row :: row in a <==> row in b
  {
    forall row
      ensures row in a <==> row in b
    {
      assert row in a <==> row in multiset(a);
      assert row in b <==> row in multiset(b);
    }
  }

  // The number of distinct values does not depend on the order of the rows.
  lemma KeysOfMultiset<K>(a: seq<Row>, b: seq<Row>, f: Row -> K)
    requires multiset(a) == multiset(b)
    ensures |Keys(a, f)| == |Keys(b, f)| && SetOf(Keys(a, f)) == SetOf(Keys(b, f))
  {
    SameRows(a, b);
    KeysAre(a, f);
    KeysAre(b, f);
    assert SetOf(Keys(a, f)) == SetOf(Keys(b, f));
    SetSize(Keys(a, f));
    SetSize(Keys(b, f));
  }

  // The candidate list depends on the stored rows only, not on the order they were stored in.
  lemma CandidateListUnique(o: KeyOrder, a: seq<Row>, b: seq<Row>, x: seq<Summary>, y: seq<Summary>)
    requires TotalOrder(o) && multiset(a) == multiset(b)
    requires CandidateList(o, a, x) && CandidateList(o, b, y)
    ensures x == y
  {
    SameRows(a, b);
    forall s
      ensures s in x <==> s in y
    {
      SummarizeOfMultiset(a, b, s.key);
    }
    RankingIsTotal(o);
    SameElementsSameList(Ranking(o), x, y);
  }

  // ---------------------------------------------------------------- totals

  function SumJoined(list: seq<Summary>): nat {
    if list == [] then 0 else list[0].joined + SumJoined(list[1..])
  }

  function ListKeys(list: seq<Summary>): (keys: seq<CohortKey>)
    ensures |keys| == |list| && forall k | 0 <= k < |list| :: keys[k] == list[k].key
  {
    seq(|list|, k requires 0 <= k < |list| => list[k].key)
  }

  lemma {:induction false} SumJoinedIs(rows: seq<Row>, list: seq<Summary>)
    requires forall x | x in list :: x == Summarize(rows, x.key)
    ensures SumJoined(list) == SumGroups(rows, KeyOfRow, ListKeys(list))
  {
    if list != [] {
      SumJoinedIs(rows, list[1..]);
      assert list[0] in list;
      assert ListKeys(list)[1..] == ListKeys(list[1..]);
    }
  }

  // The joined observations of the candidate cohorts add up to the stored rows.
  lemma CandidatesPartitionRows(o: KeyOrder, rows: seq<Row>, list: seq<Summary>)
    requires TotalOrder(o) && CandidateList(o, rows, list)
    ensures SumJoined(list) == |rows|
  {
    var keys := ListKeys(list);
    SumJoinedIs(rows, list);
    RankingIsTotal(o);
    InOrderIsDistinct(Ranking(o), list);
    forall j, k | 0 <= j < k < |keys|
      ensures keys[j] != keys[k]
    {
      assert list[j] in list && list[k] in list && list[j] != list[k];
    }
    forall row | row in rows
      ensures KeyOfRow(row) in keys
    {
      var k :| 0 <= k < |list| && list[k] == Summarize(rows, row.key);
      assert keys[k] == row.key;
    }
    GroupsPartition(rows, KeyOfRow, keys);
  }

  // The leakage group of a row is a function of its family.
  predicate LeakageByFamily(rows: seq<Row>, leakage: Family -> LeakageFamily) {
    forall row | row in rows :: row.leakage == leakage(row.family)
  }

  ghost function Image(families: set<Family>, leakage: Family -> LeakageFamily): set<LeakageFamily> {
    set family | family in families :: leakage(family)
  }

  lemma {:induction false} ImageSize(families: set<Family>, leakage: Family -> LeakageFamily)
    ensures |Image(families, leakage)| <= |families|
    decreases |families|
  {
    if families != {} {
      var family :| family in families;
      ImageSize(families - {family}, leakage);
      assert Image(families, leakage) == Image(families - {family}, leakage) + {leakage(family)};
    }
  }

  // Leakage groups ≤ hardware identities ≤ joined observations, in every cohort.
  lemma SummaryOrder(rows: seq<Row>, key: CohortKey, leakage: Family -> LeakageFamily)
    requires LeakageByFamily(rows, leakage)
    ensures var x := Summarize(rows, key);
            x.leakage <= x.hardware <= x.joined
  {
    var cohort := InCohort(rows, key);
    GroupIs(rows, KeyOfRow, key);
    KeysAre(cohort, FamilyOfRow);
    KeysAre(cohort, LeakageOfRow);
    SetSize(Keys(cohort, FamilyOfRow));
    SetSize(Keys(cohort, LeakageOfRow));
    ImageSize(SetOf(Keys(cohort, FamilyOfRow)), leakage);
    assert SetOf(Keys(cohort, LeakageOfRow)) == Image(SetOf(Keys(cohort, FamilyOfRow)), leakage);
  }

  // ---------------------------------------------------------------- selection

  datatype Pin = Pin(cohort: Cohort, execution: Option<Execution>)

  datatype SelectError = NoCandidates | PinnedMissing | PinnedAmbiguous | TooFewProducts

  function Pinned(list: seq<Summary>, pin: Pin): seq<Summary> {
    if list == [] then []
    else if list[0].key.cohort == pin.cohort && (pin.execution == None || pin.execution == Some(list[0].key.execution))
    then [list[0]] + Pinned(list[1..], pin)
    else Pinned(list[1..], pin)
  }

  function Select(list: seq<Summary>, pin: Option<Pin>, minimumPilot: int): Result<Summary, SelectError> {
    var matches := if pin.Some? then Pinned(list, pin.value) else list;
    if matches == [] then Failure(if pin.Some? then PinnedMissing else NoCandidates)
    else if pin.Some? && |matches| != 1 then Failure(PinnedAmbiguous)
    else if matches[0].hardware < minimumPilot then Failure(TooFewProducts)
    else Success(matches[0])
  }

  lemma {:induction false} PinnedListed(list: seq<Summary>, pin: Pin)
    ensures forall x | x in Pinned(list, pin) :: x in list && x.key.cohort == pin.cohort
  {
    if list != [] {
      PinnedListed(list[1..], pin);
    }
  }

  lemma SelectedIsListed(list: seq<Summary>, pin: Option<Pin>, minimumPilot: int)
    requires Select(list, pin, minimumPilot).Success?
    ensures var x := Select(list, pin, minimumPilot).value;
            x in list && x.hardware >= minimumPilot && (pin.Some? ==> x.key.cohort == pin.value.cohort)
  {
    if pin.Some? {
      PinnedListed(list, pin.value);
    }
  }

  // ---------------------------------------------------------------- output rows

  datatype OutputRow = OutputRow(
    entry: CatalogFamily,
    count: nat,
    median: real,
    deviation: real,
    target: real,
    sourceUrls: set<string>,
    hardwareNames: set<string>)

  function Scores(rows: seq<Row>): (scores: seq<real>)
    ensures |scores| == |rows| && forall k | 0 <= k < |rows| :: scores[k] == rows[k].score
  {
    seq(|rows|, k requires 0 <= k < |rows| => rows[k].score)
  }

  predicate PositiveScores(rows: seq<Row>) {
    forall row | row in rows :: row.score > 0.0
  }

  function FamilyRows(rows: seq<Row>, key: CohortKey, family: Family): seq<Row> {
    Group(InCohort(rows, key), FamilyOfRow, family)
  }

  function Aggregate(group: seq<Row>, entry: CatalogFamily, scale: real, higherIsBetter: bool): OutputRow
    requires group != [] && PositiveScores(group) && scale > 0.0
  {
    assert Scores(group) != [] && forall x | x in Scores(group) :: x > 0.0;
    MedianPositive(Scores(group));
    var median := Median(Scores(group));
    OutputRow(entry, |group|, median, MedianDeviation(Scores(group)), Target(scale, median, higherIsBetter),
              set row | row in group :: row.sourceUrl, set row | row in group :: row.hardwareName)
  }

  lemma ScoresSplit(a: seq<Row>, b: seq<Row>)
    ensures Scores(a + b) == Scores(a) + Scores(b)
  {
  }

  lemma ScoresTakeOut(rows: seq<Row>, k: nat)
    requires k < |rows|
    ensures multiset(Scores(rows)) == multiset{rows[k].score} + multiset(Scores(rows[..k] + rows[k + 1..]))
  {
    var front, back := rows[..k], rows[k + 1..];
    ScoresSplit(front, back);
    assert Scores(rows) == Scores(front) + [rows[k].score] + Scores(back);
  }

  lemma ScoresFirst(rows: seq<Row>)
    requires rows != []
    ensures multiset(Scores(rows)) == multiset{rows[0].score} + multiset(Scores(rows[1..]))
  {
    assert Scores(rows) == [rows[0].score] + Scores(rows[1..]);
  }

  lemma {:induction false} ScoresOfMultiset(a: seq<Row>, b: seq<Row>)
    requires multiset(a) == multiset(b)
    ensures multiset(Scores(a)) == multiset(Scores(b))
    decreases |a|
  {
    if a == [] {
      assert |multiset(b)| == |b|;
    } else {
      var k, rest := Pair(a, b);
      ScoresOfMultiset(a[1..], rest);
      ScoresFirst(a);
      ScoresTakeOut(b, k);
    }
  }

  lemma AggregateOfMultiset(a: seq<Row>, b: seq<Row>, entry: CatalogFamily, scale: real, higherIsBetter: bool)
    requires a != [] && b != [] && PositiveScores(a) && PositiveScores(b) && scale > 0.0 && multiset(a) == multiset(b)
    ensures Aggregate(a, entry, scale, higherIsBetter) == Aggregate(b, entry, scale, higherIsBetter)
  {
    SameRows(a, b);
    ScoresOfMultiset(a, b);
    MedianOfMultiset(Scores(a), Scores(b));
    DeviationOfMultiset(Scores(a), Scores(b));
    assert |multiset(a)| == |a| && |multiset(b)| == |b|;
    assert (set row | row in a :: row.sourceUrl) == (set row | row in b :: row.sourceUrl);
    assert (set row | row in a :: row.hardwareName) == (set row | row in b :: row.hardwareName);
  }

  // ---------------------------------------------------------------- the whole preparation

  // The text order of the family names.
  type FamilyOrder = (Family, Family) -> bool

  datatype Options = Options(order: KeyOrder, families: FamilyOrder, pin: Option<Pin>, minimumPilot: int, scale: real)

  datatype Prepared = Prepared(
    counters: map<Counter, nat>,
    candidates: seq<Summary>,
    selected: Summary,
    families: seq<Family>,
    outputs: seq<OutputRow>)

  datatype PrepareError = MissingField | Selection(error: SelectError)

  // What joined rows have in common.
  ghost predicate GoodRows(s: Setup, rs: seq<Record>, rows: seq<Row>) {
    && PositiveScores(rows)
    && LeakageByFamily(rows, s.lib.leakage)
    && forall row | row in rows :: row.family in FamiliesOf(s, rs)
  }

  lemma {:induction false} JoinedRowsAreGood(s: Setup, rs: seq<Record>)
    ensures GoodRows(s, rs, RowsOf(s, rs))
  {
    if rs != [] {
      var front, last := rs[..|rs| - 1], rs[|rs| - 1];
      JoinedRowsAreGood(s, front);
      var l := LookupOf(s, last);
      if OutcomeOf(s, last).Matched? {
        FamilyNames(s, l.key, l.envelope.hardwareName);
      }
    }
  }

  ghost predicate IsOutput(s: Setup, rs: seq<Record>, x: Options, selected: Summary, family: Family, out: OutputRow) {
    var group := FamilyRows(RowsOf(s, rs), selected.key, family);
    && x.scale > 0.0 && group != [] && PositiveScores(group) && family in FamiliesOf(s, rs)
    && out == Aggregate(group, FamiliesOf(s, rs)[family], x.scale, selected.key.semantics.higherIsBetter)
  }

  // SELECT DISTINCT family ... ORDER BY family.
  function CohortFamilyList(o: FamilyOrder, rows: seq<Row>, key: CohortKey): seq<Family> {
    Sorted(o, Keys(InCohort(rows, key), FamilyOfRow))
  }

  // One output row for each family of the selected cohort, in the order of the families.
  ghost predicate PreparedFrom(s: Setup, rs: seq<Record>, x: Options, p: Prepared) {
    && CountersAre(s, rs, p.counters)
    && p.candidates == CandidateCohorts(x.order, RowsOf(s, rs))
    && Select(p.candidates, x.pin, x.minimumPilot) == Success(p.selected)
    && p.families == CohortFamilyList(x.families, RowsOf(s, rs), p.selected.key)
    && OutputsFrom(s, rs, x, p.selected, p.families, p.outputs)
  }

  ghost predicate OutputsFrom(s: Setup, rs: seq<Record>, x: Options, selected: Summary, families: seq<Family>,
                              outputs: seq<OutputRow>) {
    && |outputs| == |families|
    && forall k | 0 <= k < |families| :: IsOutput(s, rs, x, selected, families[k], outputs[k])
  }

  // Under a total order of the names the listed families are those of the cohort, each once, in
  // order, and no other list is.
  lemma CohortFamilyListIs(o: FamilyOrder, rows: seq<Row>, key: CohortKey)
    requires TotalOrder(o)
    ensures var list := CohortFamilyList(o, rows, key);
            && InOrder(o, list) && Distinct(list)
            && (forall family :: family in list <==> exists row :: row in InCohort(rows, key) && row.family == family)
            && |list| == Summarize(rows, key).hardware
  {
    var keys := Keys(InCohort(rows, key), FamilyOfRow);
    KeysAre(InCohort(rows, key), FamilyOfRow);
    SortedIs(o, keys);
    InOrderIsDistinct(o, CohortFamilyList(o, rows, key));
    forall family
      ensures family in keys <==> exists row :: row in InCohort(rows, key) && row.family == family
    {
      if row :| row in InCohort(rows, key) && row.family == family {
        assert FamilyOfRow(row) == family;
      }
    }
  }

  lemma FamilyRowsAre(s: Setup, rs: seq<Record>, key: CohortKey, family: Family)
    requires family in Keys(InCohort(RowsOf(s, rs), key), FamilyOfRow)
    ensures var group := FamilyRows(RowsOf(s, rs), key, family);
            group != [] && PositiveScores(group) && family in FamiliesOf(s, rs)
  {
    var rows := RowsOf(s, rs);
    JoinedRowsAreGood(s, rs);
    GroupIs(rows, KeyOfRow, key);
    GroupIs(InCohort(rows, key), FamilyOfRow, family);
    KeysAre(InCohort(rows, key), FamilyOfRow);
    var row :| row in InCohort(rows, key) && FamilyOfRow(row) == family;
    assert row in FamilyRows(rows, key, family);
  }

  lemma ListedFamilyRows(s: Setup, rs: seq<Record>, o: FamilyOrder, key: CohortKey, family: Family)
    requires family in CohortFamilyList(o, RowsOf(s, rs), key)
    ensures var group := FamilyRows(RowsOf(s, rs), key, family);
            group != [] && PositiveScores(group) && family in FamiliesOf(s, rs)
  {
    SortedHas(o, Keys(InCohort(RowsOf(s, rs), key), FamilyOfRow));
    FamilyRowsAre(s, rs, key, family);
  }

  // Why there is nothing to prepare, if so.
  ghost function Refusal(s: Setup, rs: seq<Record>, x: Options): Option<PrepareError> {
    if Aborts(s, rs) then Some(MissingField)
    else
      match Select(CandidateCohorts(x.order, RowsOf(s, rs)), x.pin, x.minimumPilot)
      case Success(_) => None
      case Failure(error) => Some(Selection(error))
  }

  method Prepare(s: Setup, rs: seq<Record>, x: Options) returns (r: Result<Prepared, PrepareError>)
    requires x.scale > 0.0
    ensures Refusal(s, rs, x) == if r.Failure? then Some(r.error) else None
    ensures r.Success? ==> PreparedFrom(s, rs, x, r.value)
  {
    var joined := JoinAll(s, rs);
    if joined.None? {
      return Failure(MissingField);
    }
    var rows, families := joined.value.rows, joined.value.families;
    var candidates := CandidateCohorts(x.order, rows);
    var selection := Select(candidates, x.pin, x.minimumPilot);
    if selection.Failure? {
      return Failure(Selection(selection.error));
    }
    var selected := selection.value;
    var names := CohortFamilyList(x.families, rows, selected.key);
    var outputs: seq<OutputRow> := [];
    for n := 0 to |names|
      invariant |outputs| == n && forall k | 0 <= k < n :: IsOutput(s, rs, x, selected, names[k], outputs[k])
    {
      ListedFamilyRows(s, rs, x.families, selected.key, names[n]);
      var group := FamilyRows(rows, selected.key, names[n]);
      outputs := outputs + [Aggregate(group, families[names[n]], x.scale, selected.key.semantics.higherIsBetter)];
    }
    r := Success(Prepared(joined.value.counters, candidates, selected, names, outputs));
  }

  // ---------------------------------------------------------------- what the preparation promises

  function SumCounts(outputs: seq<OutputRow>): nat {
    if outputs == [] then 0 else outputs[0].count + SumCounts(outputs[1..])
  }

  lemma {:induction false} SumCountsIs(s: Setup, rs: seq<Record>, x: Options, selected: Summary, families: seq<Family>,
                                       outputs: seq<OutputRow>)
    requires OutputsFrom(s, rs, x, selected, families, outputs)
    ensures SumCounts(outputs) == SumGroups(InCohort(RowsOf(s, rs), selected.key), FamilyOfRow, families)
  {
    if families != [] {
      SumCountsIs(s, rs, x, selected, families[1..], outputs[1..]);
      assert IsOutput(s, rs, x, selected, families[0], outputs[0]);
    }
  }

  // The output rows count every observation of the selected cohort once; the cohort has no more
  // leakage groups than hardware identities, and no more of those than observations; every
  // target is positive.
  lemma PreparedAddsUp(s: Setup, rs: seq<Record>, x: Options, p: Prepared)
    requires TotalOrder(x.order) && TotalOrder(x.families) && PreparedFrom(s, rs, x, p)
    ensures SumCounts(p.outputs) == p.selected.joined
    ensures |p.outputs| == p.selected.hardware
    ensures p.selected.leakage <= p.selected.hardware <= p.selected.joined
    ensures SumJoined(p.candidates) == |RowsOf(s, rs)| == Get(p.counters, Joined)
  {
    var rows := RowsOf(s, rs);
    CandidateCohortsIs(x.order, rows);
    CandidatesPartitionRows(x.order, rows, p.candidates);
    SelectedIsListed(p.candidates, x.pin, x.minimumPilot);
    JoinedRowsAreGood(s, rs);
    SummaryOrder(rows, p.selected.key, s.lib.leakage);
    CohortFamilyListIs(x.families, rows, p.selected.key);
    SumCountsIs(s, rs, x, p.selected, p.families, p.outputs);
    GroupsPartition(InCohort(rows, p.selected.key), FamilyOfRow, p.families);
  }

  lemma SameOutput(s: Setup, a: seq<Record>, b: seq<Record>, x: Options, selected: Summary, family: Family,
                   out: OutputRow, other: OutputRow)
    requires multiset(RowsOf(s, a)) == multiset(RowsOf(s, b)) && FamiliesOf(s, a) == FamiliesOf(s, b)
    requires IsOutput(s, a, x, selected, family, out) && IsOutput(s, b, x, selected, family, other)
    ensures out == other
  {
    GroupOfMultiset(RowsOf(s, a), RowsOf(s, b), KeyOfRow, selected.key);
    GroupOfMultiset(InCohort(RowsOf(s, a), selected.key), InCohort(RowsOf(s, b), selected.key), FamilyOfRow, family);
    AggregateOfMultiset(FamilyRows(RowsOf(s, a), selected.key, family), FamilyRows(RowsOf(s, b), selected.key, family),
                        FamiliesOf(s, a)[family], x.scale, selected.key.semantics.higherIsBetter);
  }

  lemma SameFamilyList(s: Setup, a: seq<Record>, b: seq<Record>, o: FamilyOrder, key: CohortKey)
    requires TotalOrder(o) && multiset(RowsOf(s, a)) == multiset(RowsOf(s, b))
    ensures CohortFamilyList(o, RowsOf(s, a), key) == CohortFamilyList(o, RowsOf(s, b), key)
  {
    var x, y := Keys(InCohort(RowsOf(s, a), key), FamilyOfRow), Keys(InCohort(RowsOf(s, b), key), FamilyOfRow);
    GroupOfMultiset(RowsOf(s, a), RowsOf(s, b), KeyOfRow, key);
    KeysOfMultiset(InCohort(RowsOf(s, a), key), InCohort(RowsOf(s, b), key), FamilyOfRow);
    KeysAre(InCohort(RowsOf(s, a), key), FamilyOfRow);
    KeysAre(InCohort(RowsOf(s, b), key), FamilyOfRow);
    SortedOfSet(o, x, y);
  }

  lemma SameOutputs(s: Setup, a: seq<Record>, b: seq<Record>, x: Options, selected: Summary, families: seq<Family>,
                    outs: seq<OutputRow>, others: seq<OutputRow>)
    requires multiset(RowsOf(s, a)) == multiset(RowsOf(s, b)) && FamiliesOf(s, a) == FamiliesOf(s, b)
    requires OutputsFrom(s, a, x, selected, families, outs) && OutputsFrom(s, b, x, selected, families, others)
    ensures outs == others
  {
    forall k | 0 <= k < |families|
      ensures outs[k] == others[k]
    {
      SameOutput(s, a, b, x, selected, families[k], outs[k], others[k]);
    }
  }

  lemma SameCandidates(s: Setup, a: seq<Record>, b: seq<Record>, o: KeyOrder)
    requires TotalOrder(o) && multiset(RowsOf(s, a)) == multiset(RowsOf(s, b))
    ensures CandidateCohorts(o, RowsOf(s, a)) == CandidateCohorts(o, RowsOf(s, b))
  {
    CandidateCohortsIs(o, RowsOf(s, a));
    CandidateCohortsIs(o, RowsOf(s, b));
    CandidateListUnique(o, RowsOf(s, a), RowsOf(s, b),
                        CandidateCohorts(o, RowsOf(s, a)), CandidateCohorts(o, RowsOf(s, b)));
  }

  // Every order of the Blender records succeeds or fails alike, with the same error.
  lemma SuccessIsOrderFree(s: Setup, a: seq<Record>, b: seq<Record>, x: Options)
    requires TotalOrder(x.order) && multiset(a) == multiset(b)
    ensures Refusal(s, a, x) == Refusal(s, b, x)
  {
    OrderChangesNothing(s, a, b);
    SameCandidates(s, a, b, x.order);
  }

  // With integral memory sizes, every order of the Blender records gives the same counters, the
  // same candidate cohorts, the same selection and the same output rows.
  lemma PreparationIsOrderFree(s: Setup, a: seq<Record>, b: seq<Record>, x: Options, p: Prepared, q: Prepared)
    requires TotalOrder(x.order) && TotalOrder(x.families) && IntegralVram(s) && multiset(a) == multiset(b)
    requires PreparedFrom(s, a, x, p) && PreparedFrom(s, b, x, q)
    ensures forall c :: Get(p.counters, c) == Get(q.counters, c)
    ensures p.candidates == q.candidates && p.selected == q.selected
    ensures p.families == q.families && p.outputs == q.outputs
  {
    OrderChangesNothing(s, a, b);
    SameCandidates(s, a, b, x.order);
    IntegralVramAgrees(s, a);
    AgreeingFamilies(s, a, b);
    SameFamilyList(s, a, b, x.families, p.selected.key);
    SameOutputs(s, a, b, x, p.selected, p.families, p.outputs, q.outputs);
  }

  // What an output row says about its group, without naming a query: the counting median of the
  // scores and of their deviations, the target on the common scale, and exactly the sources and
  // hardware names that were observed.
  ghost predicate Describes(group: seq<Row>, scale: real, higherIsBetter: bool, out: OutputRow) {
    && out.count == |group| > 0
    && IsMedian(Scores(group), out.median)
    && IsMedian(Deviations(Scores(group), out.median), out.deviation)
    && OnScale(out.target, out.median, scale, higherIsBetter)
    && Observed(group, out)
  }

  ghost predicate Observed(group: seq<Row>, out: OutputRow) {
    && (forall url :: url in out.sourceUrls <==> exists row :: row in group && row.sourceUrl == url)
    && (forall name :: name in out.hardwareNames <==> exists row :: row in group && row.hardwareName == name)
  }

  lemma AggregateObserves(group: seq<Row>, entry: CatalogFamily, scale: real, higherIsBetter: bool)
    requires group != [] && PositiveScores(group) && scale > 0.0
    ensures Observed(group, Aggregate(group, entry, scale, higherIsBetter))
  {
  }

  lemma DeviationIsMedian(s: seq<real>)
    requires s != []
    ensures IsMedian(s, Median(s)) && IsMedian(Deviations(s, Median(s)), MedianDeviation(s))
  {
    MedianIs(s);
    MedianIs(Deviations(s, Median(s)));
  }

  lemma AggregateDescribes(group: seq<Row>, entry: CatalogFamily, scale: real, higherIsBetter: bool)
    returns (out: OutputRow)
    requires group != [] && PositiveScores(group) && scale > 0.0
    ensures out == Aggregate(group, entry, scale, higherIsBetter) && Describes(group, scale, higherIsBetter, out)
  {
    out := Aggregate(group, entry, scale, higherIsBetter);
    AggregateObserves(group, entry, scale, higherIsBetter);
    DeviationIsMedian(Scores(group));
    MedianPositive(Scores(group));
    TargetIsOnScale(scale, Median(Scores(group)), higherIsBetter);
  }

  lemma OutputDescribesGroup(s: Setup, rs: seq<Record>, x: Options, selected: Summary, family: Family, out: OutputRow)
    requires IsOutput(s, rs, x, selected, family, out)
    ensures Describes(FamilyRows(RowsOf(s, rs), selected.key, family), x.scale,
                      selected.key.semantics.higherIsBetter, out)
  {
    var aggregated := AggregateDescribes(FamilyRows(RowsOf(s, rs), selected.key, family), FamiliesOf(s, rs)[family],
                                         x.scale, selected.key.semantics.higherIsBetter);
  }

  predicate AtLeastAsLarge(a: Summary, b: Summary) {
    && a.leakage >= b.leakage
    && (a.leakage == b.leakage ==> a.hardware >= b.hardware)
    && (a.leakage == b.leakage && a.hardware == b.hardware ==> a.joined >= b.joined)
  }

  // Without a pin the selected cohort is a largest one: by leakage groups, then by hardware
  // identities, then by observations.
  lemma SelectedIsLargest(o: KeyOrder, rows: seq<Row>, minimumPilot: int, row: Row)
    requires TotalOrder(o) && row in rows && Select(CandidateCohorts(o, rows), None, minimumPilot).Success?
    ensures AtLeastAsLarge(Select(CandidateCohorts(o, rows), None, minimumPilot).value, Summarize(rows, row.key))
  {
    CandidateCohortsIs(o, rows);
    var list := CandidateCohorts(o, rows);
    var k :| 0 <= k < |list| && list[k] == Summarize(rows, row.key);
    assert k > 0 ==> Before(o, list[0], list[k]);
  }
}
