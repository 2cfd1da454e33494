// Sequences of imports of one source: which report each batch is judged against, and how far a chain
// of passing batches can drift.
module QualityHistory {
  import opened Common
  import opened QualityBaseline

  // ---------------------------------------------------------------- sequences of imports

  // What happens to the directories of a source, one after the other: a complete import, also of a
  // snapshot that is there already; an import that stops once its manifest is written; and a
  // directory that another variant of the source makes.  The k-th event happens at time k.
  datatype Event =
    | Imported(report: Report)
    | Abandoned(snapshot: Digest, counts: Counts)
    | OtherVariant(snapshot: Digest)

  datatype History = History(source: Label, policy: Policy, events: seq<Event>)

  function EntryAt(a: Archive, name: Digest): Entry {
    if name in a then a[name] else Entry(0, None, None)
  }

  // A batch is written to its directory, manifest included, before the baseline is loaded.
  function WithBatch(a: Archive, source: Label, snapshot: Digest, c: Counts): Archive {
    a[snapshot := EntryAt(a, snapshot).(manifest := Some(ManifestOf(source, snapshot, c)))]
  }

  function After(source: Label, events: seq<Event>): Archive {
    if events == [] then map[]
    else
      var a := After(source, events[..|events| - 1]);
      match events[|events| - 1]
      case Imported(r) => a[r.snapshot := EntryOf(r, |events| - 1)]
      case Abandoned(snapshot, c) => WithBatch(a, source, snapshot, c)
      case OtherVariant(snapshot) => a[snapshot := EntryAt(a, snapshot)]
  }

  predicate Imports(h: History, k: nat) {
    k < |h.events| && h.events[k].Imported?
  }

  // What the loader of the k-th import finds in the archive.
  function SeenBy(h: History, k: nat): Archive
    requires Imports(h, k)
  {
    var r := h.events[k].report;
    WithBatch(After(h.source, h.events[..k]), h.source, r.snapshot, r.counts)
  }

  ghost predicate JudgedBy(h: History, k: nat, b: Option<Report>)
    requires Imports(h, k)
  {
    var r := h.events[k].report;
    && IsLoaded(SeenBy(h, k), h.source, r.snapshot, SCAN_LIMIT, b)
    && r == Judge(h.source, r.snapshot, b, r.counts, h.policy)
  }

  // Every import was judged against what the loader found.
  ghost predicate ValidHistory(h: History) {
    forall k: nat | Imports(h, k) :: WasJudged(h, k)
  }

  ghost predicate WasJudged(h: History, k: nat)
    requires Imports(h, k)
  {
    exists b :: JudgedBy(h, k, b)
  }

  // ---------------------------------------------------------------- reports in force

  // The last complete import of a snapshot, and the last manifest that was written for it.
  function LastReport(events: seq<Event>, name: Digest): Option<nat> {
    if events == [] then None
    else
      var last := events[|events| - 1];
      if last.Imported? && last.report.snapshot == name then Some(|events| - 1)
      else LastReport(events[..|events| - 1], name)
  }

  function LastManifest(source: Label, events: seq<Event>, name: Digest): Option<ManifestSummary> {
    if events == [] then None
    else
      match events[|events| - 1]
      case Imported(r) =>
        if r.snapshot == name then Some(ManifestOf(r.source, name, r.counts))
        else LastManifest(source, events[..|events| - 1], name)
      case Abandoned(snapshot, c) =>
        if snapshot == name then Some(ManifestOf(source, name, c)) else LastManifest(source,
                                                                                     events[..|events| - 1], name)
      case OtherVariant(_) => LastManifest(source, events[..|events| - 1], name)
  }

  // The report of an earlier event counts for the k-th import: it passed, is about another
  // snapshot, was not overwritten, its last manifest vouches for it, and the scan reaches it.
  predicate InForce(h: History, k: nat, j: nat)
    requires Imports(h, k) && j < k
  {
    Imports(h, j) &&
    var r := h.events[j].report;
    && r.status == Pass && r.counts.reportBytes <= MAX_JSON_BYTES && r.snapshot != h.events[k].report.snapshot
    && LastReport(h.events[..k], r.snapshot) == Some(j)
    && Vouches(LastManifest(h.source, h.events[..k], r.snapshot), r)
    && Reached(SeenBy(h, k), SCAN_LIMIT, r.snapshot)
  }

  // The newest of the first `n` reports that is in force for the k-th import.
  function LatestInForce(h: History, k: nat, n: nat): Option<nat>
    requires Imports(h, k) && n <= k
  {
    if n == 0 then None else if InForce(h, k, n - 1) then Some(n - 1) else LatestInForce(h, k, n - 1)
  }

  function ReportOf(h: History, j: Option<nat>): Option<Report>
    requires j.Some? ==> Imports(h, j.value)
  {
    if j.None? then None else Some(h.events[j.value].report)
  }

  lemma {:induction false} LastReportIs(events: seq<Event>, name: Digest)
    ensures LastReport(events, name).Some? ==>
              var j := LastReport(events, name).value;
              j < |events| && events[j].Imported? && events[j].report.snapshot == name
    ensures forall i | 0 <= i < |events| && events[i].Imported? && events[i].report.snapshot == name ::
              LastReport(events, name).Some? && i <= LastReport(events, name).value
  {
    if events != [] {
      LastReportIs(events[..|events| - 1], name);
    }
  }

  // What the archive holds under a name.
  predicate HoldsLast(source: Label, events: seq<Event>, e: Entry, name: Digest) {
    && e.manifest == LastManifest(source, events, name)
    && (match LastReport(events, name)
        case None => e.report == None
        case Some(j) => j < |events| && events[j].Imported? && e.report == Some(events[j].report) && e.written == j)
  }

  lemma {:induction false} AfterHoldsLast(source: Label, events: seq<Event>, name: Digest)
    ensures HoldsLast(source, events, EntryAt(After(source, events), name), name)
  {
    if events != [] {
      var front, last := events[..|events| - 1], events[|events| - 1];
      AfterHoldsLast(source, front, name);
      LastReportIs(front, name);
    }
  }

  // In the eyes of the loader the directory of the batch itself differs by its manifest only.
  lemma SeenHoldsLast(h: History, k: nat, name: Digest)
    requires Imports(h, k)
    ensures name in SeenBy(h, k) && name != h.events[k].report.snapshot ==>
              HoldsLast(h.source, h.events[..k], SeenBy(h, k)[name], name)
    ensures var e := EntryAt(SeenBy(h, k), name);
            match LastReport(h.events[..k], name)
            case None => e.report == None
            case Some(j) => j < k && Imports(h, j) && e.report == Some(h.events[j].report) && e.written == j
    ensures LastReport(h.events[..k], name).Some? ==> name in SeenBy(h, k)
  {
    AfterHoldsLast(h.source, h.events[..k], name);
  }

  lemma SeenShape(h: History, k: nat)
    requires Imports(h, k)
    ensures DistinctTimes(SeenBy(h, k)) && SnapshotsNamed(SeenBy(h, k))
  {
    var a := SeenBy(h, k);
    forall name | name in a && a[name].report.Some?
      ensures LastReport(h.events[..k], name) == Some(a[name].written)
      ensures a[name].report.value.snapshot == name && a[name].written < k && Imports(h, a[name].written)
      ensures a[name].report.value == h.events[a[name].written].report
    {
      SeenHoldsLast(h, k, name);
      LastReportIs(h.events[..k], name);
    }
  }

  lemma UsableIsInForce(h: History, k: nat, name: Digest)
    requires ValidHistory(h) && Imports(h, k) && Reached(SeenBy(h, k), SCAN_LIMIT, name)
    requires Usable(SeenBy(h, k)[name], h.source, h.events[k].report.snapshot)
    ensures var j := SeenBy(h, k)[name].written;
            j < k && InForce(h, k, j) && h.events[j].report.snapshot == name
  {
    SeenHoldsLast(h, k, name);
    LastReportIs(h.events[..k], name);
  }

  lemma InForceIsUsable(h: History, k: nat, j: nat)
    requires ValidHistory(h) && Imports(h, k) && j < k && InForce(h, k, j)
    ensures var a, name := SeenBy(h, k), h.events[j].report.snapshot;
            && Reached(a, SCAN_LIMIT, name) && a[name].report == Some(h.events[j].report) && a[name].written == j
            && Usable(a[name], h.source, h.events[k].report.snapshot)
  {
    var name := h.events[j].report.snapshot;
    SeenHoldsLast(h, k, name);
    assert WasJudged(h, j);
  }

  lemma {:induction false} LatestIs(h: History, k: nat, n: nat)
    requires Imports(h, k) && n <= k
    ensures var m := LatestInForce(h, k, n);
            && (m.Some? ==> m.value < n && InForce(h, k, m.value))
            && forall j | 0 <= j < n && InForce(h, k, j) :: m.Some? && j <= m.value
  {
    if n > 0 {
      LatestIs(h, k, n - 1);
    }
  }

  lemma LatestIsLoaded(h: History, k: nat)
    requires ValidHistory(h) && Imports(h, k)
    ensures LatestInForce(h, k, k).Some? ==> Imports(h, LatestInForce(h, k, k).value)
    ensures IsLoaded(SeenBy(h, k), h.source, h.events[k].report.snapshot, SCAN_LIMIT, ReportOf(h,
                                                                                               LatestInForce(h, k, k)))
  {
    var a, current, m := SeenBy(h, k), h.events[k].report.snapshot, LatestInForce(h, k, k);
    LatestIs(h, k, k);
    forall name: Digest | Reached(a, SCAN_LIMIT, name) && Usable(a[name], h.source, current)
      ensures m.Some? && a[name].written <= m.value
    {
      UsableIsInForce(h, k, name);
    }
    if m.Some? {
      InForceIsUsable(h, k, m.value);
      assert NewestReached(a, h.source, current, SCAN_LIMIT, h.events[m.value].report.snapshot);
    }
  }

  // Over any sequence of imports, re-imports, abandoned imports and directories of other variants, a
  // batch is judged against the newest report that is in force for it.
  lemma JudgedAgainstLatest(h: History, k: nat, b: Option<Report>)
    requires ValidHistory(h) && Imports(h, k) && JudgedBy(h, k, b)
    ensures LatestInForce(h, k, k).Some? ==> Imports(h, LatestInForce(h, k, k).value)
    ensures b == ReportOf(h, LatestInForce(h, k, k))
  {
    LatestIsLoaded(h, k);
    SeenShape(h, k);
    LoadedUnique(SeenBy(h, k), h.source, h.events[k].report.snapshot, SCAN_LIMIT, b, ReportOf(h, LatestInForce(h,
                                                                                                               k, k)));
  }

  predicate Passed(e: Event) {
    e.Imported? && e.report.status == Pass
  }

  // The last import that passed.
  function LastPass(events: seq<Event>): (p: Option<nat>)
    ensures p.Some? ==> p.value < |events| && Passed(events[p.value])
    ensures forall j | 0 <= j < |events| && Passed(events[j]) :: p.Some? && j <= p.value
  {
    if events == [] then None
    else if Passed(events[|events| - 1]) then Some(|events| - 1)
    else LastPass(events[..|events| - 1])
  }

  // Nothing passed before the k-th import, or the last pass is in force for it.
  predicate LastPassInForce(h: History, k: nat)
    requires Imports(h, k)
  {
    var p := LastPass(h.events[..k]);
    p.None? || InForce(h, k, p.value)
  }

  // A report in force is not the report of any later import.
  lemma InForceIsLast(h: History, k: nat, i: nat, j: nat)
    requires Imports(h, k) && i <= j < k && InForce(h, k, i) && Imports(h, j) &&
             h.events[j].report == h.events[i].report
    ensures i == j
  {
    LastReportIs(h.events[..k], h.events[i].report.snapshot);
    assert h.events[..k][j] == h.events[j];
  }

  // A batch is judged against the last batch that passed exactly when that report is in force.
  lemma JudgedAgainstLastPass(h: History, k: nat, b: Option<Report>)
    requires ValidHistory(h) && Imports(h, k) && JudgedBy(h, k, b)
    ensures b == ReportOf(h, LastPass(h.events[..k])) <==> LastPassInForce(h, k)
  {
    JudgedAgainstLatest(h, k, b);
    LatestIsLastPass(h, k);
  }

  lemma LatestIsLastPass(h: History, k: nat)
    requires Imports(h, k)
    ensures LatestInForce(h, k, k).Some? ==> Imports(h, LatestInForce(h, k, k).value)
    ensures ReportOf(h, LatestInForce(h, k, k)) == ReportOf(h, LastPass(h.events[..k])) <==> LastPassInForce(h, k)
  {
    var p, m := LastPass(h.events[..k]), LatestInForce(h, k, k);
    LatestIs(h, k, k);
    if m.Some? {
      assert Passed(h.events[..k][m.value]);
      assert Imports(h, p.value) && m.value <= p.value;
      if h.events[m.value].report == h.events[p.value].report {
        InForceIsLast(h, k, m.value, p.value);
      }
    }
  }

  // ---------------------------------------------------------------- when the last pass is in force

  predicate Writes(e: Event, name: Digest) {
    match e
    case Imported(r) => r.snapshot == name
    case Abandoned(snapshot, _) => snapshot == name
    case OtherVariant(_) => false
  }

  // No other event up to the k-th wrote the files of this snapshot.
  predicate WrittenOnce(h: History, k: nat, j: nat)
    requires k < |h.events| && Imports(h, j)
  {
    forall i | 0 <= i <= k && i != j :: !Writes(h.events[i], h.events[j].report.snapshot)
  }

  lemma {:induction false} OnlyWriter(source: Label, events: seq<Event>, j: nat)
    requires j < |events| && events[j].Imported?
    requires forall i | j < i < |events| :: !Writes(events[i], events[j].report.snapshot)
    ensures LastReport(events, events[j].report.snapshot) == Some(j)
    ensures LastManifest(source, events, events[j].report.snapshot)
         == Some(ManifestOf(events[j].report.source, events[j].report.snapshot, events[j].report.counts))
  {
    if j < |events| - 1 {
      var front := events[..|events| - 1];
      assert !Writes(events[|events| - 1], events[j].report.snapshot);
      OnlyWriter(source, front, j);
    }
  }

  // While there are no more directories than the scan limit, the one of the batch and those of
  // other variants included, the scan reaches every one of them.
  lemma FewDirectoriesReach(a: Archive, limit: nat, name: Digest)
    requires name in a && |a.Keys| <= limit
    ensures Reached(a, limit, name)
  {
    assert name !in Before(a, name);
    assert |Before(a, name) + {name}| == |Before(a, name)| + 1;
    SmallerSet(Before(a, name) + {name}, a.Keys);
  }

  // A pass that can be loaded and whose files were written once is in force as long as the
  // directories fit the scan.
  lemma WrittenOnceInForce(h: History, k: nat, j: nat)
    requires ValidHistory(h) && Imports(h, k) && j < k && Imports(h, j) && h.events[j].report.status == Pass
    requires Loadable(h.events[j].report) && WrittenOnce(h, k, j) && |SeenBy(h, k).Keys| <= SCAN_LIMIT
    ensures InForce(h, k, j)
  {
    var r := h.events[j].report;
    assert h.events[..k][j] == h.events[j];
    forall i | j < i < k
      ensures !Writes(h.events[..k][i], r.snapshot)
    {
      assert !Writes(h.events[i], r.snapshot);
    }
    OnlyWriter(h.source, h.events[..k], j);
    assert !Writes(h.events[k], r.snapshot);
    SeenHoldsLast(h, k, r.snapshot);
    FewDirectoriesReach(SeenBy(h, k), SCAN_LIMIT, r.snapshot);
    assert WasJudged(h, j);
  }

  // ---------------------------------------------------------------- a truncated list of rejections

  const TRUNCATED := Counts(45_000, 1001, 1000, map[Label("benchmark_observation") := 45_000], map[], 0, 4096, 4096)
  const COLLAPSED := Counts(10, 0, 0, map[Label("benchmark_observation") := 10], map[], 0, 4096, 4096)

  function CollapseHistory(source: Label): History {
    History(source, DEFAULT_POLICY, [
              Imported(Report(source, 0, Pass, TRUNCATED)),
              Imported(Report(source, 1, Pass, COLLAPSED))])
  }

  // A passing batch with one rejection more than the parser lists is nobody's baseline: the next
  // batch passes although hardly any record is left.
  lemma TruncatedListHidesCollapse(source: Label)
    ensures CappedAt(TRUNCATED, 1000)
    ensures ValidHistory(CollapseHistory(source)) && JudgedBy(CollapseHistory(source), 1, None)
    ensures !KeepsFraction(TRUNCATED.accepted, DEFAULT_POLICY.acceptedFraction, COLLAPSED.accepted)
  {
    var h := CollapseHistory(source);
    var first := h.events[0].report;
    assert h.events[..0] == [] && h.events[..1] == [h.events[0]] && [h.events[0]][..0] == [];
    assert After(source, []) == map[];
    assert After(source, [h.events[0]]) == map[0 := EntryOf(first, 0)];
    assert JudgedBy(h, 0, None);
    assert JudgedBy(h, 1, None);
    forall k: nat | Imports(h, k)
      ensures WasJudged(h, k)
    {
      assert k == 0 || k == 1;
    }
  }

  function Passing(events: seq<Event>): seq<Report> {
    if events == [] then []
    else
      var front, last := Passing(events[..|events| - 1]), events[|events| - 1];
      if Passed(last) then front + [last.report] else front
  }

  // ---------------------------------------------------------------- drift along a chain

  // Every report passed against the one before it, which had enough records to compare with.
  predicate Chain(reports: seq<Report>, p: Policy) {
    forall k | 0 <= k < |reports| - 1 :: Link(reports, k, p)
  }

  predicate Link(reports: seq<Report>, k: nat, p: Policy)
    requires k + 1 < |reports|
  {
    && Comparable(reports[k], p)
    && reports[k + 1] == Judge(reports[k + 1].source, reports[k + 1].snapshot, Some(reports[k]),
                               reports[k + 1].counts, p)
    && reports[k + 1].status == Pass
  }

  function Power(x: real, n: nat): real {
    if n == 0 then 1.0 else x * Power(x, n - 1)
  }

  lemma Compound(x: real, power: real, first: real, before: real, now: real)
    requires x >= 0.0 && before >= power * first && now >= before * x
    ensures now >= (x * power) * first
  {
    assert before * x >= (power * first) * x;
    assert (x * power) * first == (power * first) * x;
  }

  // One value keeps the fraction `x` of the value before it.
  predicate Retains(values: seq<real>, k: nat, x: real)
    requires k + 1 < |values|
  {
    values[k + 1] >= values[k] * x
  }

  lemma {:induction false} GeometricDrift(values: seq<real>, x: real, n: nat)
    requires x >= 0.0 && n < |values| && forall k | 0 <= k < |values| - 1 :: Retains(values, k, x)
    ensures values[n] >= Power(x, n) * values[0]
  {
    if n > 0 {
      GeometricDrift(values, x, n - 1);
      assert Retains(values, n - 1, x);
      Compound(x, Power(x, n - 1), values[0], values[n - 1], values[n]);
    }
  }

  function Accepted(reports: seq<Report>): (values: seq<real>)
    ensures |values| == |reports| && forall k | 0 <= k < |reports| :: values[k] == reports[k].counts.accepted as real
  {
    seq(|reports|, k requires 0 <= k < |reports| => reports[k].counts.accepted as real)
  }

  function Coverage(reports: seq<Report>, category: Label): (values: seq<real>)
    ensures |values| == |reports|
    ensures forall k | 0 <= k < |reports| :: values[k] == Of(reports[k].counts.categories, category) as real
  {
    seq(|reports|, k requires 0 <= k < |reports| => Of(reports[k].counts.categories, category) as real)
  }

  lemma {:induction false} RateDrift(reports: seq<Report>, p: Policy, n: nat)
    requires Chain(reports, p) && n < |reports|
    ensures Rate(reports[n].counts) <= Rate(reports[0].counts) + n as real * p.rateIncrease
    decreases n
  {
    if n > 0 {
      RateDrift(reports, p, n - 1);
      assert Link(reports, n - 1, p);
      assert Keeps(reports[n - 1].counts, reports[n].counts, p);
      assert n as real * p.rateIncrease == (n - 1) as real * p.rateIncrease + p.rateIncrease;
    }
  }

  lemma LinkKeepsAccepted(reports: seq<Report>, p: Policy, k: nat)
    requires k + 1 < |reports| && Link(reports, k, p)
    ensures Retains(Accepted(reports), k, p.acceptedFraction)
  {
    assert Keeps(reports[k].counts, reports[k + 1].counts, p);
    assert KeepsFraction(reports[k].counts.accepted, p.acceptedFraction, reports[k + 1].counts.accepted);
  }

  // n steps from the first report, accepted counts have kept at least the n-th power of the
  // accepted fraction, and the rejection rate has risen by at most n times the allowed increase.
  lemma ChainDrift(reports: seq<Report>, p: Policy, n: nat)
    requires Chain(reports, p) && n < |reports| && p.acceptedFraction >= 0.0
    ensures reports[n].counts.accepted as real >= Power(p.acceptedFraction, n) * reports[0].counts.accepted as real
    ensures Rate(reports[n].counts) <= Rate(reports[0].counts) + n as real * p.rateIncrease
  {
    RateDrift(reports, p, n);
    forall k | 0 <= k < |reports| - 1
      ensures Retains(Accepted(reports), k, p.acceptedFraction)
    {
      assert Link(reports, k, p);
      LinkKeepsAccepted(reports, p, k);
    }
    GeometricDrift(Accepted(reports), p.acceptedFraction, n);
  }

  lemma LinkKeepsCategory(reports: seq<Report>, p: Policy, category: Label, k: nat)
    requires k + 1 < |reports| && Link(reports, k, p)
    requires category in reports[k].counts.categories && reports[k].counts.categories[category] >= p.minimumBaseline
    ensures Retains(Coverage(reports, category), k, p.categoryFraction)
  {
    assert Keeps(reports[k].counts, reports[k + 1].counts, p);
    assert KeepsFraction(reports[k].counts.categories[category], p.categoryFraction,
                         Of(reports[k + 1].counts.categories, category));
  }

  // A category that stays well covered keeps the n-th power of the category fraction.
  lemma CategoryDrift(reports: seq<Report>, p: Policy, category: Label, n: nat)
    requires Chain(reports, p) && n < |reports| && p.categoryFraction >= 0.0
    requires forall k | 0 <= k < |reports| - 1 ::
               category in reports[k].counts.categories && reports[k].counts.categories[category] >= p.minimumBaseline
    ensures Of(reports[n].counts.categories, category) as real
         >= Power(p.categoryFraction, n) * Of(reports[0].counts.categories, category) as real
  {
    forall k | 0 <= k < |reports| - 1
      ensures Retains(Coverage(reports, category), k, p.categoryFraction)
    {
      assert Link(reports, k, p);
      LinkKeepsCategory(reports, p, category, k);
    }
    GeometricDrift(Coverage(reports, category), p.categoryFraction, n);
  }

  lemma {:induction false} LastPassIsLast(events: seq<Event>)
    ensures LastPass(events).None? <==> Passing(events) == []
    ensures LastPass(events).Some? ==> Passing(events)[|Passing(events)| - 1] == events[LastPass(events).value].report
  {
    if events != [] {
      LastPassIsLast(events[..|events| - 1]);
    }
  }

  lemma ChainGrows(reports: seq<Report>, r: Report, p: Policy)
    requires Chain(reports, p) && reports != [] && Comparable(reports[|reports| - 1], p) && r.status == Pass
    requires r == Judge(r.source, r.snapshot, Some(reports[|reports| - 1]), r.counts, p)
    ensures Chain(reports + [r], p)
  {
    forall k | 0 <= k < |reports + [r]| - 1
      ensures Link(reports + [r], k, p)
    {
      if k < |reports| - 1 {
        assert Link(reports, k, p);
      }
    }
  }

  // The passing batches among the first events form such a chain, as long as the last of them is in
  // force at every import and each is large enough to be compared with.
  lemma {:induction false} PassingFormChain(h: History, k: nat)
    requires ValidHistory(h) && k <= |h.events|
    requires forall m: nat | Imports(h, m) && m < k :: LastPassInForce(h, m)
    requires forall m | 0 <= m < k && Passed(h.events[m]) :: Comparable(h.events[m].report, h.policy)
    ensures Chain(Passing(h.events[..k]), h.policy)
    ensures forall r | r in Passing(h.events[..k]) :: Comparable(r, h.policy)
  {
    if k > 0 {
      PassingFormChain(h, k - 1);
      assert h.events[..k][..k - 1] == h.events[..k - 1];
      if Passed(h.events[k - 1]) {
        PassExtendsChain(h, k - 1);
      }
    }
  }

  lemma PassExtendsChain(h: History, k: nat)
    requires ValidHistory(h) && Imports(h, k) && Passed(h.events[k]) && LastPassInForce(h, k)
    requires Chain(Passing(h.events[..k]), h.policy)
    requires forall r | r in Passing(h.events[..k]) :: Comparable(r, h.policy)
    ensures Chain(Passing(h.events[..k]) + [h.events[k].report], h.policy)
  {
    assert WasJudged(h, k);
    var b :| JudgedBy(h, k, b);
    JudgedAgainstLastPass(h, k, b);
    LastPassIsLast(h.events[..k]);
    var front := Passing(h.events[..k]);
    if front != [] {
      assert front[|front| - 1] in front;
      ChainGrows(front, h.events[k].report, h.policy);
    }
  }

  // Every pass among the first events can be loaded, is large enough, and wrote its files alone.
  predicate SoundPasses(h: History, k: nat)
    requires k <= |h.events|
  {
    forall m | 0 <= m < k && Passed(h.events[m]) ::
      && Comparable(h.events[m].report, h.policy) && Loadable(h.events[m].report)
      && forall i | 0 <= i < k && i != m :: !Writes(h.events[i], h.events[m].report.snapshot)
  }

  lemma SoundPassInForce(h: History, k: nat, m: nat)
    requires ValidHistory(h) && k <= |h.events| && SoundPasses(h, k)
    requires m < k && Imports(h, m) && |SeenBy(h, m).Keys| <= SCAN_LIMIT
    ensures LastPassInForce(h, m)
  {
    var p := LastPass(h.events[..m]);
    if p.Some? {
      assert Passed(h.events[p.value]);
      WrittenOnceInForce(h, m, p.value);
    }
  }

  // Under the default policy, the n-th passing batch has kept 0.7^n of the accepted records of the
  // first one, and its rejection rate is at most 0.15 n above, as long as every pass lists all its
  // rejections in files of bounded size, no passing snapshot is written again, and the directories of
  // all variants fit the scan.
  lemma DefaultDrift(h: History, k: nat, n: nat)
    requires ValidHistory(h) && h.policy == DEFAULT_POLICY && k <= |h.events| && SoundPasses(h, k)
    requires forall m: nat | Imports(h, m) && m < k :: |SeenBy(h, m).Keys| <= SCAN_LIMIT
    requires n < |Passing(h.events[..k])|
    ensures var passing := Passing(h.events[..k]);
            && passing[n].counts.accepted as real >= Power(0.70, n) * passing[0].counts.accepted as real
            && Rate(passing[n].counts) <= Rate(passing[0].counts) + n as real * 0.15
  {
    forall m: nat | Imports(h, m) && m < k
      ensures LastPassInForce(h, m)
    {
      SoundPassInForce(h, k, m);
    }
    PassingFormChain(h, k);
    ChainDrift(Passing(h.events[..k]), DEFAULT_POLICY, n);
  }
}
