// Data-quality regression: when a batch passes, and which earlier report it is compared with.
module QualityBaseline {
  import opened Common

  datatype Label = Label(text: string)

  datatype Policy = Policy(
    minimumBaseline: nat,
    acceptedFraction: real,
    listingFraction: real,
    categoryFraction: real,
    rateIncrease: real)

  const DEFAULT_POLICY := Policy(10, 0.70, 0.70, 0.60, 0.15)
  const MAXIMUM_REJECTION_RATE := 0.20
  const SCAN_LIMIT: nat := 1000
  const MAX_JSON_BYTES: nat := 1024 * 1024
  const LISTING := Label("retailer_listing")

  datatype Status = Pass | Fail

  // What is counted of a batch.  A parser may list fewer rejections than it counts: `rejected` is
  // their number, `recorded` how many are listed.  `defects` counts what the structural checks find,
  // and the last two fields are the sizes of the report and of the manifest.
  datatype Counts = Counts(
    accepted: nat,
    rejected: nat,
    recorded: nat,
    types: map<Label, nat>,
    categories: map<Label, nat>,
    defects: nat,
    reportBytes: nat,
    manifestBytes: nat)

  datatype Report = Report(source: Label, snapshot: Digest, status: Status, counts: Counts)

  function Rate(c: Counts): (rate: real)
    ensures 0.0 <= rate <= 1.0
  {
    if c.accepted + c.rejected == 0 then 0.0
    else
      var whole, part := (c.accepted + c.rejected) as real, c.rejected as real;
      RateBounds(part, whole);
      part / whole
  }

  lemma RateBounds(part: real, whole: real)
    requires 0.0 <= part <= whole && whole > 0.0
    ensures 0.0 <= part / whole <= 1.0
  {
    var q := part / whole;
    assert q * whole == part;
  }

  function Ceiling(x: real): int {
    -((-x).Floor)
  }

  function Of(counts: map<Label, nat>, key: Label): nat {
    if key in counts then counts[key] else 0
  }

  // ---------------------------------------------------------------- the comparison

  function Shortfall(previous: nat, fraction: real, current: nat): nat {
    var minimum := Ceiling(previous as real * fraction);
    if minimum > current then minimum - current else 0
  }

  // Being short of nothing means keeping the fraction, in exact arithmetic.
  lemma NoShortfall(previous: nat, fraction: real, current: nat)
    ensures Shortfall(previous, fraction, current) == 0 <==> KeepsFraction(previous, fraction, current)
  {
    var x := previous as real * fraction;
    assert (-x).Floor as real <= -x < (-x).Floor as real + 1.0;
  }

  predicate Comparable(b: Report, p: Policy) {
    b.counts.accepted >= p.minimumBaseline
  }

  predicate KeepsFraction(previous: nat, fraction: real, current: nat) {
    current as real >= previous as real * fraction
  }

  predicate KeepsTypes(before: map<Label, nat>, now: map<Label, nat>, minimum: nat) {
    forall t | t in before && before[t] >= minimum :: Of(now, t) > 0
  }

  predicate KeepsCategories(before: map<Label, nat>, now: map<Label, nat>, minimum: nat, fraction: real) {
    forall k | k in before && before[k] >= minimum :: KeepsFraction(before[k], fraction, Of(now, k))
  }

  // The batch keeps the accepted count, the listings, every well-covered record type, every
  // well-covered category and the rejection rate of the baseline, within the policy.
  predicate Keeps(b: Counts, c: Counts, p: Policy) {
    && KeepsFraction(b.accepted, p.acceptedFraction, c.accepted)
    && (Of(b.types, LISTING) >= p.minimumBaseline ==>
          KeepsFraction(Of(b.types, LISTING), p.listingFraction, Of(c.types, LISTING)))
    && KeepsTypes(b.types, c.types, p.minimumBaseline)
    && KeepsCategories(b.categories, c.categories, p.minimumBaseline, p.categoryFraction)
    && Rate(c) - Rate(b) <= p.rateIncrease
  }

  predicate NoRegression(baseline: Option<Report>, c: Counts, p: Policy) {
    baseline.Some? && Comparable(baseline.value, p) ==> Keeps(baseline.value.counts, c, p)
  }

  // The number of record types with enough earlier coverage that are gone.
  method MissingTypes(before: map<Label, nat>, now: map<Label, nat>, minimum: nat) returns (missing: nat)
    ensures missing == 0 <==> KeepsTypes(before, now, minimum)
  {
    missing := 0;
    var left := before.Keys;
    while left != {}
      invariant left <= before.Keys
      invariant missing == 0 <==> forall t | t in before && t !in left && before[t] >= minimum :: Of(now, t) > 0
      decreases left
    {
      var t :| t in left;
      left := left - {t};
      if before[t] >= minimum && Of(now, t) == 0 {
        missing := missing + 1;
      }
    }
  }

  // The total by which well-covered categories fall short.
  method CategoryShortfall(before: map<Label, nat>, now: map<Label, nat>, minimum: nat, fraction: real)
    returns (total: nat)
    ensures total == 0 <==> KeepsCategories(before, now, minimum, fraction)
  {
    total := 0;
    var left := before.Keys;
    while left != {}
      invariant left <= before.Keys
      invariant total == 0 <==>
                forall k | k in before && k !in left && before[k] >= minimum ::
                  KeepsFraction(before[k], fraction, Of(now, k))
      decreases left
    {
      var k :| k in left;
      left := left - {k};
      if before[k] >= minimum {
        NoShortfall(before[k], fraction, Of(now, k));
        total := total + Shortfall(before[k], fraction, Of(now, k));
      }
    }
  }

  method ListingShortfall(before: nat, now: nat, p: Policy) returns (short: nat)
    ensures short == 0 <==> (before >= p.minimumBaseline ==> KeepsFraction(before, p.listingFraction, now))
  {
    short := 0;
    if before >= p.minimumBaseline {
      NoShortfall(before, p.listingFraction, now);
      short := Shortfall(before, p.listingFraction, now);
    }
  }

  // The regression checks find nothing exactly when the batch keeps what the policy asks for.
  method RegressionErrors(baseline: Option<Report>, c: Counts, p: Policy) returns (errors: nat)
    ensures errors == 0 <==> NoRegression(baseline, c, p)
  {
    if baseline.None? || baseline.value.counts.accepted < p.minimumBaseline {
      return 0;
    }
    var b := baseline.value.counts;
    NoShortfall(b.accepted, p.acceptedFraction, c.accepted);
    var accepted := Shortfall(b.accepted, p.acceptedFraction, c.accepted);
    var listings := ListingShortfall(Of(b.types, LISTING), Of(c.types, LISTING), p);
    var missing := MissingTypes(b.types, c.types, p.minimumBaseline);
    var short := CategoryShortfall(b.categories, c.categories, p.minimumBaseline, p.categoryFraction);
    var rate := if Rate(c) - Rate(b) > p.rateIncrease then 1 else 0;
    errors := accepted + listings + missing + short + rate;
  }

  predicate Passes(baseline: Option<Report>, c: Counts, p: Policy) {
    c.accepted > 0 && c.defects == 0 && Rate(c) <= MAXIMUM_REJECTION_RATE && NoRegression(baseline, c, p)
  }

  function Judge(source: Label, snapshot: Digest, baseline: Option<Report>, c: Counts, p: Policy): Report {
    Report(source, snapshot, if Passes(baseline, c, p) then Pass else Fail, c)
  }

  method Evaluate(source: Label, snapshot: Digest, baseline: Option<Report>, c: Counts, p: Policy) returns (r: Report)
    ensures r == Judge(source, snapshot, baseline, c, p)
  {
    var errors := if c.accepted == 0 then 1 else 0;
    errors := errors + c.defects + if Rate(c) > MAXIMUM_REJECTION_RATE then 1 else 0;
    var regressions := RegressionErrors(baseline, c, p);
    errors := errors + regressions;
    r := Report(source, snapshot, if errors > 0 then Fail else Pass, c);
  }

  // ---------------------------------------------------------------- the baseline

  // What the loader compares of a manifest; it counts the rejections that are listed.
  datatype ManifestSummary = ManifestSummary(source: Label, snapshot: Digest, accepted: nat, rejected: nat, bytes: nat)

  // What a snapshot directory holds: None for files that are missing or invalid.  `written` is the
  // time of the report.
  datatype Entry = Entry(written: nat, report: Option<Report>, manifest: Option<ManifestSummary>)

  datatype Child = Child(name: Digest, entry: Entry)

  // The manifest is about the same batch as the report, with the same counts.
  predicate Vouches(m: Option<ManifestSummary>, r: Report) {
    && m.Some? && m.value.bytes <= MAX_JSON_BYTES
    && m.value.source == r.source && m.value.snapshot == r.snapshot
    && m.value.accepted == r.counts.accepted && m.value.rejected == r.counts.rejected
  }

  predicate Usable(e: Entry, source: Label, current: Digest) {
    && e.report.Some? && e.report.value.counts.reportBytes <= MAX_JSON_BYTES
    && e.report.value.source == source && e.report.value.status == Pass
    && e.report.value.snapshot != current
    && Vouches(e.manifest, e.report.value)
  }

  // Newest first; directories written at the same moment stay in name order.
  function InsertByTime(c: Child, sorted: seq<Child>): seq<Child> {
    if sorted == [] || c.entry.written >= sorted[0].entry.written then [c] + sorted
    else [sorted[0]] + InsertByTime(c, sorted[1..])
  }

  function NewestFirst(children: seq<Child>): seq<Child> {
    if children == [] then [] else InsertByTime(children[0], NewestFirst(children[1..]))
  }

  predicate Descending(s: seq<Child>) {
    forall j, k | 0 <= j < k < |s| :: s[j].entry.written >= s[k].entry.written
  }

  lemma {:induction false} InsertByTimeIs(c: Child, sorted: seq<Child>)
    requires Descending(sorted)
    ensures Descending(InsertByTime(c, sorted))
    ensures forall x :: x in InsertByTime(c, sorted) <==> x == c || x in sorted
  {
    if sorted == [] || c.entry.written >= sorted[0].entry.written {
    } else {
      InsertByTimeIs(c, sorted[1..]);
      assert sorted == [sorted[0]] + sorted[1..];
      var rest := InsertByTime(c, sorted[1..]);
      forall k | 0 <= k < |rest|
        ensures sorted[0].entry.written >= rest[k].entry.written
      {
        assert rest[k] in rest;
      }
    }
  }

  lemma {:induction false} NewestFirstIs(children: seq<Child>)
    ensures Descending(NewestFirst(children))
    ensures forall x :: x in NewestFirst(children) <==> x in children
  {
    if children != [] {
      NewestFirstIs(children[1..]);
      InsertByTimeIs(children[0], NewestFirst(children[1..]));
      assert children == [children[0]] + children[1..];
    }
  }

  // A usable report that no usable report is newer than.
  ghost predicate NewestUsable(children: seq<Child>, source: Label, current: Digest, c: Child) {
    && c in children && Usable(c.entry, source, current)
    && forall x | x in children && Usable(x.entry, source, current) :: x.entry.written <= c.entry.written
  }

  function Scanned(children: seq<Child>, limit: nat): seq<Child> {
    if |children| <= limit then children else children[..limit]
  }

  // `children` are the snapshot directories in name order.
  method LoadBaseline(children: seq<Child>, source: Label, current: Digest, limit: nat) returns (r: Option<Report>)
    ensures r.None? <==> forall x | x in Scanned(children, limit) :: !Usable(x.entry, source, current)
    ensures r.Some? ==> exists c :: NewestUsable(Scanned(children, limit), source, current, c) && c.entry.report == r
  {
    var candidates: seq<Child> := [];
    var n := 0;
    while n < |children| && n < limit
      invariant 0 <= n <= |children| && n <= limit && candidates == children[..n]
    {
      candidates := candidates + [children[n]];
      n := n + 1;
    }
    assert candidates == Scanned(children, limit) by { assert children[..|children|] == children; }
    NewestFirstIs(candidates);
    var ordered := NewestFirst(candidates);
    for k := 0 to |ordered|
      invariant forall i | 0 <= i < k :: !Usable(ordered[i].entry, source, current)
    {
      if Usable(ordered[k].entry, source, current) {
        r := ordered[k].entry.report;
        assert ordered[k] in candidates;
        forall x | x in candidates && Usable(x.entry, source, current)
          ensures x.entry.written <= ordered[k].entry.written
        {
          var i :| 0 <= i < |ordered| && ordered[i] == x;
        }
        assert NewestUsable(candidates, source, current, ordered[k]);
        return;
      }
    }
    r := None;
  }

  // ---------------------------------------------------------------- the archive of a source

  // The snapshot directories of a source, as one variant finds them.
  type Archive = map<Digest, Entry>

  // The directory listing of an archive: every snapshot once, in name order.
  ghost predicate Lists(children: seq<Child>, a: Archive) {
    && (forall k | 0 <= k < |children| :: children[k].name in a && a[children[k].name] == children[k].entry)
    && (forall j, k | 0 <= j < k < |children| :: children[j].name < children[k].name)
    && forall name | name in a :: Child(name, a[name]) in children
  }

  function Before(a: Archive, name: Digest): set<Digest> {
    set n | n in a && n < name
  }

  // The scan reaches a name when fewer names than the limit come before it.
  predicate Reached(a: Archive, limit: nat, name: Digest) {
    name in a && |Before(a, name)| < limit
  }

  // The newest usable report, of the whole archive or of the names that the scan reaches.
  ghost predicate IsBaseline(a: Archive, source: Label, current: Digest, r: Option<Report>) {
    if r.None? then forall name | name in a :: !Usable(a[name], source, current)
    else exists name: Digest :: NewestIn(a, source, current, name) && a[name].report == r
  }

  ghost predicate NewestIn(a: Archive, source: Label, current: Digest, name: Digest) {
    && name in a && Usable(a[name], source, current)
    && forall other | other in a && Usable(a[other], source, current) :: a[other].written <= a[name].written
  }

  ghost predicate IsLoaded(a: Archive, source: Label, current: Digest, limit: nat, r: Option<Report>) {
    if r.None? then forall name: Digest | Reached(a, limit, name) :: !Usable(a[name], source, current)
    else exists name: Digest :: NewestReached(a, source, current, limit, name) && a[name].report == r
  }

  ghost predicate NewestReached(a: Archive, source: Label, current: Digest, limit: nat, name: Digest) {
    && Reached(a, limit, name) && Usable(a[name], source, current)
    && forall other: Digest | Reached(a, limit, other) && Usable(a[other], source, current) ::
         a[other].written <= a[name].written
  }

  function Names(children: seq<Child>): seq<Digest> {
    seq(|children|, k requires 0 <= k < |children| => children[k].name)
  }

  // In the listing, every name stands behind as many names as are smaller.
  lemma RankInListing(children: seq<Child>, a: Archive, k: nat)
    requires Lists(children, a) && k < |children|
    ensures |Before(a, children[k].name)| == k
  {
    var names := Names(children[..k]);
    SetSize(names);
    forall n | n in Before(a, children[k].name)
      ensures n in names
    {
      assert Child(n, a[n]) in children;
      var j :| 0 <= j < |children| && children[j] == Child(n, a[n]);
      assert j < k && names[j] == n;
    }
    assert SetOf(names) == Before(a, children[k].name);
  }

  lemma ScanReaches(children: seq<Child>, a: Archive, limit: nat, c: Child)
    requires Lists(children, a)
    ensures c in Scanned(children, limit) <==> Reached(a, limit, c.name) && c.entry == a[c.name]
  {
    if c in Scanned(children, limit) {
      var k: nat :| k < |Scanned(children, limit)| && children[k] == c;
      RankInListing(children, a, k);
    }
    if Reached(a, limit, c.name) && c.entry == a[c.name] {
      assert Child(c.name, a[c.name]) in children;
      var k: nat :| k < |children| && children[k] == c;
      RankInListing(children, a, k);
      assert Scanned(children, limit)[k] == c;
    }
  }

  // The loader returns the newest usable report among the names that the scan reaches.
  method LoadFromArchive(children: seq<Child>, ghost a: Archive, source: Label, current: Digest, limit: nat)
    returns (r: Option<Report>)
    requires Lists(children, a)
    ensures IsLoaded(a, source, current, limit, r)
  {
    r := LoadBaseline(children, source, current, limit);
    forall c
      ensures c in Scanned(children, limit) <==> Reached(a, limit, c.name) && c.entry == a[c.name]
    {
      ScanReaches(children, a, limit, c);
    }
    ghost var scanned := Scanned(children, limit);
    if r.Some? {
      ghost var c :| NewestUsable(scanned, source, current, c) && c.entry.report == r;
      forall other: Digest | Reached(a, limit, other) && Usable(a[other], source, current)
        ensures a[other].written <= a[c.name].written
      {
        assert Child(other, a[other]) in scanned;
      }
      assert NewestReached(a, source, current, limit, c.name);
    } else {
      forall name: Digest | Reached(a, limit, name)
        ensures !Usable(a[name], source, current)
      {
        assert Child(name, a[name]) in scanned;
      }
    }
  }

  // Reports were written at different times.
  predicate DistinctTimes(a: Archive) {
    forall name, other | name in a && other in a && a[name].report.Some? && a[other].report.Some?
                         && a[name].written == a[other].written :: name == other
  }

  // Reports are filed under the snapshot they are about.
  predicate SnapshotsNamed(a: Archive) {
    forall name | name in a && a[name].report.Some? :: a[name].report.value.snapshot == name
  }

  // The report filed under the snapshot that it is about, where the scan reaches it.
  predicate ReachedReport(a: Archive, limit: nat, r: Report) {
    Reached(a, limit, r.snapshot)
  }

  lemma LoadedUnique(a: Archive, source: Label, current: Digest, limit: nat, x: Option<Report>, y: Option<Report>)
    requires DistinctTimes(a) && IsLoaded(a, source, current, limit, x) && IsLoaded(a, source, current, limit, y)
    ensures x == y
  {
    if x.Some? && y.Some? {
      var m: Digest :| NewestReached(a, source, current, limit, m) && a[m].report == x;
      var n: Digest :| NewestReached(a, source, current, limit, n) && a[n].report == y;
      assert a[m].written == a[n].written;
    }
  }

  // The loader finds the baseline of the whole archive exactly when there is none, or when the
  // scan reaches the name it is filed under.
  lemma LoadedIsBaselineExactly(a: Archive, source: Label, current: Digest, limit: nat, loaded: Option<Report>,
                                baseline: Option<Report>)
    requires DistinctTimes(a) && SnapshotsNamed(a)
    requires IsLoaded(a, source, current, limit, loaded) && IsBaseline(a, source, current, baseline)
    ensures loaded == baseline <==> baseline.None? || ReachedReport(a, limit, baseline.value)
  {
    if baseline.Some? {
      var name: Digest :| NewestIn(a, source, current, name) && a[name].report == baseline;
      if Reached(a, limit, name) {
        assert NewestReached(a, source, current, limit, name);
        LoadedUnique(a, source, current, limit, loaded, baseline);
      }
      if loaded.Some? {
        var other: Digest :| NewestReached(a, source, current, limit, other) && a[other].report == loaded;
      }
    }
  }

  // Directories under the first names, none of which holds a report.
  function Empty(n: nat): Archive {
    if n == 0 then map[] else Empty(n - 1)[n - 1 := Entry(0, None, None)]
  }

  lemma {:induction false} EmptyIs(n: nat)
    ensures |Empty(n).Keys| == n
    ensures forall name: Digest :: name in Empty(n) <==> name < n
    ensures forall name | name in Empty(n) :: Empty(n)[name].report == None
  {
    if n > 0 {
      EmptyIs(n - 1);
      assert Empty(n).Keys == Empty(n - 1).Keys + {n - 1};
    }
  }

  // Beyond the limit, whatever it is, the loader misses the baseline: here it finds nothing at all.
  lemma CrowdedScanMissesPass(r: Report, current: Digest, limit: nat)
    requires r.status == Pass && Loadable(r) && r.snapshot != current
    ensures IsBaseline(Empty(limit)[limit := EntryOf(r, 0)], r.source, current, Some(r))
    ensures IsLoaded(Empty(limit)[limit := EntryOf(r, 0)], r.source, current, limit, None)
  {
    var a := Empty(limit)[limit := EntryOf(r, 0)];
    EmptyIs(limit);
    assert NewestIn(a, r.source, current, limit);
    assert Before(a, limit) == Empty(limit).Keys;
  }

  function ManifestOf(source: Label, snapshot: Digest, c: Counts): ManifestSummary {
    ManifestSummary(source, snapshot, c.accepted, c.recorded, c.manifestBytes)
  }

  function EntryOf(r: Report, time: nat): Entry {
    Entry(time, Some(r), Some(ManifestOf(r.source, r.snapshot, r.counts)))
  }

  // The report and the manifest of a batch agree and can be loaded: every rejection is listed, and
  // both files are within the size limit.
  predicate Loadable(r: Report) {
    r.counts.recorded == r.counts.rejected && r.counts.reportBytes <= MAX_JSON_BYTES &&
    r.counts.manifestBytes <= MAX_JSON_BYTES
  }

  // A parser that lists rejections up to a cap.
  predicate CappedAt(c: Counts, cap: nat) {
    c.recorded == if c.rejected < cap then c.rejected else cap
  }

  predicate OlderThan(a: Archive, time: nat) {
    forall name | name in a :: a[name].written < time
  }

  // A passing import is the next baseline of every other snapshot exactly when its report can be
  // loaded and the scan reaches it; with a capped list, rejections must not exceed the cap.
  lemma PassingImportIsBaseline(a: Archive, r: Report, time: nat, current: Digest, limit: nat, b: Option<Report>)
    requires r.status == Pass && OlderThan(a, time) && SnapshotsNamed(a) && r.snapshot != current
    requires IsLoaded(a[r.snapshot := EntryOf(r, time)], r.source, current, limit, b)
    ensures b == Some(r) <==> Loadable(r) && ReachedReport(a[r.snapshot := EntryOf(r, time)], limit, r)
    ensures forall cap | CappedAt(r.counts, cap) && r.counts.rejected > cap :: b != Some(r)
  {
    var after := a[r.snapshot := EntryOf(r, time)];
    if b.Some? {
      var name: Digest :| NewestReached(after, r.source, current, limit, name) && after[name].report == b;
      if Loadable(r) && Reached(after, limit, r.snapshot) {
        assert after[r.snapshot].written <= after[name].written;
      }
    }
  }

  lemma FewerReached(a: Archive, name: Digest, e: Entry, limit: nat)
    ensures forall n: Digest | Reached(a[name := e], limit, n) && n != name :: Reached(a, limit, n)
  {
    forall n: Digest | Reached(a[name := e], limit, n) && n != name
      ensures Reached(a, limit, n)
    {
      assert Before(a, n) <= Before(a[name := e], n);
      SmallerSet(Before(a, n), Before(a[name := e], n));
    }
  }

  // What an import that cannot be a baseline leaves of the usable reports.
  lemma LeftReports(a: Archive, r: Report, time: nat, current: Digest, limit: nat, name: Digest)
    requires (r.status == Fail || !Loadable(r)) && NewestReached(a[r.snapshot := EntryOf(r, time)], r.source,
                                                                 current, limit, name)
    ensures name != r.snapshot && Reached(a, limit, name) && Usable(a[name], r.source, current)
    ensures a[r.snapshot := EntryOf(r, time)][name] == a[name]
  {
    FewerReached(a, r.snapshot, EntryOf(r, time), limit);
  }

  lemma StaysNewest(a: Archive, r: Report, time: nat, current: Digest, limit: nat, name: Digest)
    requires (r.status == Fail || !Loadable(r)) && NewestReached(a, r.source, current, limit, name)
    requires name != r.snapshot && Reached(a[r.snapshot := EntryOf(r, time)], limit, name)
    ensures NewestReached(a[r.snapshot := EntryOf(r, time)], r.source, current, limit, name)
  {
    FewerReached(a, r.snapshot, EntryOf(r, time), limit);
  }

  // Of a report that was and is the newest one, the loader returns no other.
  lemma SameNewest(a: Archive, a': Archive, source: Label, current: Digest, limit: nat, name: Digest,
                   after: Option<Report>)
    requires DistinctTimes(a) && NewestReached(a, source, current, limit, name) &&
             IsLoaded(a', source, current, limit, after)
    requires NewestReached(a', source, current, limit, name) && a'[name] == a[name]
    requires forall other: Digest | NewestReached(a', source, current, limit, other) :: other in a &&
                                                                                        a'[other] == a[other]
    ensures after == a[name].report
  {
    var other: Digest :| NewestReached(a', source, current, limit, other) && a'[other].report == after;
    assert a'[other].written <= a'[name].written <= a'[other].written;
  }

  // An import that fails, or whose report cannot be loaded, leaves the baseline of other snapshots
  // alone, unless it overwrote the very report that was the baseline or its directory pushed that
  // report out of the scan.
  lemma FailingImportKeepsBaseline(a: Archive, r: Report, time: nat, current: Digest, limit: nat,
                                   before: Option<Report>,
                                   after: Option<Report>)
    requires (r.status == Fail || !Loadable(r)) && DistinctTimes(a) && SnapshotsNamed(a)
    requires IsLoaded(a, r.source, current, limit, before)
    requires IsLoaded(a[r.snapshot := EntryOf(r, time)], r.source, current, limit, after)
    ensures before == after
       <==> (before.Some? ==>
               before.value.snapshot != r.snapshot &&
               ReachedReport(a[r.snapshot := EntryOf(r, time)], limit, before.value))
  {
    var a' := a[r.snapshot := EntryOf(r, time)];
    if after.Some? {
      var other: Digest :| NewestReached(a', r.source, current, limit, other) && a'[other].report == after;
      LeftReports(a, r, time, current, limit, other);
      assert after.value.snapshot == other;
    }
    if before.Some? {
      var name: Digest :| NewestReached(a, r.source, current, limit, name) && a[name].report == before;
      if name != r.snapshot && Reached(a', limit, name) {
        StaysNewest(a, r, time, current, limit, name);
        forall other: Digest | NewestReached(a', r.source, current, limit, other)
          ensures other in a && a'[other] == a[other]
        {
          LeftReports(a, r, time, current, limit, other);
        }
        SameNewest(a, a', r.source, current, limit, name, after);
      }
    }
  }
}
