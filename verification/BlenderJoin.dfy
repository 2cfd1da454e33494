// Joining Blender benchmark records to catalogue families: one long loop with a memo cache,
// batched inserts into a store and a counter for every way a record can end.
module BlenderJoin {
  import opened Common

  datatype Category = Cpu | Gpu

  const BATCH_SIZE: nat := 1000

  // A hardware family before and after its memory size is known; the code writes the second one
  // as the first with a `:<n>gb` ending.
  datatype Base = Base(text: string)
  datatype Family = Family(category: Category, base: Base, vram: Option<int>)
  datatype LeakageFamily = LeakageFamily(text: string)

  // `vram` is the numeric `vram_gb` attribute, when there is one.
  datatype Product = Product(id: string, vram: Option<real>, attributes: nat)

  datatype Features = Features(coreCount: real, threadCount: real, others: seq<real>)

  // `productIds` stands for the sorted list of ids.
  datatype CatalogFamily = CatalogFamily(
    family: Family,
    leakage: LeakageFamily,
    generation: string,
    features: Features,
    productIds: multiset<string>,
    vramValues: seq<int>)

  datatype VariantError = ExplicitVramConflict | AmbiguousVram | MissingFeatures(names: string)

  // What the join takes from its text patterns and from the aggregation of product attributes.
  datatype Library = Library(
    baseFamily: (string, Category) -> Option<Base>,
    explicitVram: string -> Option<int>,
    leakage: Family -> LeakageFamily,
    generation: (Family, seq<Product>) -> string,
    features: (Category, seq<Product>) -> Result<Features, string>)

  type Catalog = map<(Category, Base), seq<Product>>

  // ---------------------------------------------------------------- catalogue families

  // int(value): truncation towards zero.
  function Truncate(x: real): int {
    if x >= 0.0 then x.Floor else -((-x).Floor)
  }

  function InsertInto(x: int, s: seq<int>): seq<int> {
    if s == [] || x < s[0] then [x] + s else if x == s[0] then s else [s[0]] + InsertInto(x, s[1..])
  }

  // sorted({int(value), …}) over the products that have a value.
  function VramValues(products: seq<Product>): seq<int> {
    if products == [] then []
    else
      var rest := VramValues(products[1..]);
      if products[0].vram.Some? then InsertInto(Truncate(products[0].vram.value), rest) else rest
  }

  // The products whose value equals `vram` exactly.
  function WithVram(products: seq<Product>, vram: int): seq<Product> {
    if products == [] then []
    else
      var rest := WithVram(products[1..], vram);
      if products[0].vram == Some(vram as real) then [products[0]] + rest else rest
  }

  function ProductIds(products: seq<Product>): multiset<string> {
    if products == [] then multiset{} else multiset{products[0].id} + ProductIds(products[1..])
  }

  function Describe(lib: Library, family: Family, selected: seq<Product>, vramValues: seq<int>): Result<CatalogFamily,
    VariantError> {
    match lib.features(family.category, selected)
    case Failure(names) => Failure(MissingFeatures(names))
    case Success(features) =>
      Success(CatalogFamily(family, lib.leakage(family), lib.generation(family, selected), features,
                            ProductIds(selected), vramValues))
  }

  function FamilyOf(lib: Library, category: Category, base: Base, products: seq<Product>,
                    hardwareName: string): Result<CatalogFamily, VariantError> {
    var values := VramValues(products);
    var explicit := if category == Gpu then lib.explicitVram(hardwareName) else None;
    if explicit.Some? then
      var selected := WithVram(products, explicit.value);
      if selected == [] then Failure(ExplicitVramConflict)
      else Describe(lib, Family(category, base, explicit), selected, [explicit.value])
    else if category == Gpu && |values| > 1 then Failure(AmbiguousVram)
    else if category == Gpu && |values| == 1 then Describe(lib, Family(category, base, Some(values[0])),
                                                           products, values)
    else Describe(lib, Family(category, base, None), products, values)
  }

  // ---------------------------------------------------------------- records

  datatype Execution = Execution(buildHash: string, script: string, sceneChecksum: string)
  datatype Semantics = Semantics(unit: string, higherIsBetter: bool, sourceField: string)
  datatype Cohort = Cohort(version: string, scene: string, backend: string, operatingSystem: string)

  // The envelope of a record, field by field as the loop reads it: None for a field that is
  // missing or unusable.
  datatype Envelope = Envelope(
    backend: string,
    hardwareName: string,
    sockets: Option<int>,
    cores: Option<int>,
    threads: Option<int>,
    execution: Option<Execution>,
    semantics: Option<Semantics>,
    score: Option<real>,
    cohort: Option<Cohort>,
    sourceUrl: Option<string>)

  datatype Record = Record(eligible: bool, envelope: Option<Envelope>)

  datatype CohortKey = CohortKey(cohort: Cohort, execution: Execution, semantics: Semantics)

  datatype Row = Row(key: CohortKey, family: Family, leakage: LeakageFamily, score: real, sourceUrl: string,
                     hardwareName: string)

  datatype Reason =
    | TrainingIneligible
    | InvalidEnvelope
    | UnsupportedBackend
    | CategoryFiltered
    | UnparsedName(category: Category)
    | NoCatalogFamily(category: Category)
    | CatalogVariantOrFeatures
    | NotSingleSocket
    | TopologyMismatch
    | ExecutionIdentity
    | ScoreSemantics
    | InvalidScore

  const LOOKUP_REASONS: seq<Reason> := [
    TrainingIneligible, InvalidEnvelope, UnsupportedBackend, CategoryFiltered,
    UnparsedName(Cpu), UnparsedName(Gpu), NoCatalogFamily(Cpu), NoCatalogFamily(Gpu)
  ]
  const CHECK_REASONS: seq<Reason> := [
    CatalogVariantOrFeatures, NotSingleSocket, TopologyMismatch, ExecutionIdentity, ScoreSemantics, InvalidScore
  ]
  const REASONS: seq<Reason> := LOOKUP_REASONS + CHECK_REASONS

  const SUPPORTED: set<Semantics> := {
    Semantics("samples/minute", true, "samples_per_minute"),
    Semantics("seconds", false, "total_render_time"),
    Semantics("seconds", false, "render_time_no_sync")
  }

  function CategoryOf(backend: string): Option<Category> {
    if backend == "CPU" then Some(Cpu)
    else if backend == "CUDA" || backend == "OPTIX" then Some(Gpu)
    else None
  }

  datatype Setup = Setup(lib: Library, catalog: Catalog, filter: Option<Category>)

  // ---------------------------------------------------------------- the reference definition

  // How a record ends when its family is computed afresh.
  datatype Outcome = Rejected(reason: Reason) | Matched(row: Row, family: CatalogFamily) | Aborted

  // The cache key of a record that gets as far as a catalogue family.
  datatype Key = Key(category: Category, base: Base, vram: Option<int>)

  datatype Lookup = NoLookup(reason: Reason) | Lookup(key: Key, envelope: Envelope)

  function Explicit(lib: Library, category: Category, hardwareName: string): Option<int> {
    if category == Gpu then lib.explicitVram(hardwareName) else None
  }

  predicate InCatalog(s: Setup, key: Key) {
    (key.category, key.base) in s.catalog && s.catalog[(key.category, key.base)] != []
  }

  function Products(s: Setup, key: Key): seq<Product>
    requires InCatalog(s, key)
  {
    s.catalog[(key.category, key.base)]
  }

  function LookupOf(s: Setup, r: Record): (l: Lookup)
    ensures l.Lookup? ==> InCatalog(s, l.key) && l.key.vram == Explicit(s.lib, l.key.category, l.envelope.hardwareName)
  {
    if !r.eligible then NoLookup(TrainingIneligible)
    else if r.envelope.None? then NoLookup(InvalidEnvelope)
    else if CategoryOf(r.envelope.value.backend).None? then NoLookup(UnsupportedBackend)
    else CategoryLookup(s, r.envelope.value, CategoryOf(r.envelope.value.backend).value)
  }

  function CategoryLookup(s: Setup, e: Envelope, category: Category): (l: Lookup)
    ensures l.Lookup? ==> InCatalog(s, l.key) && l.key.vram == Explicit(s.lib, l.key.category, l.envelope.hardwareName)
  {
    if s.filter.Some? && s.filter.value != category then NoLookup(CategoryFiltered)
    else
      var base := s.lib.baseFamily(e.hardwareName, category);
      if base.None? then NoLookup(UnparsedName(category))
      else if (category, base.value) !in s.catalog || s.catalog[(category, base.value)] == []
      then NoLookup(NoCatalogFamily(category))
      else Lookup(Key(category, base.value, Explicit(s.lib, category, e.hardwareName)), e)
  }

  // The family for an observed hardware name, computed without a cache.
  function Fresh(s: Setup, key: Key, hardwareName: string): Result<CatalogFamily, VariantError>
    requires InCatalog(s, key)
  {
    FamilyOf(s.lib, key.category, key.base, Products(s, key), hardwareName)
  }

  // The checks after the family is known.
  function Finish(e: Envelope, category: Category, family: CatalogFamily): Outcome {
    if category == Cpu && e.sockets != Some(1) then Rejected(NotSingleSocket)
    else if category == Cpu && (e.cores != Some(Truncate(family.features.coreCount)) ||
                                e.threads != Some(Truncate(family.features.threadCount)))
    then Rejected(TopologyMismatch)
    else if e.execution.None? then Rejected(ExecutionIdentity)
      else if e.semantics.None? || e.semantics.value !in SUPPORTED then Rejected(ScoreSemantics)
      else if e.score.None? || e.score.value <= 0.0 then Rejected(InvalidScore)
      else if e.cohort.None? || e.sourceUrl.None? then Aborted
      else Matched(Row(CohortKey(e.cohort.value, e.execution.value, e.semantics.value), family.family, family.leakage,
                       e.score.value, e.sourceUrl.value, e.hardwareName),
                   family)
  }

  function Conclude(l: Lookup, family: Option<CatalogFamily>): Outcome
    requires l.Lookup?
  {
    if family.None? then Rejected(CatalogVariantOrFeatures) else Finish(l.envelope, l.key.category, family.value)
  }

  function Found(family: Result<CatalogFamily, VariantError>): Option<CatalogFamily> {
    if family.Success? then Some(family.value) else None
  }

  function OutcomeOf(s: Setup, r: Record): Outcome {
    var l := LookupOf(s, r);
    if l.NoLookup? then Rejected(l.reason) else Conclude(l, Found(Fresh(s, l.key, l.envelope.hardwareName)))
  }

  // ---------------------------------------------------------------- totals over all records

  function RowsOf(s: Setup, rs: seq<Record>): seq<Row> {
    if rs == [] then []
    else
      var front, last := RowsOf(s, rs[..|rs| - 1]), OutcomeOf(s, rs[|rs| - 1]);
      if last.Matched? then front + [last.row] else front
  }

  // The last joined record of a family decides its catalogue entry.
  function FamiliesOf(s: Setup, rs: seq<Record>): map<Family, CatalogFamily> {
    if rs == [] then map[]
    else
      var front, last := FamiliesOf(s, rs[..|rs| - 1]), OutcomeOf(s, rs[|rs| - 1]);
      if last.Matched? then front[last.family.family := last.family] else front
  }

  function Ended(s: Setup, rs: seq<Record>, reason: Reason): nat {
    if rs == [] then 0
    else Ended(s, rs[..|rs| - 1], reason) + if OutcomeOf(s, rs[|rs| - 1]) == Rejected(reason) then 1 else 0
  }

  ghost function KeysOf(s: Setup, rs: seq<Record>): set<Key> {
    set r | r in rs && LookupOf(s, r).Lookup? :: LookupOf(s, r).key
  }

  // Hardware names that lead to a key.
  predicate Leads(s: Setup, key: Key, hardwareName: string) {
    key.vram == Explicit(s.lib, key.category, hardwareName)
  }

  // The rejection of a key, whichever observation asks for it.
  ghost predicate KeyFails(s: Setup, key: Key, error: VariantError) {
    InCatalog(s, key) && exists name :: Leads(s, key, name) && Fresh(s, key, name) == Failure(error)
  }

  ghost function FailingKeys(s: Setup, keys: set<Key>, error: VariantError): set<Key> {
    set key | key in keys && KeyFails(s, key, error)
  }

  datatype Counter = Seen | Joined | Ends(reason: Reason) | KeyRejected(error: VariantError)

  function Get(counters: map<Counter, nat>, c: Counter): nat {
    if c in counters then counters[c] else 0
  }

  function Count(counters: map<Counter, nat>, c: Counter): map<Counter, nat> {
    counters[c := Get(counters, c) + 1]
  }

  ghost function Total(s: Setup, rs: seq<Record>, c: Counter): nat {
    match c
    case Seen => |rs|
    case Joined => |RowsOf(s, rs)|
    case Ends(reason) => Ended(s, rs, reason)
    case KeyRejected(error) => |FailingKeys(s, KeysOf(s, rs), error)|
  }

  predicate Aborts(s: Setup, rs: seq<Record>) {
    exists r | r in rs :: OutcomeOf(s, r) == Aborted
  }

  // ---------------------------------------------------------------- the memo cache

  type Cache = map<Key, Option<CatalogFamily>>

  // The key drops the hardware name, and nothing that the family depends on.
  lemma KeyDecides(s: Setup, key: Key, a: string, b: string)
    requires InCatalog(s, key) && Leads(s, key, a) && Leads(s, key, b)
    ensures Fresh(s, key, a) == Fresh(s, key, b)
  {
  }

  // A cached entry is what a fresh computation gives for every name that leads to its key.
  ghost predicate CacheCorrect(s: Setup, cache: Cache) {
    forall key | key in cache ::
      InCatalog(s, key) && forall name :: Leads(s, key, name) ==> cache[key] == Found(Fresh(s, key, name))
  }

  method FindFamily(s: Setup, l: Lookup, cache: Cache, counters: map<Counter, nat>)
    returns (family: Option<CatalogFamily>, cache': Cache, counters': map<Counter, nat>)
    requires l.Lookup? && InCatalog(s, l.key) && Leads(s, l.key, l.envelope.hardwareName) && CacheCorrect(s, cache)
    ensures family == Found(Fresh(s, l.key, l.envelope.hardwareName))
    ensures CacheCorrect(s, cache') && cache'.Keys == cache.Keys + {l.key}
    ensures counters' ==
            (var computed := Fresh(s, l.key, l.envelope.hardwareName);
             if l.key !in cache && computed.Failure? then Count(counters, KeyRejected(computed.error)) else counters)
  {
    cache', counters' := cache, counters;
    if l.key !in cache {
      var computed := FamilyOf(s.lib, l.key.category, l.key.base, Products(s, l.key), l.envelope.hardwareName);
      cache' := cache[l.key := Found(computed)];
      if computed.Failure? {
        counters' := Count(counters, KeyRejected(computed.error));
      }
      forall name | Leads(s, l.key, name)
        ensures Found(computed) == Found(Fresh(s, l.key, name))
      {
        KeyDecides(s, l.key, l.envelope.hardwareName, name);
      }
    }
    family := cache'[l.key];
  }

  // ---------------------------------------------------------------- the loop

  // The file-backed table of joined observations.
  class MatchStore {
    var rows: seq<Row>

    constructor ()
      ensures rows == []
    {
      rows := [];
    }

    method InsertMany(batch: seq<Row>)
      modifies this
      ensures rows == old(rows) + batch
    {
      rows := rows + batch;
    }
  }

  ghost predicate CountersAre(s: Setup, rs: seq<Record>, counters: map<Counter, nat>) {
    forall c :: Get(counters, c) == Total(s, rs, c)
  }

  ghost function KeyOf(s: Setup, r: Record): set<Key> {
    if LookupOf(s, r).Lookup? then {LookupOf(s, r).key} else {}
  }

  // What one more record adds to a counter when `keys` have been looked up before.
  ghost function Added(s: Setup, keys: set<Key>, r: Record, c: Counter): nat {
    match c
    case Seen => 1
    case Joined => if OutcomeOf(s, r).Matched? then 1 else 0
    case Ends(reason) => if OutcomeOf(s, r) == Rejected(reason) then 1 else 0
    case KeyRejected(error) =>
      var l := LookupOf(s, r);
      if l.Lookup? && l.key !in keys && Fresh(s, l.key, l.envelope.hardwareName) == Failure(error) then 1 else 0
  }

  lemma KeysGrow(s: Setup, rs: seq<Record>, r: Record)
    ensures KeysOf(s, rs + [r]) == KeysOf(s, rs) + KeyOf(s, r)
  {
    forall key
      ensures key in KeysOf(s, rs + [r]) <==> key in KeysOf(s, rs) || (LookupOf(s, r).Lookup? &&
                                                                       LookupOf(s, r).key == key)
    {
      if key in KeysOf(s, rs) {
        var x :| x in rs && LookupOf(s, x).Lookup? && LookupOf(s, x).key == key;
        assert x in rs + [r];
      }
      assert r in rs + [r];
    }
  }

  lemma KeyFailsIs(s: Setup, key: Key, name: string, error: VariantError)
    requires InCatalog(s, key) && Leads(s, key, name)
    ensures KeyFails(s, key, error) <==> Fresh(s, key, name) == Failure(error)
  {
    if KeyFails(s, key, error) {
      var other :| Leads(s, key, other) && Fresh(s, key, other) == Failure(error);
      KeyDecides(s, key, name, other);
    }
  }

  lemma SetGrows<T>(before: set<T>, after: set<T>, x: T)
    requires after == before + {x}
    ensures |after| == |before| + if x in before then 0 else 1
  {
    if x in before {
      assert after == before;
    }
  }

  lemma FailingGrow(s: Setup, keys: set<Key>, key: Key, error: VariantError)
    ensures |FailingKeys(s, keys + {key}, error)|
         == |FailingKeys(s, keys, error)| + if key !in keys && KeyFails(s, key, error) then 1 else 0
  {
    var before, after := FailingKeys(s, keys, error), FailingKeys(s, keys + {key}, error);
    if KeyFails(s, key, error) {
      assert after == before + {key};
      SetGrows(before, after, key);
    } else {
      assert after == before;
    }
  }

  lemma TotalGrows(s: Setup, rs: seq<Record>, r: Record, c: Counter)
    ensures Total(s, rs + [r], c) == Total(s, rs, c) + Added(s, KeysOf(s, rs), r, c)
  {
    assert (rs + [r])[..|rs|] == rs;
    KeysGrow(s, rs, r);
    var l := LookupOf(s, r);
    if c.KeyRejected? {
      if l.Lookup? {
        KeyFailsIs(s, l.key, l.envelope.hardwareName, c.error);
        FailingGrow(s, KeysOf(s, rs), l.key, c.error);
      } else {
        assert KeysOf(s, rs + [r]) == KeysOf(s, rs);
      }
    }
  }

  lemma NoLookupCounts(s: Setup, r: Record, keys: set<Key>, before: map<Counter, nat>)
    requires LookupOf(s, r).NoLookup?
    ensures forall c :: Get(Count(Count(before, Seen), Ends(LookupOf(s, r).reason)), c) == Get(before,
                                                                                               c) + Added(s, keys, r, c)
  {
  }

  // What the lookup and the end of a record count, in the terms of the counters.
  lemma RecordCounts(s: Setup, r: Record, keys: set<Key>, before: map<Counter, nat>, looked: map<Counter, nat>,
                     after: map<Counter, nat>)
    requires
      var l := LookupOf(s, r);
      && l.Lookup?
      && looked == (var computed := Fresh(s, l.key, l.envelope.hardwareName);
                    if l.key !in keys && computed.Failure? then Count(Count(before, Seen), KeyRejected(computed.error))
                    else Count(before, Seen))
    requires
      match OutcomeOf(s, r)
      case Rejected(reason) => after == Count(looked, Ends(reason))
      case Matched(_, _) => after == Count(looked, Joined)
      case Aborted => false
    ensures forall c :: Get(after, c) == Get(before, c) + Added(s, keys, r, c)
  {
  }

  method JoinRecord(s: Setup, r: Record, cache: Cache, counters: map<Counter, nat>)
    returns (outcome: Outcome, cache': Cache, counters': map<Counter, nat>)
    requires CacheCorrect(s, cache)
    ensures outcome == OutcomeOf(s, r)
    ensures CacheCorrect(s, cache') && cache'.Keys == cache.Keys + KeyOf(s, r)
    ensures !outcome.Aborted? ==> forall c :: Get(counters', c) == Get(counters, c) + Added(s, cache.Keys, r, c)
  {
    cache', counters' := cache, Count(counters, Seen);
    var l := LookupOf(s, r);
    if l.NoLookup? {
      NoLookupCounts(s, r, cache.Keys, counters);
      return Rejected(l.reason), cache', Count(counters', Ends(l.reason));
    }
    var family;
    family, cache', counters' := FindFamily(s, l, cache', counters');
    ghost var looked := counters';
    outcome := Conclude(l, family);
    match outcome
    case Rejected(reason) => counters' := Count(counters', Ends(reason));
    case Matched(_, _) => counters' := Count(counters', Joined);
    case Aborted =>
      if !outcome.Aborted? {
        RecordCounts(s, r, cache.Keys, counters, looked, counters');
      }
  }

  // Rows reach the store in batches; what is stored and what is pending never loses a row.
  method Buffer(store: MatchStore, pending: seq<Row>, row: Row) returns (pending': seq<Row>)
    requires |pending| < BATCH_SIZE
    modifies store
    ensures store.rows + pending' == old(store.rows) + pending + [row]
    ensures |pending'| < BATCH_SIZE
  {
    pending' := pending + [row];
    if |pending'| >= BATCH_SIZE {
      store.InsertMany(pending');
      pending' := [];
    }
  }

  // What the local state of the loop knows about the records seen so far.
  ghost predicate Progress(s: Setup, seen: seq<Record>, cache: Cache, counters: map<Counter, nat>,
                           families: map<Family, CatalogFamily>) {
    && CacheCorrect(s, cache) && cache.Keys == KeysOf(s, seen)
    && CountersAre(s, seen, counters)
    && families == FamiliesOf(s, seen)
  }

  lemma ProgressGrows(s: Setup, seen: seq<Record>, r: Record, cache: Cache, counters: map<Counter, nat>,
                      counters': map<Counter, nat>, families: map<Family, CatalogFamily>, cache': Cache)
    requires Progress(s, seen, cache, counters, families)
    requires CacheCorrect(s, cache') && cache'.Keys == cache.Keys + KeyOf(s, r)
    requires forall c :: Get(counters', c) == Get(counters, c) + Added(s, cache.Keys, r, c)
    ensures
      var outcome := OutcomeOf(s, r);
      Progress(s, seen + [r], cache', counters', if outcome.Matched?
               then families[outcome.family.family := outcome.family] else families)
  {
    KeysGrow(s, seen, r);
    forall c
      ensures Get(counters', c) == Total(s, seen + [r], c)
    {
      TotalGrows(s, seen, r, c);
    }
    assert (seen + [r])[..|seen|] == seen;
  }

  lemma RowsGrow(s: Setup, seen: seq<Record>, r: Record)
    ensures RowsOf(s, seen + [r]) == RowsOf(s, seen) + (if OutcomeOf(s, r).Matched? then [OutcomeOf(s, r).row] else [])
  {
    assert (seen + [r])[..|seen|] == seen;
  }

  lemma AbortsGrows(s: Setup, seen: seq<Record>, r: Record)
    ensures Aborts(s, seen + [r]) <==> Aborts(s, seen) || OutcomeOf(s, r) == Aborted
  {
    assert r in seen + [r];
    assert forall q | q in seen :: q in seen + [r];
  }

  lemma AbortsEarly(s: Setup, rs: seq<Record>, n: nat)
    requires n < |rs| && OutcomeOf(s, rs[n]) == Aborted
    ensures Aborts(s, rs)
  {
    assert rs[n] in rs;
  }

  datatype JoinResult = JoinResult(rows: seq<Row>, counters: map<Counter, nat>, families: map<Family, CatalogFamily>)

  method JoinAll(s: Setup, rs: seq<Record>) returns (r: Option<JoinResult>)
    ensures r.None? <==> Aborts(s, rs)
    ensures r.Some? ==> r.value.rows == RowsOf(s, rs) && r.value.families == FamiliesOf(s, rs)
    ensures r.Some? ==> CountersAre(s, rs, r.value.counters)
  {
    var cache: Cache := map[];
    var counters: map<Counter, nat> := map[];
    var families: map<Family, CatalogFamily> := map[];
    var store := new MatchStore();
    var pending: seq<Row> := [];
    for n := 0 to |rs|
      invariant !Aborts(s, rs[..n])
      invariant Progress(s, rs[..n], cache, counters, families)
      invariant fresh(store) && store.rows + pending == RowsOf(s, rs[..n])
      invariant |pending| < BATCH_SIZE
    {
      ghost var seen := rs[..n];
      assert rs[..n + 1] == seen + [rs[n]];
      var outcome, cache', counters' := JoinRecord(s, rs[n], cache, counters);
      if outcome.Aborted? {
        AbortsEarly(s, rs, n);
        return None;
      }
      AbortsGrows(s, seen, rs[n]);
      ProgressGrows(s, seen, rs[n], cache, counters, counters', families, cache');
      RowsGrow(s, seen, rs[n]);
      cache, counters := cache', counters';
      if outcome.Matched? {
        families := families[outcome.family.family := outcome.family];
        pending := Buffer(store, pending, outcome.row);
      }
    }
    if pending != [] {
      store.InsertMany(pending);
    }
    assert rs[..|rs|] == rs;
    r := Some(JoinResult(store.rows, counters, families));
  }
}
