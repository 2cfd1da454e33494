// Conservation and order independence of the Blender join.
module BlenderOrder {
  import opened Common
  import opened BlenderJoin

  // ---------------------------------------------------------------- conservation

  function SumEnded(s: Setup, rs: seq<Record>, reasons: seq<Reason>): nat {
    if reasons == [] then 0 else Ended(s, rs, reasons[0]) + SumEnded(s, rs, reasons[1..])
  }

  function Occurrences(reasons: seq<Reason>, reason: Reason): nat {
    if reasons == [] then 0 else (if reasons[0] == reason then 1 else 0) + Occurrences(reasons[1..], reason)
  }

  lemma {:induction false} SumGrows(s: Setup, rs: seq<Record>, r: Record, reasons: seq<Reason>)
    ensures SumEnded(s, rs + [r], reasons)
         == SumEnded(s, rs, reasons) + if OutcomeOf(s, r).Rejected? then Occurrences(reasons, OutcomeOf(s,
                                                                                                        r).reason) else 0
  {
    if reasons != [] {
      SumGrows(s, rs, r, reasons[1..]);
      assert (rs + [r])[..|rs|] == rs;
    }
  }

  lemma {:induction false} OccurrencesSplit(a: seq<Reason>, b: seq<Reason>, reason: Reason)
    ensures Occurrences(a + b, reason) == Occurrences(a, reason) + Occurrences(b, reason)
  {
    if a == [] {
      assert a + b == b;
    } else {
      OccurrencesSplit(a[1..], b, reason);
      assert (a + b)[1..] == a[1..] + b;
    }
  }

  function One(reason: Reason, other: Reason): nat {
    if reason == other then 1 else 0
  }

  lemma OccurrencesOfTwo(a: Reason, b: Reason, reason: Reason)
    ensures Occurrences([a, b], reason) == One(a, reason) + One(b, reason)
  {
    assert [a, b][1..] == [b];
    assert Occurrences([b], reason) == One(b, reason);
  }

  lemma OccurrencesOfFour(a: Reason, b: Reason, c: Reason, d: Reason, reason: Reason)
    ensures Occurrences([a, b, c, d], reason) == One(a, reason) + One(b, reason) + One(c, reason) + One(d, reason)
  {
    assert [a, b, c, d] == [a, b] + [c, d];
    OccurrencesSplit([a, b], [c, d], reason);
    OccurrencesOfTwo(a, b, reason);
    OccurrencesOfTwo(c, d, reason);
  }

  predicate AtLookup(reason: Reason) {
    || reason.TrainingIneligible? || reason.InvalidEnvelope? || reason.UnsupportedBackend? || reason.CategoryFiltered?
    || reason.UnparsedName? || reason.NoCatalogFamily?
  }

  const EARLY_REASONS: seq<Reason> := [TrainingIneligible, InvalidEnvelope, UnsupportedBackend, CategoryFiltered]
  const NAME_REASONS: seq<Reason> := [UnparsedName(Cpu), UnparsedName(Gpu), NoCatalogFamily(Cpu), NoCatalogFamily(Gpu)]

  lemma EarlyReasonsListed(reason: Reason)
    ensures Occurrences(EARLY_REASONS, reason)
         == if reason.TrainingIneligible? || reason.InvalidEnvelope? || reason.UnsupportedBackend? ||
               reason.CategoryFiltered? then 1 else 0
  {
    OccurrencesOfFour(TrainingIneligible, InvalidEnvelope, UnsupportedBackend, CategoryFiltered, reason);
  }

  lemma NameReasonsListed(reason: Reason)
    ensures Occurrences(NAME_REASONS, reason) == if reason.UnparsedName? || reason.NoCatalogFamily? then 1 else 0
  {
    OccurrencesOfFour(UnparsedName(Cpu), UnparsedName(Gpu), NoCatalogFamily(Cpu), NoCatalogFamily(Gpu), reason);
    if reason.UnparsedName? || reason.NoCatalogFamily? {
      assert reason.category == Cpu || reason.category == Gpu;
    }
  }

  lemma LookupReasonsListed(reason: Reason)
    ensures Occurrences(LOOKUP_REASONS, reason) == if AtLookup(reason) then 1 else 0
  {
    assert LOOKUP_REASONS == EARLY_REASONS + NAME_REASONS;
    OccurrencesSplit(EARLY_REASONS, NAME_REASONS, reason);
    EarlyReasonsListed(reason);
    NameReasonsListed(reason);
  }

  const MATCH_REASONS: seq<Reason> := [CatalogVariantOrFeatures, NotSingleSocket, TopologyMismatch, ExecutionIdentity]
  const VALUE_REASONS: seq<Reason> := [ScoreSemantics, InvalidScore]

  lemma MatchReasonsListed(reason: Reason)
    ensures Occurrences(MATCH_REASONS, reason)
         == if reason.CatalogVariantOrFeatures? || reason.NotSingleSocket? || reason.TopologyMismatch? ||
               reason.ExecutionIdentity?
            then 1 else 0
  {
    OccurrencesOfFour(CatalogVariantOrFeatures, NotSingleSocket, TopologyMismatch, ExecutionIdentity, reason);
  }

  lemma ValueReasonsListed(reason: Reason)
    ensures Occurrences(VALUE_REASONS, reason) == if reason.ScoreSemantics? || reason.InvalidScore? then 1 else 0
  {
    OccurrencesOfTwo(ScoreSemantics, InvalidScore, reason);
  }

  lemma CheckReasonsListed(reason: Reason)
    ensures Occurrences(CHECK_REASONS, reason) == if AtLookup(reason) then 0 else 1
  {
    assert CHECK_REASONS == MATCH_REASONS + VALUE_REASONS;
    OccurrencesSplit(MATCH_REASONS, VALUE_REASONS, reason);
    MatchReasonsListed(reason);
    ValueReasonsListed(reason);
  }

  // Every reason is listed once.
  lemma ReasonsListed(reason: Reason)
    ensures Occurrences(REASONS, reason) == 1
  {
    OccurrencesSplit(LOOKUP_REASONS, CHECK_REASONS, reason);
    LookupReasonsListed(reason);
    CheckReasonsListed(reason);
  }

  // Every record seen is counted by exactly one way to end, or stored.
  lemma {:induction false} Conservation(s: Setup, rs: seq<Record>)
    requires !Aborts(s, rs)
    ensures |rs| == SumEnded(s, rs, REASONS) + |RowsOf(s, rs)|
  {
    if rs == [] {
      NothingEnded(s, REASONS);
    } else {
      var front, r := rs[..|rs| - 1], rs[|rs| - 1];
      assert rs == front + [r];
      assert OutcomeOf(s, r) != Aborted by { assert r in rs; }
      Conservation(s, front);
      SumGrows(s, front, r, REASONS);
      if OutcomeOf(s, r).Rejected? {
        ReasonsListed(OutcomeOf(s, r).reason);
      }
    }
  }

  lemma {:induction false} NothingEnded(s: Setup, reasons: seq<Reason>)
    ensures SumEnded(s, [], reasons) == 0
  {
    if reasons != [] {
      NothingEnded(s, reasons[1..]);
    }
  }

  // ---------------------------------------------------------------- order of the records

  lemma {:induction false} RowsSplit(s: Setup, a: seq<Record>, b: seq<Record>)
    ensures RowsOf(s, a + b) == RowsOf(s, a) + RowsOf(s, b)
  {
    if b == [] {
      assert a + b == a;
    } else {
      RowsSplit(s, a, b[..|b| - 1]);
      assert (a + b)[..|a + b| - 1] == a + b[..|b| - 1];
    }
  }

  lemma {:induction false} EndedSplit(s: Setup, a: seq<Record>, b: seq<Record>, reason: Reason)
    ensures Ended(s, a + b, reason) == Ended(s, a, reason) + Ended(s, b, reason)
  {
    if b == [] {
      assert a + b == a;
    } else {
      EndedSplit(s, a, b[..|b| - 1], reason);
      assert (a + b)[..|a + b| - 1] == a + b[..|b| - 1];
    }
  }

  lemma {:induction false} RowsOfMultiset(s: Setup, a: seq<Record>, b: seq<Record>)
    requires multiset(a) == multiset(b)
    ensures multiset(RowsOf(s, a)) == multiset(RowsOf(s, b))
  {
    if a == [] {
      assert |multiset(b)| == |b|;
    } else {
      var k, rest := Pair(a, b);
      RowsOfMultiset(s, a[1..], rest);
      RowsSplit(s, [a[0]], a[1..]);
      RowsSplit(s, [b[k]], b[k + 1..]);
      RowsSplit(s, b[..k], b[k + 1..]);
      RowsSplit(s, b[..k], [b[k]] + b[k + 1..]);
    }
  }

  lemma {:induction false} EndedOfMultiset(s: Setup, a: seq<Record>, b: seq<Record>, reason: Reason)
    requires multiset(a) == multiset(b)
    ensures Ended(s, a, reason) == Ended(s, b, reason)
  {
    if a == [] {
      assert |multiset(b)| == |b|;
    } else {
      var k, rest := Pair(a, b);
      EndedOfMultiset(s, a[1..], rest, reason);
      EndedSplit(s, [a[0]], a[1..], reason);
      EndedSplit(s, [b[k]], b[k + 1..], reason);
      EndedSplit(s, b[..k], b[k + 1..], reason);
      EndedSplit(s, b[..k], [b[k]] + b[k + 1..], reason);
    }
  }

  lemma SameRecords(a: seq<Record>, b: seq<Record>)
    requires multiset(a) == multiset(b)
    ensures |a| == |b| && forall r :: r in a <==> r in b
  {
    assert |multiset(a)| == |a| && |multiset(b)| == |b|;
    forall r
      ensures r in a <==> r in b
    {
      assert r in a <==> r in multiset(a);
      assert r in b <==> r in multiset(b);
    }
  }

  // Shuffling the records changes no counter, no stored row, and not whether the join aborts.
  lemma OrderChangesNothing(s: Setup, a: seq<Record>, b: seq<Record>)
    requires multiset(a) == multiset(b)
    ensures Aborts(s, a) <==> Aborts(s, b)
    ensures multiset(RowsOf(s, a)) == multiset(RowsOf(s, b))
    ensures forall c :: Total(s, a, c) == Total(s, b, c)
  {
    SameRecords(a, b);
    RowsOfMultiset(s, a, b);
    assert KeysOf(s, a) == KeysOf(s, b);
    forall c
      ensures Total(s, a, c) == Total(s, b, c)
    {
      if c.Ends? {
        EndedOfMultiset(s, a, b, c.reason);
      } else if c.Joined? {
        assert |multiset(RowsOf(s, a))| == |RowsOf(s, a)| && |multiset(RowsOf(s, b))| == |RowsOf(s, b)|;
      }
    }
  }

  // ---------------------------------------------------------------- the last-write family map

  ghost predicate Enters(s: Setup, r: Record, family: Family, entry: CatalogFamily) {
    OutcomeOf(s, r).Matched? && OutcomeOf(s, r).family == entry && entry.family == family
  }

  // Joined records of the same family agree on its catalogue entry.
  ghost predicate Agreeing(s: Setup, rs: seq<Record>) {
    forall r, q, family, x, y | r in rs && q in rs && Enters(s, r, family, x) && Enters(s, q, family, y) :: x == y
  }

  lemma {:induction false} FamiliesAre(s: Setup, rs: seq<Record>, family: Family)
    ensures family in FamiliesOf(s, rs) ==> exists r :: r in rs && Enters(s, r, family, FamiliesOf(s, rs)[family])
    ensures forall r, entry | r in rs && Enters(s, r, family, entry) :: family in FamiliesOf(s, rs)
  {
    if rs != [] {
      var front, last := rs[..|rs| - 1], rs[|rs| - 1];
      FamiliesAre(s, front, family);
      assert rs == front + [last];
      if family in FamiliesOf(s, rs) {
        if OutcomeOf(s, last).Matched? && OutcomeOf(s, last).family.family == family {
          assert Enters(s, last, family, FamiliesOf(s, rs)[family]);
        } else {
          var r :| r in front && Enters(s, r, family, FamiliesOf(s, front)[family]);
          assert r in rs;
        }
      }
    }
  }

  lemma AgreeingFamilies(s: Setup, a: seq<Record>, b: seq<Record>)
    requires multiset(a) == multiset(b) && Agreeing(s, a)
    ensures FamiliesOf(s, a) == FamiliesOf(s, b)
  {
    SameRecords(a, b);
    forall family
      ensures family in FamiliesOf(s, a) <==> family in FamiliesOf(s, b)
      ensures family in FamiliesOf(s, a) ==> FamiliesOf(s, a)[family] == FamiliesOf(s, b)[family]
    {
      FamiliesAre(s, a, family);
      FamiliesAre(s, b, family);
    }
  }

  lemma LastWins(s: Setup, rs: seq<Record>, r: Record)
    requires OutcomeOf(s, r).Matched?
    ensures OutcomeOf(s, r).family.family in FamiliesOf(s, rs + [r])
    ensures FamiliesOf(s, rs + [r])[OutcomeOf(s, r).family.family] == OutcomeOf(s, r).family
  {
    assert (rs + [r])[..|rs|] == rs;
  }

  // A record moved to the end.
  lemma MoveLast(rs: seq<Record>, r: Record) returns (rest: seq<Record>)
    requires r in rs
    ensures multiset(rest + [r]) == multiset(rs)
  {
    var k :| 0 <= k < |rs| && rs[k] == r;
    rest := rs[..k] + rs[k + 1..];
    assert rs == rs[..k] + [rs[k]] + rs[k + 1..];
  }

  ghost predicate SameFamilies(s: Setup, rs: seq<Record>, other: seq<Record>) {
    multiset(other) == multiset(rs) ==> FamiliesOf(s, other) == FamiliesOf(s, rs)
  }

  // The family map is the same for every order of the records exactly when the joined records of
  // each family agree on its entry.
  lemma FamilyMapIsOrderFree(s: Setup, rs: seq<Record>)
    ensures Agreeing(s, rs) <==> forall other :: SameFamilies(s, rs, other)
  {
    if Agreeing(s, rs) {
      forall other | multiset(other) == multiset(rs)
        ensures FamiliesOf(s, other) == FamiliesOf(s, rs)
      {
        AgreeingFamilies(s, rs, other);
      }
    }
    if forall other :: SameFamilies(s, rs, other) {
      forall r, q, family, x, y | r in rs && q in rs && Enters(s, r, family, x) && Enters(s, q, family, y)
        ensures x == y
      {
        var a := MoveLast(rs, r);
        var b := MoveLast(rs, q);
        LastWins(s, a, r);
        LastWins(s, b, q);
        assert SameFamilies(s, rs, a + [r]) && SameFamilies(s, rs, b + [q]);
      }
    }
  }

  // ---------------------------------------------------------------- when entries agree

  predicate Integral(p: Product) {
    p.vram.Some? && p.vram.value == Truncate(p.vram.value) as real
  }

  predicate AllIntegral(products: seq<Product>) {
    forall k | 0 <= k < |products| :: Integral(products[k])
  }

  lemma {:induction false} InsertIntoIs(x: int, s: seq<int>, y: int)
    ensures y in InsertInto(x, s) <==> y == x || y in s
  {
    if s == [] || x <= s[0] {
    } else {
      InsertIntoIs(x, s[1..], y);
    }
  }

  // VRAM values are exactly the truncated values of the products that have one.
  lemma {:induction false} VramValuesAre(products: seq<Product>, v: int)
    ensures v in VramValues(products) <==> exists k :: 0 <= k < |products| && products[k].vram.Some? &&
                                                       Truncate(products[k].vram.value) == v
  {
    if products != [] {
      VramValuesAre(products[1..], v);
      if products[0].vram.Some? {
        InsertIntoIs(Truncate(products[0].vram.value), VramValues(products[1..]), v);
      }
      if v in VramValues(products[1..]) {
        var k :| 0 <= k < |products[1..]| && products[1..][k].vram.Some? && Truncate(products[1..][k].vram.value) == v;
        assert products[k + 1] == products[1..][k];
      }
      forall k | 0 < k < |products|
        ensures products[k] == products[1..][k - 1]
      {
      }
    }
  }

  lemma {:induction false} WithVramIs(products: seq<Product>, v: int)
    ensures |WithVram(products, v)| <= |products|
    ensures |WithVram(products, v)| == |products| <==> forall k | 0 <= k < |products| ::
                                                         products[k].vram == Some(v as real)
    ensures |WithVram(products, v)| == |products| ==> WithVram(products, v) == products
  {
    if products != [] {
      WithVramIs(products[1..], v);
      forall k | 0 < k < |products|
        ensures products[k] == products[1..][k - 1]
      {
      }
      if |WithVram(products, v)| == |products| {
        assert products[0].vram == Some(v as real);
        assert products == [products[0]] + products[1..];
      }
    }
  }

  lemma TruncateInteger(v: int)
    ensures Truncate(v as real) == v
  {
  }

  // For products that share one truncated value, the exact filter keeps them all exactly when
  // every product carries an integral value.
  lemma FilterKeepsAll(products: seq<Product>, v: int)
    requires VramValues(products) == [v]
    ensures |WithVram(products, v)| == |products| <==> AllIntegral(products)
    ensures AllIntegral(products) ==> WithVram(products, v) == products
  {
    WithVramIs(products, v);
    TruncateInteger(v);
    forall k | 0 <= k < |products| && Integral(products[k])
      ensures products[k].vram == Some(v as real)
    {
      VramValuesAre(products, Truncate(products[k].vram.value));
    }
    if |WithVram(products, v)| == |products| {
      forall k | 0 <= k < |products|
        ensures Integral(products[k])
      {
      }
    }
  }

  lemma {:induction false} IdCount(products: seq<Product>)
    ensures |ProductIds(products)| == |products|
  {
    if products != [] {
      IdCount(products[1..]);
    }
  }

  // An observation that names the memory size and one that does not, joined to the same family.
  ghost predicate NamedAndUnnamed(s: Setup, key: Key, name: string, other: string) {
    && InCatalog(s, key) && key.category == Gpu && key.vram.Some?
    && Leads(s, key, name) && Leads(s, key.(vram := None), other)
    && Fresh(s, key, name).Success? && Fresh(s, key.(vram := None), other).Success?
    && Fresh(s, key, name).value.family == Fresh(s, key.(vram := None), other).value.family
  }

  // They agree on the catalogue entry exactly when every product of the base family carries an
  // integral memory size.
  lemma EntriesAgreeExactly(s: Setup, key: Key, name: string, other: string)
    requires NamedAndUnnamed(s, key, name, other)
    ensures Fresh(s, key, name) == Fresh(s, key.(vram := None), other) <==> AllIntegral(Products(s, key))
  {
    var products, v := Products(s, key), key.vram.value;
    var values := VramValues(products);
    assert values == [values[0]] && values[0] == v;
    FilterKeepsAll(products, v);
    IdCount(products);
    IdCount(WithVram(products, v));
  }

  ghost predicate IntegralVram(s: Setup) {
    forall key | InCatalog(s, key) && key.category == Gpu :: AllIntegral(Products(s, key))
  }

  // With integral memory sizes throughout, two keys that lead to the same family lead to the same
  // catalogue entry.
  lemma SameFamilySameEntry(s: Setup, a: Key, b: Key, name: string, other: string)
    requires IntegralVram(s) && InCatalog(s, a) && InCatalog(s, b) && Leads(s, a, name) && Leads(s, b, other)
    requires Fresh(s, a, name).Success? && Fresh(s, b, other).Success?
    requires Fresh(s, a, name).value.family == Fresh(s, b, other).value.family
    ensures Fresh(s, a, name) == Fresh(s, b, other)
  {
    FamilyNames(s, a, name);
    FamilyNames(s, b, other);
    if a.vram == b.vram {
      KeyDecides(s, a, name, other);
    } else if a.vram.Some? && b.vram.None? {
      EntriesAgreeExactly(s, a, name, other);
    } else if b.vram.Some? && a.vram.None? {
      EntriesAgreeExactly(s, b, other, name);
    }
  }

  lemma FamilyNames(s: Setup, key: Key, name: string)
    requires InCatalog(s, key) && Leads(s, key, name) && Fresh(s, key, name).Success?
    ensures var f := Fresh(s, key, name).value;
            f.family.category == key.category && f.family.base == key.base && (key.vram.Some? ==>
                                                                                 f.family.vram == key.vram)
            && f.leakage == s.lib.leakage(f.family)
  {
  }

  lemma FamilyEntriesAgree(s: Setup, r: Record, q: Record, family: Family, x: CatalogFamily, y: CatalogFamily)
    requires IntegralVram(s) && Enters(s, r, family, x) && Enters(s, q, family, y)
    ensures x == y
  {
    var l, m := LookupOf(s, r), LookupOf(s, q);
    SameFamilySameEntry(s, l.key, m.key, l.envelope.hardwareName, m.envelope.hardwareName);
  }

  // So with integral memory sizes the family map does not depend on the order of the records.
  lemma IntegralVramAgrees(s: Setup, rs: seq<Record>)
    requires IntegralVram(s)
    ensures Agreeing(s, rs)
  {
    forall r, q, family, x, y | r in rs && q in rs && Enters(s, r, family, x) && Enters(s, q, family, y)
      ensures x == y
    {
      FamilyEntriesAgree(s, r, q, family, x, y);
    }
  }

  lemma TwoOrders(s: Setup, r: Record, q: Record)
    requires OutcomeOf(s, r).Matched? && OutcomeOf(s, q).Matched?
    requires OutcomeOf(s, r).family.family == OutcomeOf(s, q).family.family &&
             OutcomeOf(s, r).family != OutcomeOf(s, q).family
    ensures multiset([r, q]) == multiset([q, r]) && FamiliesOf(s, [r, q]) != FamiliesOf(s, [q, r])
  {
    assert [r, q] == [r] + [q] && [q, r] == [q] + [r];
    LastWins(s, [r], q);
    LastWins(s, [q], r);
  }

  // ---------------------------------------------------------------- an order that matters

  const SIZED := Product("sized", Some(8.0), 0)
  const UNSIZED := Product("unsized", None, 0)
  const SMALL_BASE := Base("gpu:small")

  const SMALL_LIBRARY: Library := Library(
                                    (name, category) => Some(SMALL_BASE),
                                    name => if name == "small 8gb" then Some(8) else None,
                                    family => LeakageFamily("small"),
                                    (family, products) => "small",
                                    (category, products) => Success(Features(0.0, 0.0, [])))

  const SMALL_SETUP: Setup := Setup(SMALL_LIBRARY, map[(Gpu, SMALL_BASE) := [SIZED, UNSIZED]], None)

  function SmallEnvelope(name: string): Envelope {
    Envelope("CUDA", name, None, None, None, Some(Execution("h", "s", "c")),
             Some(Semantics("seconds", false, "total_render_time")),
             Some(1.0), Some(Cohort("v", "s", "CUDA", "o")), Some("u"))
  }

  function SmallRecord(name: string): Record {
    Record(true, Some(SmallEnvelope(name)))
  }

  lemma SmallSelections()
    ensures VramValues([SIZED, UNSIZED]) == [8] && WithVram([SIZED, UNSIZED], 8) == [SIZED]
  {
    assert [SIZED, UNSIZED][1..] == [UNSIZED] && [UNSIZED][1..] == [];
    assert Truncate(8.0) == 8;
    assert VramValues([UNSIZED]) == [];
    WithVramIs([UNSIZED], 8);
  }

  lemma SmallOutcome(name: string)
    ensures var key := Key(Gpu, SMALL_BASE, SMALL_LIBRARY.explicitVram(name));
            && LookupOf(SMALL_SETUP, SmallRecord(name)) == Lookup(key, SmallEnvelope(name))
            && InCatalog(SMALL_SETUP, key)
            && OutcomeOf(SMALL_SETUP, SmallRecord(name)) == Conclude(Lookup(key, SmallEnvelope(name)),
                                                                     Found(Fresh(SMALL_SETUP, key, name)))
  {
    assert CategoryOf("CUDA") == Some(Gpu);
  }

  // Without integral memory sizes two orders of the same two records can give different maps: one
  // product has no memory size, and one of the two names tells it.
  lemma OrderCanMatter()
    ensures var r, q := SmallRecord("small 8gb"), SmallRecord("small");
            multiset([r, q]) == multiset([q, r]) && FamiliesOf(SMALL_SETUP, [r, q]) != FamiliesOf(SMALL_SETUP, [q, r])
  {
    SmallSelections();
    SmallOutcome("small 8gb");
    SmallOutcome("small");
    assert "small" != "small 8gb";
    assert 8 as real == 8.0;
    assert |ProductIds([SIZED])| == 1 && |ProductIds([SIZED, UNSIZED])| == 2 by {
      IdCount([SIZED]);
      IdCount([SIZED, UNSIZED]);
    }
    TwoOrders(SMALL_SETUP, SmallRecord("small 8gb"), SmallRecord("small"));
  }

  // ---------------------------------------------------------------- what joins

  // A CPU observation must come from one socket and have the topology of its family.
  predicate TopologyFits(e: Envelope, category: Category, family: CatalogFamily) {
    category == Cpu ==>
      && e.sockets == Some(1)
      && e.cores == Some(Truncate(family.features.coreCount))
      && e.threads == Some(Truncate(family.features.threadCount))
  }

  // A usable measurement: identified execution, supported semantics, a positive score and the
  // fields that name its cohort and source.
  predicate Measured(e: Envelope) {
    && e.execution.Some? && e.semantics.Some? && e.semantics.value in SUPPORTED
    && e.score.Some? && e.score.value > 0.0 && e.cohort.Some? && e.sourceUrl.Some?
  }

  // A record passes every check, in whatever order they are made.
  predicate Qualifies(s: Setup, r: Record) {
    var l := LookupOf(s, r);
    && l.Lookup? && r.eligible && r.envelope == Some(l.envelope)
    && CategoryOf(l.envelope.backend) == Some(l.key.category)
    && (s.filter.Some? ==> s.filter.value == l.key.category)
    && s.lib.baseFamily(l.envelope.hardwareName, l.key.category) == Some(l.key.base)
    && Fresh(s, l.key, l.envelope.hardwareName).Success?
    && TopologyFits(l.envelope, l.key.category, Fresh(s, l.key, l.envelope.hardwareName).value)
    && Measured(l.envelope)
  }

  // The row of a record that passes: the family that was found and the values that were measured.
  function RowFor(s: Setup, r: Record): Row
    requires Qualifies(s, r)
  {
    var e := r.envelope.value;
    var family := Fresh(s, LookupOf(s, r).key, e.hardwareName).value;
    Row(CohortKey(e.cohort.value, e.execution.value, e.semantics.value), family.family, family.leakage, e.score.value,
        e.sourceUrl.value, e.hardwareName)
  }

  lemma JoinsExactly(s: Setup, r: Record)
    ensures OutcomeOf(s, r).Matched? <==> Qualifies(s, r)
    ensures Qualifies(s, r) ==> OutcomeOf(s, r).row == RowFor(s, r)
  {
  }

  lemma {:induction false} StoredIsMatched(s: Setup, rs: seq<Record>, row: Row)
    ensures row in RowsOf(s, rs) <==> exists r :: r in rs && OutcomeOf(s, r).Matched? && OutcomeOf(s, r).row == row
  {
    if rs != [] {
      var front, last := rs[..|rs| - 1], rs[|rs| - 1];
      StoredIsMatched(s, front, row);
      assert rs == front + [last];
      if row in RowsOf(s, front) {
        var r :| r in front && OutcomeOf(s, r).Matched? && OutcomeOf(s, r).row == row;
        assert r in rs;
      }
    }
  }

  // The store holds exactly the rows of the records that pass every check.
  lemma StoredExactly(s: Setup, rs: seq<Record>, row: Row)
    ensures row in RowsOf(s, rs) <==> exists r :: r in rs && Qualifies(s, r) && RowFor(s, r) == row
  {
    StoredIsMatched(s, rs, row);
    forall r | r in rs
      ensures OutcomeOf(s, r).Matched? <==> Qualifies(s, r)
      ensures Qualifies(s, r) ==> OutcomeOf(s, r).row == RowFor(s, r)
    {
      JoinsExactly(s, r);
    }
    if r :| r in rs && OutcomeOf(s, r).Matched? && OutcomeOf(s, r).row == row {
      assert Qualifies(s, r) && RowFor(s, r) == row;
    }
  }

  // Without an explicit memory size a GPU family is ambiguous exactly when two products have
  // different truncated sizes; with one, it conflicts exactly when no product has that size.
  lemma VariantsRejectedExactly(s: Setup, key: Key, name: string)
    requires InCatalog(s, key) && Leads(s, key, name) && key.category == Gpu
    ensures Fresh(s, key, name) == Failure(AmbiguousVram) <==> key.vram.None? && TwoSizes(Products(s, key))
    ensures Fresh(s, key, name) == Failure(ExplicitVramConflict) <==>
            key.vram.Some? && forall p | p in Products(s, key) :: p.vram != Some(key.vram.value as real)
  {
    var products := Products(s, key);
    if key.vram.Some? {
      WithVramMembers(products, key.vram.value);
    } else {
      SizesDiffer(products);
    }
  }

  lemma SizesDiffer(products: seq<Product>)
    ensures |VramValues(products)| > 1 <==> TwoSizes(products)
  {
    var values := VramValues(products);
    VramValuesAscend(products);
    if |values| > 1 {
      VramValuesAre(products, values[0]);
      VramValuesAre(products, values[1]);
      var j :| 0 <= j < |products| && products[j].vram.Some? && Truncate(products[j].vram.value) == values[0];
      var k :| 0 <= k < |products| && products[k].vram.Some? && Truncate(products[k].vram.value) == values[1];
      assert DifferentSizes(products, j, k);
    }
    if TwoSizes(products) {
      var j, k :| DifferentSizes(products, j, k);
      VramValuesAre(products, Truncate(products[j].vram.value));
      VramValuesAre(products, Truncate(products[k].vram.value));
    }
  }

  predicate DifferentSizes(products: seq<Product>, j: int, k: int) {
    && 0 <= j < |products| && 0 <= k < |products|
    && products[j].vram.Some? && products[k].vram.Some?
    && Truncate(products[j].vram.value) != Truncate(products[k].vram.value)
  }

  ghost predicate TwoSizes(products: seq<Product>) {
    exists j, k :: DifferentSizes(products, j, k)
  }

  predicate StrictlyAscending(s: seq<int>) {
    forall j, k | 0 <= j < k < |s| :: s[j] < s[k]
  }

  lemma {:induction false} InsertIntoAscends(x: int, s: seq<int>)
    requires StrictlyAscending(s)
    ensures StrictlyAscending(InsertInto(x, s))
  {
    if s == [] || x <= s[0] {
    } else {
      InsertIntoAscends(x, s[1..]);
      var rest := InsertInto(x, s[1..]);
      forall k | 0 <= k < |rest|
        ensures s[0] < rest[k]
      {
        InsertIntoIs(x, s[1..], rest[k]);
      }
    }
  }

  lemma {:induction false} VramValuesAscend(products: seq<Product>)
    ensures StrictlyAscending(VramValues(products))
  {
    if products != [] {
      VramValuesAscend(products[1..]);
      if products[0].vram.Some? {
        InsertIntoAscends(Truncate(products[0].vram.value), VramValues(products[1..]));
      }
    }
  }

  lemma {:induction false} WithVramMembers(products: seq<Product>, v: int)
    ensures forall p :: p in WithVram(products, v) <==> p in products && p.vram == Some(v as real)
    ensures WithVram(products, v) == [] <==> forall p | p in products :: p.vram != Some(v as real)
  {
    if products != [] {
      WithVramMembers(products[1..], v);
      assert products == [products[0]] + products[1..];
    }
  }
}
