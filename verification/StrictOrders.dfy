// ORDER BY under a total order: lists in order, sorting, and that the order leaves one arrangement.
module StrictOrders {
  import opened Common

  predicate Less<K>(less: (K, K) -> bool, a: K, b: K) {
    less(a, b)
  }

  ghost predicate TotalOrder<K(!new)>(less: (K, K) -> bool) {
    && (forall a :: !Less(less, a, a))
    && (forall a, b, c | Less(less, a, b) && Less(less, b, c) :: Less(less, a, c))
    && (forall a, b :: a == b || Less(less, a, b) || Less(less, b, a))
  }

  predicate InOrder<K>(less: (K, K) -> bool, list: seq<K>) {
    forall j, k | 0 <= j < k < |list| :: Less(less, list[j], list[k])
  }

  function Place<K>(less: (K, K) -> bool, x: K, list: seq<K>): seq<K> {
    if list == [] || less(x, list[0]) then [x] + list else [list[0]] + Place(less, x, list[1..])
  }

  function Sorted<K>(less: (K, K) -> bool, list: seq<K>): seq<K> {
    if list == [] then [] else Place(less, list[0], Sorted(less, list[1..]))
  }

  lemma {:induction false} PlaceAdds<K>(less: (K, K) -> bool, x: K, list: seq<K>)
    ensures |Place(less, x, list)| == |list| + 1
    ensures forall y :: y in Place(less, x, list) <==> y == x || y in list
  {
    if list == [] || less(x, list[0]) {
    } else {
      PlaceAdds(less, x, list[1..]);
      assert list == [list[0]] + list[1..];
    }
  }

  lemma {:induction false} PlaceOrders<K(!new)>(less: (K, K) -> bool, x: K, list: seq<K>)
    requires TotalOrder(less) && InOrder(less, list) && x !in list
    ensures InOrder(less, Place(less, x, list))
  {
    if list == [] {
    } else if less(x, list[0]) {
      forall k | 0 < k < |list|
        ensures Less(less, x, list[k])
      {
        assert Less(less, x, list[0]) && Less(less, list[0], list[k]);
      }
    } else {
      PlaceOrders(less, x, list[1..]);
      PlaceAdds(less, x, list[1..]);
      var rest := Place(less, x, list[1..]);
      forall k | 0 <= k < |rest|
        ensures Less(less, list[0], rest[k])
      {
        assert rest[k] in rest;
        assert !Less(less, x, list[0]);
      }
    }
  }

  // Sorting keeps the elements and puts them in order.
  lemma {:induction false} SortedIs<K(!new)>(less: (K, K) -> bool, list: seq<K>)
    requires TotalOrder(less) && Distinct(list)
    ensures InOrder(less, Sorted(less, list)) && |Sorted(less, list)| == |list|
    ensures forall x :: x in Sorted(less, list) <==> x in list
  {
    if list != [] {
      SortedIs(less, list[1..]);
      PlaceAdds(less, list[0], Sorted(less, list[1..]));
      PlaceOrders(less, list[0], Sorted(less, list[1..]));
      assert list == [list[0]] + list[1..];
    }
  }

  lemma {:induction false} SortedHas<K>(less: (K, K) -> bool, list: seq<K>)
    ensures |Sorted(less, list)| == |list| && forall x :: x in Sorted(less, list) <==> x in list
  {
    if list != [] {
      SortedHas(less, list[1..]);
      PlaceAdds(less, list[0], Sorted(less, list[1..]));
      assert list == [list[0]] + list[1..];
    }
  }

  lemma InOrderIsDistinct<K(!new)>(less: (K, K) -> bool, list: seq<K>)
    requires TotalOrder(less) && InOrder(less, list)
    ensures Distinct(list)
  {
    forall j, k | 0 <= j < k < |list|
      ensures list[j] != list[k]
    {
      assert Less(less, list[j], list[k]) && !Less(less, list[j], list[j]);
    }
  }

  lemma Asymmetric<K(!new)>(less: (K, K) -> bool, a: K, b: K)
    requires TotalOrder(less)
    ensures !(Less(less, a, b) && Less(less, b, a))
  {
    assert !Less(less, a, a);
  }

  lemma FirstIsLeast<K(!new)>(less: (K, K) -> bool, list: seq<K>, x: K)
    requires InOrder(less, list) && x in list
    ensures x == list[0] || Less(less, list[0], x)
  {
  }

  lemma FirstIsSame<K(!new)>(less: (K, K) -> bool, a: seq<K>, b: seq<K>)
    requires TotalOrder(less) && InOrder(less, a) && InOrder(less, b) && a != [] && b != [] && a[0] in b && b[0] in a
    ensures a[0] == b[0]
  {
    FirstIsLeast(less, a, b[0]);
    FirstIsLeast(less, b, a[0]);
    Asymmetric(less, a[0], b[0]);
  }

  lemma NotFirst<K(!new)>(less: (K, K) -> bool, a: seq<K>, x: K)
    requires TotalOrder(less) && InOrder(less, a) && a != []
    ensures x in a[1..] <==> x in a && x != a[0]
  {
    InOrderIsDistinct(less, a);
    assert a == [a[0]] + a[1..];
  }

  // Lists of the same elements, each in order, are the same list.
  lemma {:induction false} SameElementsSameList<K(!new)>(less: (K, K) -> bool, a: seq<K>, b: seq<K>)
    requires TotalOrder(less) && InOrder(less, a) && InOrder(less, b)
    requires forall x :: x in a <==> x in b
    ensures a == b
  {
    if a == [] {
      FirstMember(b);
    } else {
      assert a[0] in b && b != [];
      assert b[0] in a;
      FirstIsSame(less, a, b);
      forall x
        ensures x in a[1..] <==> x in b[1..]
      {
        NotFirst(less, a, x);
        NotFirst(less, b, x);
      }
      SameElementsSameList(less, a[1..], b[1..]);
      assert a == [a[0]] + a[1..] && b == [b[0]] + b[1..];
    }
  }

  // Sorting forgets how the elements were arranged.
  lemma SortedOfSet<K(!new)>(less: (K, K) -> bool, a: seq<K>, b: seq<K>)
    requires TotalOrder(less) && Distinct(a) && Distinct(b) && SetOf(a) == SetOf(b)
    ensures Sorted(less, a) == Sorted(less, b)
  {
    SortedIs(less, a);
    SortedIs(less, b);
    forall x
      ensures x in a <==> x in b
    {
      assert x in SetOf(a) <==> x in SetOf(b);
    }
    SameElementsSameList(less, Sorted(less, a), Sorted(less, b));
  }
}
