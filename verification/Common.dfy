// Types, list facts and hash assumptions shared by the other modules.
module Common {

  datatype Option<+T> = None | Some(value: T)

  datatype Result<+T, +E> = Success(value: T) | Failure(error: E)

  // A SHA-256 digest, read as a number.
  type Digest = nat

  type Bytes = seq<bv8>

  // ---------------------------------------------------------------- lists

  predicate Distinct<T(==)>(s: seq<T>) {
    forall j, k | 0 <= j < k < |s| :: s[j] != s[k]
  }

  function SetOf<T(==)>(s: seq<T>): set<T> {
    set x | x in s
  }

  lemma FirstMember<T>(s: seq<T>)
    ensures s != [] ==> s[0] in s
  {
  }

  lemma {:induction false} SetSize<T>(s: seq<T>)
    requires Distinct(s)
    ensures |SetOf(s)| == |s|
  {
    if s != [] {
      SetSize(s[1..]);
      assert SetOf(s) == SetOf(s[1..]) + {s[0]};
    }
  }

  lemma SmallerSet<T>(a: set<T>, b: set<T>)
    requires a <= b
    ensures |a| <= |b|
  {
    assert b == a + (b - a) && |b| == |a| + |b - a|;
  }

  lemma SameSize<T>(a: set<T>, b: set<T>)
    requires a <= b && |a| == |b|
    ensures a == b
  {
    assert b == a + (b - a) && |b| == |a| + |b - a|;
  }

  // ---------------------------------------------------------------- file hashes

  predicate SameSha(sha: Bytes -> Digest, a: Bytes, b: Bytes) {
    sha(a) == sha(b)
  }

  // No two files share a hash.
  ghost predicate ShaPins(sha: Bytes -> Digest) {
    forall a, b | SameSha(sha, a, b) :: a == b
  }

  // ---------------------------------------------------------------- arrangements

  // Two arrangements of the same elements, with one element taken out of each.
  lemma TakeOut<T>(a: seq<T>, b: seq<T>, k: nat)
    requires a != [] && k < |b| && b[k] == a[0] && multiset(a) == multiset(b)
    ensures multiset(a[1..]) == multiset(b[..k] + b[k + 1..])
  {
    assert a == [a[0]] + a[1..];
    assert b == b[..k] + [b[k]] + b[k + 1..];
    assert multiset(a[1..]) == multiset(a) - multiset{a[0]};
    assert multiset(b[..k] + b[k + 1..]) == multiset(b) - multiset{b[k]};
  }

  // Where the first element of one arrangement stands in another one, and what is left there.
  lemma Pair<T>(a: seq<T>, b: seq<T>) returns (k: nat, rest: seq<T>)
    requires a != [] && multiset(a) == multiset(b)
    ensures k < |b| && b[k] == a[0] && rest == b[..k] + b[k + 1..] && multiset(a[1..]) == multiset(rest)
    ensures a == [a[0]] + a[1..] && b == b[..k] + ([b[k]] + b[k + 1..])
  {
    assert a[0] in multiset(b);
    k :| k < |b| && b[k] == a[0];
    rest := b[..k] + b[k + 1..];
    TakeOut(a, b, k);
  }
}
