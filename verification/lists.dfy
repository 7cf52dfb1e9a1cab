/**
 * Keyed list operations behind the local histories and favorites:
 * `filter` by key, `findIndex` by key, `slice(0, n)`, and the facts about
 * order, membership and uniqueness that the pages rely on.
 */
module Lists {

  /** `a` is `b` with some elements left out, the rest in their original order. */
  predicate IsSubsequence<T(==)>(a: seq<T>, b: seq<T>)
    decreases |b|
  {
    a == [] || (b != [] && (if a[0] == b[0] then IsSubsequence(a[1..], b[1..]) else IsSubsequence(a, b[1..])))
  }

  /** No key occurs twice. */
  predicate UniqueKeys<T, K(==)>(s: seq<T>, key: T -> K) {
    forall i, j :: 0 <= i < j < |s| ==> key(s[i]) != key(s[j])
  }

  /** Some element has key `k`. */
  predicate HasKey<T, K(==)>(s: seq<T>, key: T -> K, k: K) {
    exists i :: 0 <= i < |s| && key(s[i]) == k
  }

  /**
   * `s.filter(item => key(item) !== k)`: no element with key `k` is left,
   * and the others keep their original order (`RemoveKeyCounts`: each as
   * often as in `s`).
   */
  function RemoveKey<T(==,!new), K(==)>(s: seq<T>, key: T -> K, k: K): (r: seq<T>)
    ensures |r| <= |s|
    ensures !HasKey(r, key, k)
    ensures IsSubsequence(r, s)
  {
    if s == [] then []
    else
      var rest := RemoveKey(s[1..], key, k);
      assert s == [s[0]] + s[1..];
      if key(s[0]) == k then
        SubsequenceOfTail(rest, s);
        rest
      else
        assert ([s[0]] + rest)[1..] == rest;
        [s[0]] + rest
  }

  /** A subsequence of the tail is a subsequence of the whole. */
  lemma {:induction false} SubsequenceOfTail<T>(a: seq<T>, b: seq<T>)
    requires b != [] && IsSubsequence(a, b[1..])
    ensures IsSubsequence(a, b)
    decreases |a| + |b|
  {
    if a != [] && a[0] == b[0] {
      SubsequenceDropHead(a, b[1..]);
    }
  }

  /** Dropping the head of a subsequence keeps it a subsequence. */
  lemma {:induction false} SubsequenceDropHead<T>(a: seq<T>, b: seq<T>)
    requires a != [] && IsSubsequence(a, b)
    ensures IsSubsequence(a[1..], b)
    decreases |a| + |b|
  {
    if a[0] != b[0] {
      SubsequenceDropHead(a, b[1..]);
    }
    SubsequenceOfTail(a[1..], b);
  }

  /** A prefix of a subsequence is a subsequence. */
  lemma {:induction false} PrefixSubsequence<T>(a: seq<T>, b: seq<T>, n: nat)
    requires IsSubsequence(a, b) && n <= |a|
    ensures IsSubsequence(a[..n], b)
    decreases |b|
  {
    if n > 0 {
      if a[0] == b[0] {
        PrefixSubsequence(a[1..], b[1..], n - 1);
        assert a[..n][1..] == a[1..][..n - 1];
      } else {
        PrefixSubsequence(a, b[1..], n);
      }
    }
  }

  /** Removing a key nobody has changes nothing. */
  lemma {:induction false} RemoveAbsentKey<T(!new), K>(s: seq<T>, key: T -> K, k: K)
    requires !HasKey(s, key, k)
    ensures RemoveKey(s, key, k) == s
  {
    if s != [] {
      assert !HasKey(s[1..], key, k) by {
        forall i | 0 <= i < |s[1..]| ensures key(s[1..][i]) != k {
          assert s[1..][i] == s[i + 1];
        }
      }
      RemoveAbsentKey(s[1..], key, k);
    }
  }

  /** `RemoveKey` keeps every element whose key is not `k` exactly as often as it occurs in `s`. */
  lemma {:induction false} RemoveKeyCounts<T(!new), K>(s: seq<T>, key: T -> K, k: K)
    ensures forall x :: key(x) != k ==> multiset(RemoveKey(s, key, k))[x] == multiset(s)[x]
  {
    if s != [] {
      RemoveKeyCounts(s[1..], key, k);
      assert s == [s[0]] + s[1..];
    }
  }

  /** Every element left by `RemoveKey` stands somewhere in the original. */
  lemma RemovedFrom<T(!new), K>(s: seq<T>, key: T -> K, k: K, j: nat)
    requires j < |RemoveKey(s, key, k)|
    ensures exists m :: 0 <= m < |s| && s[m] == RemoveKey(s, key, k)[j]
  {
    var r := RemoveKey(s, key, k);
    RemoveKeyCounts(s, key, k);
    assert key(r[j]) != k;
    assert r[j] in multiset(r);
    assert r[j] in multiset(s);
  }

  /** A key not among `rest`'s keys can go in front of `rest` without breaking uniqueness. */
  lemma ConsUnique<T, K>(x: T, rest: seq<T>, key: T -> K)
    requires UniqueKeys(rest, key)
    requires forall j :: 0 <= j < |rest| ==> key(rest[j]) != key(x)
    ensures UniqueKeys([x] + rest, key)
  {
    var r := [x] + rest;
    forall i, j | 0 <= i < j < |r| ensures key(r[i]) != key(r[j]) {
      assert r[j] == rest[j - 1];
      if i > 0 {
        assert r[i] == rest[i - 1];
      }
    }
  }

  /** The tail of a list with unique keys has unique keys, none equal to the head's. */
  lemma TailUnique<T, K>(s: seq<T>, key: T -> K)
    requires s != [] && UniqueKeys(s, key)
    ensures UniqueKeys(s[1..], key)
    ensures forall m :: 0 <= m < |s[1..]| ==> key(s[1..][m]) != key(s[0])
  {
    var tail := s[1..];
    forall i, j | 0 <= i < j < |tail| ensures key(tail[i]) != key(tail[j]) {
      assert tail[i] == s[i + 1] && tail[j] == s[j + 1];
    }
    forall m | 0 <= m < |tail| ensures key(tail[m]) != key(s[0]) {
      assert tail[m] == s[m + 1];
    }
  }

  /** Removing a key keeps the remaining keys unique. */
  lemma {:induction false} RemoveKeepsUnique<T(!new), K>(s: seq<T>, key: T -> K, k: K)
    requires UniqueKeys(s, key)
    ensures UniqueKeys(RemoveKey(s, key, k), key)
  {
    if s != [] {
      var tail := s[1..];
      TailUnique(s, key);
      RemoveKeepsUnique(tail, key, k);
      var rest := RemoveKey(tail, key, k);
      if key(s[0]) != k {
        forall j | 0 <= j < |rest| ensures key(rest[j]) != key(s[0]) {
          RemovedFrom(tail, key, k, j);
        }
        ConsUnique(s[0], rest, key);
      }
    }
  }

  /**
   * `s.findIndex(item => key(item) == k)`: the first position holding key
   * `k`, or -1 when there is none.
   */
  function FindIndex<T, K(==)>(s: seq<T>, key: T -> K, k: K): (i: int)
    ensures -1 <= i < |s|
    ensures i >= 0 ==> key(s[i]) == k && forall j :: 0 <= j < i ==> key(s[j]) != k
    ensures i < 0 <==> !HasKey(s, key, k)
  {
    if s == [] then -1
    else if key(s[0]) == k then 0
    else
      var i := FindIndex(s[1..], key, k);
      assert HasKey(s, key, k) ==> HasKey(s[1..], key, k) by {
        if HasKey(s, key, k) {
          var j :| 0 <= j < |s| && key(s[j]) == k;
          assert key(s[1..][j - 1]) == k;
        }
      }
      if i < 0 then -1 else i + 1
  }

  /** `s.slice(0, n)` (also what `splice(n)` leaves): the first `n` elements, or all of them. */
  function Take<T>(s: seq<T>, n: nat): (r: seq<T>)
    ensures |r| == if |s| <= n then |s| else n
    ensures r == s[..|r|]
  {
    if |s| <= n then s else s[..n]
  }
}
