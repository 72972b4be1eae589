/**
 * The re-sorting step that follows every append in the engine
 * (`sort.Slice` keyed on the length of a string, descending).
 *
 * `sort.Slice` is not stable, so the only thing the engine may rely on is
 * that the result is ordered by non-increasing key and is a permutation of
 * its input; the order among equal keys is left unspecified here too.
 */
module Sorting {

  /** Ordered by non-increasing `key`: earlier elements are never shorter. */
  ghost predicate SortedDesc<T>(s: seq<T>, key: T -> nat) {
    forall i, j :: 0 <= i < j < |s| ==> key(s[i]) >= key(s[j])
  }

  /** Inserts `x` in front of the first element whose key is smaller than its own. */
  method Insert<T>(s: seq<T>, x: T, key: T -> nat) returns (r: seq<T>)
    requires SortedDesc(s, key)
    ensures SortedDesc(r, key)
    ensures multiset(r) == multiset(s) + multiset{x}
  {
    var k := 0;
    while k < |s| && key(s[k]) >= key(x)
      invariant 0 <= k <= |s|
      invariant forall i :: 0 <= i < k ==> key(s[i]) >= key(x)
    {
      k := k + 1;
    }
    r := s[..k] + [x] + s[k..];
    InsertAt(s, x, key, k);
    InsertAtCounts(s, x, k);
  }

  /** Putting `x` at index `k`, after the keys not below its own and before the rest, keeps the order. */
  lemma InsertAt<T>(s: seq<T>, x: T, key: T -> nat, k: nat)
    requires SortedDesc(s, key) && k <= |s|
    requires forall i :: 0 <= i < k ==> key(s[i]) >= key(x)
    requires k < |s| ==> key(s[k]) < key(x)
    ensures SortedDesc(s[..k] + [x] + s[k..], key)
  {
    var r := s[..k] + [x] + s[k..];
    assert |r| == |s| + 1;
    forall i, j | 0 <= i < j < |r| ensures key(r[i]) >= key(r[j]) {
      var ri := if i < k then s[i] else if i == k then x else s[i - 1];
      var rj := if j < k then s[j] else if j == k then x else s[j - 1];
      assert r[i] == ri && r[j] == rj;
      if i == k {
        assert key(x) > key(s[k]) >= key(s[j - 1]);
      } else if j != k {
        var i', j' := if i < k then i else i - 1, if j < k then j else j - 1;
        assert i' <= j' && ri == s[i'] && rj == s[j'];
      }
    }
  }

  /** Putting `x` anywhere adds exactly it. */
  lemma InsertAtCounts<T>(s: seq<T>, x: T, k: nat)
    requires k <= |s|
    ensures multiset(s[..k] + [x] + s[k..]) == multiset(s) + multiset{x}
  {
    assert s == s[..k] + s[k..];
  }

  /**
   * Stand-in for `sort.Slice(s, func(i, j) { return key(s[i]) > key(s[j]) })`:
   * any permutation of `s` ordered by non-increasing key.
   */
  method SortByKey<T>(s: seq<T>, key: T -> nat) returns (r: seq<T>)
    ensures SortedDesc(r, key)
    ensures multiset(r) == multiset(s)
  {
    r := [];
    var i := 0;
    while i < |s|
      invariant 0 <= i <= |s|
      invariant SortedDesc(r, key)
      invariant multiset(r) == multiset(s[..i])
    {
      r := Insert(r, s[i], key);
      assert s[..i + 1] == s[..i] + [s[i]];
      i := i + 1;
    }
    assert s[..i] == s;
  }
}
