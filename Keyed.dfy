/** The keyed-collection operations every tracker repeats: `findIndex`/`find` by key,
    find-or-replace ("upsert") by a natural key, map-and-merge on the elements with one id,
    and filter by key. Each is generic in the element type and in its key function. */
module Keyed {
  import opened Types

  /** Some element of `s` has key `k`. */
  predicate HasKey<T, K(==)>(s: seq<T>, key: T -> K, k: K) {
    exists j :: 0 <= j < |s| && key(s[j]) == k
  }

  /** No two elements of `s` share a key. */
  predicate Unique<T, K(==)>(s: seq<T>, key: T -> K) {
    forall i, j :: 0 <= i < j < |s| ==> key(s[i]) != key(s[j])
  }

  /** `s.findIndex(x => key(x) === k)`: the first index whose element has key `k`, or -1. */
  function IndexOf<T, K(==)>(s: seq<T>, key: T -> K, k: K): (r: int)
    ensures -1 <= r < |s|
    ensures 0 <= r ==> key(s[r]) == k && forall j :: 0 <= j < r ==> key(s[j]) != k
    ensures r == -1 <==> !HasKey(s, key, k)
  {
    if |s| == 0 then -1
    else if key(s[0]) == k then 0
    else
      var i := IndexOf(s[1..], key, k);
      assert forall j :: 1 <= j < |s| ==> s[j] == s[1..][j - 1];
      if i < 0 then -1 else i + 1
  }

  /** The first index with key `k` is determined by the elements up to it. */
  lemma IndexOfIs<T, K>(s: seq<T>, key: T -> K, k: K, i: int)
    requires 0 <= i < |s| && key(s[i]) == k
    requires forall j :: 0 <= j < i ==> key(s[j]) != k
    ensures IndexOf(s, key, k) == i
  {
  }

  /** `s.find(x => key(x) === k)`: the first element with key `k`, if any. */
  function Find<T, K(==)>(s: seq<T>, key: T -> K, k: K): (r: Option<T>)
    ensures r.None? <==> !HasKey(s, key, k)
    ensures r.Some? ==> key(r.value) == k && r.value == s[IndexOf(s, key, k)]
  {
    var i := IndexOf(s, key, k);
    if i < 0 then None else Some(s[i])
  }

  /** Number of elements with key `k`. */
  function Count<T, K(==)>(s: seq<T>, key: T -> K, k: K): (n: nat)
    ensures n <= |s|
    ensures n == 0 <==> !HasKey(s, key, k)
  {
    if s == [] then 0
    else
      assert forall j :: 1 <= j < |s| ==> s[j] == s[1..][j - 1];
      (if key(s[0]) == k then 1 else 0) + Count(s[1..], key, k)
  }

  /** Two sequences that agree on every key find a key at the same position. */
  lemma IndexOfSameKeys<T, K>(s: seq<T>, r: seq<T>, key: T -> K, k: K)
    requires |s| == |r| && forall j :: 0 <= j < |s| ==> key(s[j]) == key(r[j])
    ensures IndexOf(r, key, k) == IndexOf(s, key, k)
  {
    var i := IndexOf(s, key, k);
    if i >= 0 {
      IndexOfIs(r, key, k, i);
    } else {
      assert !HasKey(r, key, k);
    }
  }

  // ---------------------------------------------------------------- upsert

  /** Find-or-replace by the key of `x`: the first element with that key becomes `x`;
      when there is none, `x` is appended. */
  function Upsert<T, K(==)>(s: seq<T>, key: T -> K, x: T): (r: seq<T>)
    ensures |r| == if HasKey(s, key, key(x)) then |s| else |s| + 1
    ensures forall j :: 0 <= j < |s| && key(s[j]) != key(x) ==> r[j] == s[j]
    ensures !HasKey(s, key, key(x)) ==> r == s + [x]
    ensures Find(r, key, key(x)) == Some(x)
  {
    var i := IndexOf(s, key, key(x));
    if i >= 0 then
      IndexOfIs(s[i := x], key, key(x), i);
      s[i := x]
    else
      IndexOfIs(s + [x], key, key(x), |s|);
      s + [x]
  }

  /** Upsert replaces in place: the first element with the key is the one replaced. */
  lemma UpsertInPlace<T, K>(s: seq<T>, key: T -> K, x: T)
    requires HasKey(s, key, key(x))
    ensures Upsert(s, key, x) == s[IndexOf(s, key, key(x)) := x]
  {
  }

  /** A lookup of any other key sees the same element before and after an upsert. */
  lemma UpsertOtherKey<T, K>(s: seq<T>, key: T -> K, x: T, k: K)
    requires key(x) != k
    ensures Find(Upsert(s, key, x), key, k) == Find(s, key, k)
  {
    var r := Upsert(s, key, x);
    var i := IndexOf(s, key, key(x));
    assert forall j :: 0 <= j < |s| ==> r[j] == s[j] || (j == i && r[j] == x);
    if HasKey(s, key, k) {
      IndexOfIs(r, key, k, IndexOf(s, key, k));
    } else {
      assert forall j :: 0 <= j < |r| ==> r[j] == x || (j < |s| && r[j] == s[j]);
    }
  }

  /** Upserting never introduces a duplicate key. */
  lemma UpsertKeepsUnique<T, K>(s: seq<T>, key: T -> K, x: T)
    requires Unique(s, key)
    ensures Unique(Upsert(s, key, x), key)
  {
    var r := Upsert(s, key, x);
    var i := IndexOf(s, key, key(x));
    forall a, b | 0 <= a < b < |r| ensures key(r[a]) != key(r[b]) {
      if i >= 0 {
        assert key(r[i]) == key(s[i]);
        assert forall j :: 0 <= j < |s| ==> key(r[j]) == key(s[j]);
      } else if b == |s| {
        assert r[b] == x;
      }
    }
  }

  /** Two upserts with the same key leave the effect of the second one only. */
  lemma UpsertTwice<T, K>(s: seq<T>, key: T -> K, x: T, y: T)
    requires key(x) == key(y)
    ensures Upsert(Upsert(s, key, x), key, y) == Upsert(s, key, y)
  {
    var i := IndexOf(s, key, key(x));
    if i >= 0 {
      IndexOfIs(s[i := x], key, key(x), i);
      assert s[i := x][i := y] == s[i := y];
    } else {
      IndexOfIs(s + [x], key, key(x), |s|);
      assert (s + [x])[|s| := y] == s + [y];
    }
  }

  lemma {:induction false} CountAppend<T, K>(s: seq<T>, key: T -> K, k: K, x: T)
    ensures Count(s + [x], key, k) == Count(s, key, k) + (if key(x) == k then 1 else 0)
  {
    if s == [] {
      assert [x][1..] == [];
    } else {
      assert (s + [x])[1..] == s[1..] + [x];
      CountAppend(s[1..], key, k, x);
    }
  }

  lemma {:induction false} CountReplace<T, K>(s: seq<T>, key: T -> K, k: K, i: int, x: T)
    requires 0 <= i < |s|
    ensures Count(s[i := x], key, k)
            == Count(s, key, k) - (if key(s[i]) == k then 1 else 0) + (if key(x) == k then 1 else 0)
  {
    if i == 0 {
      assert s[i := x][1..] == s[1..];
    } else {
      assert s[i := x][1..] == s[1..][i - 1 := x];
      CountReplace(s[1..], key, k, i - 1, x);
    }
  }

  /** With at most one element for a key before, an upsert with that key leaves exactly one,
      and the count of every other key is unchanged. */
  lemma UpsertCount<T, K>(s: seq<T>, key: T -> K, x: T, k: K)
    requires Count(s, key, key(x)) <= 1
    ensures Count(Upsert(s, key, x), key, k) == if k == key(x) then 1 else Count(s, key, k)
  {
    var i := IndexOf(s, key, key(x));
    if i >= 0 {
      CountReplace(s, key, k, i, x);
    } else {
      CountAppend(s, key, k, x);
    }
  }

  /** In a collection without duplicate keys each key occurs at most once. */
  lemma {:induction false} UniqueCount<T, K>(s: seq<T>, key: T -> K, k: K)
    requires Unique(s, key)
    ensures Count(s, key, k) <= 1
  {
    if s != [] {
      assert Unique(s[1..], key);
      UniqueCount(s[1..], key, k);
      if key(s[0]) == k {
        forall j | 0 <= j < |s[1..]| ensures key(s[1..][j]) != k {
          assert s[1..][j] == s[j + 1];
        }
      }
    }
  }

  // ---------------------------------------------------------------- update by key

  /** `s.map(x => key(x) === k ? f(x) : x)`. */
  function UpdateWhere<T, K(==)>(s: seq<T>, key: T -> K, k: K, f: T -> T): (r: seq<T>)
    ensures |r| == |s|
    ensures forall j :: 0 <= j < |s| && key(s[j]) != k ==> r[j] == s[j]
    ensures forall j :: 0 <= j < |s| && key(s[j]) == k ==> r[j] == f(s[j])
  {
    if s == [] then []
    else
      var rest := UpdateWhere(s[1..], key, k, f);
      assert forall j :: 1 <= j < |s| ==> s[j] == s[1..][j - 1];
      [if key(s[0]) == k then f(s[0]) else s[0]] + rest
  }

  /** Updating a key no element has changes nothing. */
  lemma UpdateAbsent<T, K>(s: seq<T>, key: T -> K, k: K, f: T -> T)
    requires !HasKey(s, key, k)
    ensures UpdateWhere(s, key, k, f) == s
  {
  }

  /** When `f` keeps keys, so does the update, and key uniqueness is preserved. */
  lemma UpdateKeepsKeys<T, K>(s: seq<T>, key: T -> K, k: K, f: T -> T)
    requires forall x :: key(f(x)) == key(x)
    ensures forall j :: 0 <= j < |s| ==> key(UpdateWhere(s, key, k, f)[j]) == key(s[j])
    ensures Unique(s, key) ==> Unique(UpdateWhere(s, key, k, f), key)
  {
  }

  // ---------------------------------------------------------------- filter by key

  /** `s.filter(x => key(x) !== k)`. */
  function RemoveWhere<T, K(==)>(s: seq<T>, key: T -> K, k: K): (r: seq<T>)
    ensures forall j :: 0 <= j < |r| ==> r[j] in s && key(r[j]) != k
    ensures forall j :: 0 <= j < |s| && key(s[j]) != k ==> s[j] in r
    ensures |r| == |s| - Count(s, key, k)
  {
    if s == [] then []
    else
      assert forall j :: 1 <= j < |s| ==> s[j] == s[1..][j - 1];
      (if key(s[0]) == k then [] else [s[0]]) + RemoveWhere(s[1..], key, k)
  }

  /** `s.filter(x => key(x) === k)`. */
  function KeepWhere<T, K(==)>(s: seq<T>, key: T -> K, k: K): (r: seq<T>)
    ensures forall j :: 0 <= j < |r| ==> r[j] in s && key(r[j]) == k
    ensures forall j :: 0 <= j < |s| && key(s[j]) == k ==> s[j] in r
    ensures |r| == Count(s, key, k)
  {
    if s == [] then []
    else
      assert forall j :: 1 <= j < |s| ==> s[j] == s[1..][j - 1];
      (if key(s[0]) == k then [s[0]] else []) + KeepWhere(s[1..], key, k)
  }

  /** Filtering keeps the order of what it keeps: it distributes over concatenation. */
  lemma {:induction false} RemoveConcat<T, K>(a: seq<T>, b: seq<T>, key: T -> K, k: K)
    ensures RemoveWhere(a + b, key, k) == RemoveWhere(a, key, k) + RemoveWhere(b, key, k)
  {
    if a == [] {
      assert a + b == b;
    } else {
      assert (a + b)[0] == a[0];
      assert (a + b)[1..] == a[1..] + b;
      RemoveConcat(a[1..], b, key, k);
    }
  }

  /** Keeping one key also keeps the order of what it keeps. */
  lemma {:induction false} KeepConcat<T, K>(a: seq<T>, b: seq<T>, key: T -> K, k: K)
    ensures KeepWhere(a + b, key, k) == KeepWhere(a, key, k) + KeepWhere(b, key, k)
  {
    if a == [] {
      assert a + b == b;
    } else {
      assert (a + b)[0] == a[0];
      assert (a + b)[1..] == a[1..] + b;
      KeepConcat(a[1..], b, key, k);
    }
  }

  /** Removing a key no element has changes nothing. */
  lemma {:induction false} RemoveAbsent<T, K>(s: seq<T>, key: T -> K, k: K)
    requires !HasKey(s, key, k)
    ensures RemoveWhere(s, key, k) == s
  {
    if s != [] {
      assert key(s[0]) != k;
      assert !HasKey(s[1..], key, k) by {
        forall j | 0 <= j < |s[1..]| ensures key(s[1..][j]) != k {
          assert s[1..][j] == s[j + 1];
        }
      }
      RemoveAbsent(s[1..], key, k);
      assert s == [s[0]] + s[1..];
    }
  }

  /** Removing twice is removing once. */
  lemma RemoveTwice<T, K>(s: seq<T>, key: T -> K, k: K)
    ensures RemoveWhere(RemoveWhere(s, key, k), key, k) == RemoveWhere(s, key, k)
  {
    var r := RemoveWhere(s, key, k);
    assert !HasKey(r, key, k);
    RemoveAbsent(r, key, k);
  }

  /** Filtering out a key keeps the remaining keys unique. */
  lemma {:induction false} RemoveKeepsUnique<T, K, L>(s: seq<T>, key: T -> K, k: K, id: T -> L)
    requires Unique(s, id)
    ensures Unique(RemoveWhere(s, key, k), id)
  {
    if s != [] {
      assert Unique(s[1..], id);
      RemoveKeepsUnique(s[1..], key, k, id);
      var rest := RemoveWhere(s[1..], key, k);
      if key(s[0]) != k {
        var r := [s[0]] + rest;
        forall a, b | 0 <= a < b < |r| ensures id(r[a]) != id(r[b]) {
          if a == 0 {
            assert r[b] in s[1..];
            var j :| 0 <= j < |s[1..]| && s[1..][j] == r[b];
            assert s[j + 1] == r[b];
          } else {
            assert r[a] == rest[a - 1] && r[b] == rest[b - 1];
          }
        }
      }
    }
  }
}
