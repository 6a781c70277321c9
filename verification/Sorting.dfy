/** Stable sorting by (order, name), as `sort.SliceStable` and `sort.Strings` do it. */
module Sorting {
  import opened Common

  datatype Key = Key(order: int, name: string)

  predicate KeyLeq(a: Key, b: Key) {
    a.order < b.order || (a.order == b.order && Leq(a.name, b.name))
  }

  lemma KeyOrder(a: Key, b: Key, c: Key)
    ensures KeyLeq(a, b) || KeyLeq(b, a)
    ensures KeyLeq(a, b) && KeyLeq(b, a) ==> a == b
    ensures KeyLeq(a, b) && KeyLeq(b, c) ==> KeyLeq(a, c)
  {
    LeqTotal(a.name, b.name);
    if Leq(a.name, b.name) && Leq(b.name, c.name) { LeqTransitive(a.name, b.name, c.name); }
  }

  ghost predicate SortedBy<T>(s: seq<T>, key: T -> Key) {
    forall i, j :: 0 <= i < j < |s| ==> KeyLeq(key(s[i]), key(s[j]))
  }

  ghost predicate NoRepeats<T(!new)>(s: seq<T>) {
    forall i, j :: 0 <= i < j < |s| ==> s[i] != s[j]
  }

  lemma ConsSorted<T(!new)>(x: T, t: seq<T>, key: T -> Key)
    requires SortedBy(t, key) && forall y :: y in t ==> KeyLeq(key(x), key(y))
    ensures SortedBy([x] + t, key)
  {
    var r := [x] + t;
    forall i, j | 0 <= i < j < |r| ensures KeyLeq(key(r[i]), key(r[j])) {
      assert r[j] == t[j-1] && t[j-1] in t;
    }
  }

  /** Puts `x` before the first element whose key is not smaller than its own. */
  function Insert<T(!new)>(x: T, s: seq<T>, key: T -> Key): (r: seq<T>)
    ensures |r| == |s| + 1
    ensures forall y :: y in r <==> y == x || y in s
    ensures SortedBy(s, key) ==> SortedBy(r, key)
    ensures NoRepeats(s) && x !in s ==> NoRepeats(r)
  {
    if s == [] then [x]
    else if KeyLeq(key(x), key(s[0])) then
      assert SortedBy(s, key) ==> forall j :: 0 <= j < |s| ==> KeyLeq(key(x), key(s[j])) by {
        forall j | 0 <= j < |s| && SortedBy(s, key) ensures KeyLeq(key(x), key(s[j])) {
          KeyOrder(key(x), key(s[0]), key(s[j]));
        }
      }
      [x] + s
    else
      var t := Insert(x, s[1..], key);
      assert s == [s[0]] + s[1..];
      assert KeyLeq(key(s[0]), key(x)) by { KeyOrder(key(s[0]), key(x), key(x)); }
      assert SortedBy(s, key) ==> SortedBy(s[1..], key);
      assert NoRepeats(s) ==> NoRepeats(s[1..]) && s[0] !in s[1..];
      assert SortedBy(s, key) ==> SortedBy([s[0]] + t, key) by {
        if SortedBy(s, key) { ConsSorted(s[0], t, key); }
      }
      [s[0]] + t
  }

  /** A sorted arrangement of the same elements. */
  function StableSort<T(!new)>(s: seq<T>, key: T -> Key): (r: seq<T>)
    ensures |r| == |s|
    ensures forall y :: y in r <==> y in s
    ensures SortedBy(r, key)
    ensures NoRepeats(s) ==> NoRepeats(r)
  {
    if s == [] then []
    else
      assert NoRepeats(s) ==> NoRepeats(s[1..]) && s[0] !in s[1..];
      assert s == [s[0]] + s[1..];
      Insert(s[0], StableSort(s[1..], key), key)
  }

  /** The elements with key `k`, in their order. */
  function WithKey<T(!new)>(s: seq<T>, key: T -> Key, k: Key): seq<T> {
    if s == [] then [] else (if key(s[0]) == k then [s[0]] else []) + WithKey(s[1..], key, k)
  }

  lemma {:induction false} InsertIsStable<T(!new)>(x: T, s: seq<T>, key: T -> Key, k: Key)
    ensures WithKey(Insert(x, s, key), key, k) == (if key(x) == k then [x] else []) + WithKey(s, key, k)
  {
    var r := Insert(x, s, key);
    if s == [] || KeyLeq(key(x), key(s[0])) {
      assert r[0] == x && r[1..] == s;
    } else {
      hide KeyLeq;
      InsertIsStable(x, s[1..], key, k);
      assert r[0] == s[0] && r[1..] == Insert(x, s[1..], key);
      assert key(s[0]) != key(x) by { KeyOrder(key(x), key(s[0]), key(x)); }
    }
  }

  /** Sorting permutes, and keeps elements of equal key in their order. */
  lemma {:induction false} SortIsStable<T(!new)>(s: seq<T>, key: T -> Key, k: Key)
    ensures WithKey(StableSort(s, key), key, k) == WithKey(s, key, k)
  {
    if s != [] {
      SortIsStable(s[1..], key, k);
      InsertIsStable(s[0], StableSort(s[1..], key), key, k);
    }
  }

  /** The key tells the elements of `s` apart. */
  ghost predicate Distinguishes<T(!new)>(key: T -> Key, s: set<T>) {
    forall x, y :: x in s && y in s && key(x) == key(y) ==> x == y
  }

  /** A sorted arrangement is unique when no two elements share a key. */
  lemma {:induction false} SortedUnique<T(!new)>(a: seq<T>, b: seq<T>, key: T -> Key, s: set<T>)
    requires SortedBy(a, key) && SortedBy(b, key)
    requires Enumerates(a, s) && Enumerates(b, s) && Distinguishes(key, s)
    ensures a == b
  {
    assert a != [] ==> a[0] in s && a[0] in b;
    assert b != [] ==> b[0] in s && b[0] in a;
    if a != [] {
      HeadsAgree(a, b, key, s);
      TailEnumerates(a, s);
      TailEnumerates(b, s);
      SortedUnique(a[1..], b[1..], key, s - {a[0]});
      assert a == [a[0]] + a[1..] && b == [b[0]] + b[1..];
    }
  }

  lemma TailEnumerates<T(!new)>(a: seq<T>, s: set<T>)
    requires Enumerates(a, s) && a != []
    ensures Enumerates(a[1..], s - {a[0]})
  {
    assert a == [a[0]] + a[1..];
  }

  lemma HeadsAgree<T(!new)>(a: seq<T>, b: seq<T>, key: T -> Key, s: set<T>)
    requires SortedBy(a, key) && SortedBy(b, key) && a != [] && b != []
    requires Enumerates(a, s) && Enumerates(b, s) && Distinguishes(key, s)
    ensures a[0] == b[0]
  {
    assert a[0] in b && b[0] in a;
    var i :| 0 <= i < |b| && b[i] == a[0];
    var j :| 0 <= j < |a| && a[j] == b[0];
    KeyOrder(key(a[0]), key(b[0]), key(a[0]));
  }
}
