/**
 * Python's `sorted(xs, key=k, reverse=True)`: a stable sort into non-increasing key order,
 * written as an insertion sort.
 */
module Sorting {

  predicate SortedDesc<T>(s: seq<T>, key: T -> real) {
    forall i, j :: 0 <= i < j < |s| ==> key(s[i]) >= key(s[j])
  }

  /**
   * Inserts `x` before the first element whose key is not larger than its own, so that `x`,
   * which came earlier in the input, stays ahead of the elements with an equal key.
   */
  function Insert<T>(x: T, s: seq<T>, key: T -> real): (r: seq<T>)
    requires SortedDesc(s, key)
    ensures SortedDesc(r, key)
    ensures multiset(r) == multiset(s) + multiset{x}
    ensures |r| == |s| + 1
  {
    if s == [] then [x]
    else if key(s[0]) <= key(x) then [x] + s
    else
      var rest := Insert(x, s[1..], key);
      assert multiset(s) == multiset{s[0]} + multiset(s[1..]) by { assert s == [s[0]] + s[1..]; }
      HeadBoundsInsertion(s[0], s[1..], x, rest, key);
      [s[0]] + rest
  }

  /** A key that bounds the old elements and `x` bounds every element of the insertion result. */
  lemma HeadBoundsInsertion<T>(h: T, tail: seq<T>, x: T, rest: seq<T>, key: T -> real)
    requires forall k :: 0 <= k < |tail| ==> key(h) >= key(tail[k])
    requires key(h) >= key(x)
    requires multiset(rest) == multiset(tail) + multiset{x}
    ensures forall k :: 0 <= k < |rest| ==> key(h) >= key(rest[k])
  {
    forall k | 0 <= k < |rest| ensures key(h) >= key(rest[k]) {
      assert rest[k] in multiset(rest);
      if rest[k] != x {
        assert rest[k] in multiset(tail);
        var j :| 0 <= j < |tail| && tail[j] == rest[k];
      }
    }
  }

  function SortDesc<T>(s: seq<T>, key: T -> real): (r: seq<T>)
    ensures SortedDesc(r, key)
    ensures multiset(r) == multiset(s)
    ensures |r| == |s|
  {
    if s == [] then []
    else
      assert s == [s[0]] + s[1..];
      Insert(s[0], SortDesc(s[1..], key), key)
  }

  /** The elements of `s` whose key is `v`, in their order in `s`. */
  function WithKey<T>(s: seq<T>, key: T -> real, v: real): (r: seq<T>)
    ensures |r| <= |s|
    decreases |s|
  {
    if s == [] then [] else (if key(s[0]) == v then [s[0]] else []) + WithKey(s[1..], key, v)
  }

  /** `WithKey` of a list with a known first element. */
  lemma WithKeyCons<T>(h: T, s: seq<T>, key: T -> real, v: real)
    ensures WithKey([h] + s, key, v) == (if key(h) == v then [h] else []) + WithKey(s, key, v)
  {
    assert ([h] + s)[0] == h && ([h] + s)[1..] == s;
  }

  /** Inserting `x` puts it ahead of every element with its key and keeps their order. */
  lemma {:induction false} InsertWithKey<T>(x: T, t: seq<T>, key: T -> real, v: real)
    requires SortedDesc(t, key)
    ensures WithKey(Insert(x, t, key), key, v) == (if key(x) == v then [x] else []) + WithKey(t, key, v)
    decreases |t|
  {
    if t == [] || key(t[0]) <= key(x) {
      assert Insert(x, t, key) == [x] + t;
      WithKeyCons(x, t, key, v);
    } else {
      InsertPastHead(x, t, key, v);
    }
  }

  /** The case where `x` goes after the head of `t`, whose key is larger. */
  lemma {:induction false} InsertPastHead<T>(x: T, t: seq<T>, key: T -> real, v: real)
    requires SortedDesc(t, key) && t != [] && key(t[0]) > key(x)
    ensures WithKey(Insert(x, t, key), key, v) == (if key(x) == v then [x] else []) + WithKey(t, key, v)
    decreases |t|, 0
  {
    assert SortedDesc(t[1..], key);
    var rest := Insert(x, t[1..], key);
    var hx: seq<T> := if key(x) == v then [x] else [];
    var h0: seq<T> := if key(t[0]) == v then [t[0]] else [];
    calc {
      WithKey(Insert(x, t, key), key, v);
      { assert Insert(x, t, key) == [t[0]] + rest; }
      WithKey([t[0]] + rest, key, v);
      { WithKeyCons(t[0], rest, key, v); }
      h0 + WithKey(rest, key, v);
      { InsertWithKey(x, t[1..], key, v); }
      h0 + (hx + WithKey(t[1..], key, v));
      { assert h0 == [] || hx == []; }
      hx + (h0 + WithKey(t[1..], key, v));
      hx + WithKey(t, key, v);
    }
  }

  /**
   * The sort is stable: for every key, the elements with that key come out in the order they
   * went in.
   */
  lemma {:induction false} SortDescStable<T>(s: seq<T>, key: T -> real, v: real)
    ensures WithKey(SortDesc(s, key), key, v) == WithKey(s, key, v)
    decreases |s|
  {
    if s != [] {
      SortDescStable(s[1..], key, v);
      InsertWithKey(s[0], SortDesc(s[1..], key), key, v);
    }
  }

  /** Sorting a list that is already in order leaves it as it is. */
  lemma {:induction false} SortSortedIsIdentity<T>(s: seq<T>, key: T -> real)
    requires SortedDesc(s, key)
    ensures SortDesc(s, key) == s
  {
    if s != [] {
      assert SortedDesc(s[1..], key);
      SortSortedIsIdentity(s[1..], key);
    }
  }
}
