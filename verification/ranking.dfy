/** A stable sort in descending order of a numeric key, as Python's `list.sort(key=..., reverse=True)`
    and JavaScript's `Array.prototype.sort((a, b) => key(b) - key(a))` both perform it: larger keys
    first, and elements with equal keys keep their input order. */
module Ranking {

  /** The elements of `s` whose key is `m`, in their order in `s`. */
  function WithKey<T>(s: seq<T>, key: T -> real, m: real): seq<T> {
    if s == [] then []
    else (if key(s[0]) == m then [s[0]] else []) + WithKey(s[1..], key, m)
  }

  predicate SortedDesc<T>(s: seq<T>, key: T -> real) {
    forall i, j :: 0 <= i < j < |s| ==> key(s[i]) >= key(s[j])
  }

  /** Places `x` before the first element whose key is not larger than its own. */
  function Insert<T>(x: T, s: seq<T>, key: T -> real): seq<T> {
    if s == [] then [x]
    else if key(s[0]) > key(x) then [s[0]] + Insert(x, s[1..], key)
    else [x] + s
  }

  /** Insertion sort from the back: each element is inserted ahead of the equal keys that
      follow it in the input, which is what keeps the sort stable. */
  function SortDesc<T>(s: seq<T>, key: T -> real): seq<T> {
    if s == [] then [] else Insert(s[0], SortDesc(s[1..], key), key)
  }

  /** `s[:n]` / `s.slice(0, n)`. */
  function Take<T>(s: seq<T>, n: nat): (r: seq<T>)
    ensures |r| == if n < |s| then n else |s|
    ensures forall i :: 0 <= i < |r| ==> r[i] == s[i]
  {
    if n < |s| then s[..n] else s
  }

  lemma {:induction false} InsertSorted<T>(x: T, s: seq<T>, key: T -> real)
    requires SortedDesc(s, key)
    ensures SortedDesc(Insert(x, s, key), key)
    ensures |Insert(x, s, key)| == |s| + 1
    ensures forall i :: 0 <= i < |Insert(x, s, key)| ==>
              key(Insert(x, s, key)[i]) <= key(x) || (s != [] && key(Insert(x, s, key)[i]) <= key(s[0]))
  {
    if s != [] && key(s[0]) > key(x) {
      InsertSorted(x, s[1..], key);
    }
  }

  lemma {:induction false} InsertMultiset<T>(x: T, s: seq<T>, key: T -> real)
    ensures multiset(Insert(x, s, key)) == multiset([x] + s)
  {
    if s != [] && key(s[0]) > key(x) {
      InsertMultiset(x, s[1..], key);
      assert s == [s[0]] + s[1..];
    }
  }

  /** Inserting `x` moves it only past elements with larger keys, so among the elements
      with any one key, the order is that of `[x] + s`. */
  lemma {:induction false} InsertWithKey<T>(x: T, s: seq<T>, key: T -> real, m: real)
    ensures WithKey(Insert(x, s, key), key, m) == WithKey([x] + s, key, m)
  {
    if s != [] && key(s[0]) > key(x) {
      var t := Insert(x, s[1..], key);
      var p0 := if key(s[0]) == m then [s[0]] else [];
      var px := if key(x) == m then [x] else [];
      assert p0 == [] || px == [];
      calc {
        WithKey(Insert(x, s, key), key, m);
        { WithKeyCons(s[0], t, key, m); }
        p0 + WithKey(t, key, m);
        { InsertWithKey(x, s[1..], key, m); WithKeyCons(x, s[1..], key, m); }
        p0 + (px + WithKey(s[1..], key, m));
        px + (p0 + WithKey(s[1..], key, m));
        { WithKeyCons(s[0], s[1..], key, m); assert [s[0]] + s[1..] == s; }
        px + WithKey(s, key, m);
        { WithKeyCons(x, s, key, m); }
        WithKey([x] + s, key, m);
      }
    }
  }

  lemma WithKeyCons<T>(y: T, t: seq<T>, key: T -> real, m: real)
    ensures WithKey([y] + t, key, m) == (if key(y) == m then [y] else []) + WithKey(t, key, m)
  {
    assert ([y] + t)[1..] == t;
  }

  /** The sort orders by key, descending, and is stable: for every key value, the elements
      with that key appear in the output exactly as they appear in the input. Together these
      also make the output a permutation of the input. */
  lemma {:induction false} SortDescCorrect<T>(s: seq<T>, key: T -> real)
    ensures SortedDesc(SortDesc(s, key), key)
    ensures |SortDesc(s, key)| == |s|
    ensures multiset(SortDesc(s, key)) == multiset(s)
    ensures forall m :: WithKey(SortDesc(s, key), key, m) == WithKey(s, key, m)
  {
    if s != [] {
      var t := SortDesc(s[1..], key);
      SortDescCorrect(s[1..], key);
      InsertSorted(s[0], t, key);
      InsertMultiset(s[0], t, key);
      assert s == [s[0]] + s[1..];
      forall m ensures WithKey(SortDesc(s, key), key, m) == WithKey(s, key, m) {
        InsertWithKey(s[0], t, key, m);
        assert ([s[0]] + t)[1..] == t;
      }
    }
  }

  /** Two sequences that are both sorted by key and agree on the elements of every key are
      equal: the two properties of `SortDescCorrect` leave no freedom in the result. */
  lemma {:induction false} SortedUnique<T>(a: seq<T>, b: seq<T>, key: T -> real)
    requires SortedDesc(a, key) && SortedDesc(b, key)
    requires forall m :: WithKey(a, key, m) == WithKey(b, key, m)
    ensures a == b
    decreases |a| + |b|
  {
    if a == [] || b == [] {
      if a != [] {
        HeadKeyPresent(a, key);
        assert false;
      } else if b != [] {
        HeadKeyPresent(b, key);
        assert false;
      }
      return;
    }
    // The head of each is the first element with the largest key of the other.
    var ka, kb := key(a[0]), key(b[0]);
    MaxHead(a, key);
    MaxHead(b, key);
    WithKeyHasAll(b, key, ka);
    WithKeyHasAll(a, key, kb);
    assert ka == kb;
    assert WithKey(a, key, ka)[0] == a[0];
    assert WithKey(b, key, kb)[0] == b[0];
    assert a[0] == b[0];
    forall m ensures WithKey(a[1..], key, m) == WithKey(b[1..], key, m) {
      var p := if key(a[0]) == m then [a[0]] else [];
      assert WithKey(a, key, m) == p + WithKey(a[1..], key, m);
      assert WithKey(b, key, m) == p + WithKey(b[1..], key, m);
      assert (p + WithKey(a[1..], key, m))[|p|..] == WithKey(a[1..], key, m);
      assert (p + WithKey(b[1..], key, m))[|p|..] == WithKey(b[1..], key, m);
    }
    SortedUnique(a[1..], b[1..], key);
    assert a == [a[0]] + a[1..] && b == [b[0]] + b[1..];
  }

  lemma HeadKeyPresent<T>(s: seq<T>, key: T -> real)
    requires s != []
    ensures WithKey(s, key, key(s[0])) != []
  {
  }

  lemma MaxHead<T>(s: seq<T>, key: T -> real)
    requires s != [] && SortedDesc(s, key)
    ensures forall i :: 0 <= i < |s| ==> key(s[i]) <= key(s[0])
    ensures WithKey(s, key, key(s[0])) != [] && WithKey(s, key, key(s[0]))[0] == s[0]
  {
  }

  /** An element of `s` with key `m` makes `WithKey(s, key, m)` non-empty; every element of
      `WithKey(s, key, m)` is in `s`. */
  lemma {:induction false} WithKeyHasAll<T>(s: seq<T>, key: T -> real, m: real)
    ensures forall y :: y in WithKey(s, key, m) <==> y in s && key(y) == m
  {
    if s != [] {
      WithKeyHasAll(s[1..], key, m);
      assert s == [s[0]] + s[1..];
    }
  }
}
