/** What the stores share: optional columns, and `SELECT ... WHERE p ORDER BY key LIMIT n`
    over a table kept as a sequence of rows. */
module Ordering {

  datatype Option<+T> = None | Some(value: T)

  /** An ORDER BY list, most significant column first; a DESC column is negated. */
  datatype Key = Key(k0: int, k1: int, k2: int, k3: int)

  predicate Less(a: Key, b: Key) {
    a.k0 < b.k0 || (a.k0 == b.k0 &&
    (a.k1 < b.k1 || (a.k1 == b.k1 &&
    (a.k2 < b.k2 || (a.k2 == b.k2 && a.k3 < b.k3)))))
  }

  ghost predicate DistinctKeys<T>(s: seq<T>, key: T -> Key) {
    forall i, j :: 0 <= i < j < |s| ==> key(s[i]) != key(s[j])
  }

  ghost predicate Ascending<T>(s: seq<T>, key: T -> Key) {
    forall i, j :: 0 <= i < j < |s| ==> Less(key(s[i]), key(s[j]))
  }

  function Insert<T(!new)>(x: T, s: seq<T>, key: T -> Key): (r: seq<T>)
    requires Ascending(s, key)
    requires forall y :: y in s ==> key(y) != key(x)
    ensures Ascending(r, key)
    ensures forall y :: y in r <==> y == x || y in s
  {
    if s == [] || Less(key(x), key(s[0])) then
      [x] + s
    else
      var rest := Insert(x, s[1..], key);
      assert s[0] in s;
      assert forall y :: y in s <==> y == s[0] || y in s[1..];
      assert forall i :: 0 <= i < |rest| ==> rest[i] in rest;
      assert forall y :: y in rest ==> Less(key(s[0]), key(y));
      [s[0]] + rest
  }

  /** The rows of `t` that satisfy `p`, in ascending key order. */
  function Select<T(!new)>(t: seq<T>, p: T -> bool, key: T -> Key): (r: seq<T>)
    requires DistinctKeys(t, key)
    ensures Ascending(r, key)
    ensures forall x :: x in r <==> x in t && p(x)
  {
    if t == [] then
      []
    else
      var rest := Select(t[1..], p, key);
      assert forall x :: x in t <==> x == t[0] || x in t[1..];
      if p(t[0]) then
        assert forall y :: y in rest ==> y in t[1..];
        Insert(t[0], rest, key)
      else
        rest
  }

  /** SQLite's LIMIT: a negative limit means no limit. */
  function Limit<T>(s: seq<T>, n: int): (r: seq<T>)
    ensures r <= s
    ensures |r| == if 0 <= n < |s| then n else |s|
  {
    if 0 <= n < |s| then s[..n] else s
  }

  /** An ascending sequence is determined by its elements. */
  lemma {:induction false} AscendingUnique<T(!new)>(a: seq<T>, b: seq<T>, key: T -> Key)
    requires Ascending(a, key) && Ascending(b, key)
    requires forall x :: x in a <==> x in b
    ensures a == b
    decreases |a|
  {
    assert forall i :: 0 <= i < |a| ==> a[i] in a;
    assert forall i :: 0 <= i < |b| ==> b[i] in b;
    if a != [] && b != [] {
      assert a[0] in b && b[0] in a;
      assert a[0] == b[0];
      forall x ensures x in a[1..] <==> x in b[1..] {
        if x in a[1..] { assert x in a && x != a[0]; }
        if x in b[1..] { assert x in b && x != b[0]; }
      }
      AscendingUnique(a[1..], b[1..], key);
      assert a == [a[0]] + a[1..] && b == [b[0]] + b[1..];
    }
  }

  /** An ascending part of an ascending sequence is a prefix of it if nothing smaller is left out. */
  lemma {:induction false} AscendingPrefix<T(!new)>(a: seq<T>, b: seq<T>, key: T -> Key)
    requires Ascending(a, key) && Ascending(b, key)
    requires forall x :: x in a ==> x in b
    requires forall x, y :: x in b && y in a && Less(key(x), key(y)) ==> x in a
    ensures a <= b
    decreases |a|
  {
    assert forall i :: 0 <= i < |a| ==> a[i] in a;
    assert forall i :: 0 <= i < |b| ==> b[i] in b;
    if a != [] {
      assert a[0] in b;
      assert b[0] == a[0];
      forall x | x in a[1..] ensures x in b[1..] {
        assert x in a && x != a[0];
      }
      forall x, y | x in b[1..] && y in a[1..] && Less(key(x), key(y)) ensures x in a[1..] {
        assert x in b && y in a && x != a[0];
      }
      AscendingPrefix(a[1..], b[1..], key);
      assert a == [a[0]] + a[1..] && b == [b[0]] + b[1..];
    }
  }

  function Before<T(!new)>(s: seq<T>, x: T, key: T -> Key): set<T> {
    set y | y in s && Less(key(y), key(x))
  }

  /** The rank of an element of an ascending sequence counts the smaller elements. */
  lemma {:induction false} Rank<T(!new)>(s: seq<T>, k: nat, key: T -> Key)
    requires Ascending(s, key) && k < |s|
    ensures |Before(s, s[k], key)| == k
    decreases k
  {
    if k == 0 {
      assert Before(s, s[0], key) == {};
    } else {
      Rank(s, k - 1, key);
      var y := s[k - 1];
      forall x | x in Before(s, s[k], key) ensures x in Before(s, y, key) + {y} {
        var i :| 0 <= i < |s| && s[i] == x;
        assert i < k;
      }
      forall x | x in Before(s, y, key) + {y} ensures x in Before(s, s[k], key) {
        var i :| 0 <= i < |s| && s[i] == x;
        assert i < k;
      }
      assert Before(s, s[k], key) == Before(s, y, key) + {y};
    }
  }

  /** An element of an ascending sequence is among the first `n` exactly when fewer than `n` elements
      are smaller. */
  lemma WithinLimitIff<T(!new)>(s: seq<T>, x: T, n: int, key: T -> Key)
    requires Ascending(s, key) && x in s
    ensures x in Limit(s, n) <==> n < 0 || |Before(s, x, key)| < n
  {
    var k :| 0 <= k < |s| && s[k] == x;
    Rank(s, k, key);
    var some := Limit(s, n);
    if x in some {
      var i :| 0 <= i < |some| && some[i] == x;
      assert s[i] == x;
      assert i == k;
    }
    if k < |some| {
      assert some[k] == x;
    }
  }
}
