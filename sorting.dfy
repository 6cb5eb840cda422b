/** The two orders the queries ask MongoDB for: `.sort({ createdAt: -1 })`
    (newest first, on a numeric key) and `.sort({ name: 1 })` (ascending
    string order, which for MongoDB's default collation is code-point
    lexicographic order). Both are insertion sorts proved to return a sorted
    permutation of their input. */
module Sorting {

  predicate SortedDesc<T>(s: seq<T>, key: T -> int) {
    forall i, j :: 0 <= i < j < |s| ==> key(s[i]) >= key(s[j])
  }

  lemma HeadBoundsDesc<T>(s: seq<T>, key: T -> int)
    requires SortedDesc(s, key)
    ensures s != [] ==> forall y :: y in multiset(s[1..]) ==> key(y) <= key(s[0])
  {
    forall y | s != [] && y in multiset(s[1..]) ensures key(y) <= key(s[0]) {
      var k :| 0 <= k < |s[1..]| && s[1..][k] == y;
      assert s[k + 1] == y;
    }
  }

  /** A sorted sequence stays sorted when an element no smaller than all of
      it is put in front. */
  lemma PrependDesc<T>(x: T, s: seq<T>, key: T -> int)
    requires SortedDesc(s, key)
    requires forall y :: y in multiset(s) ==> key(y) <= key(x)
    ensures SortedDesc([x] + s, key)
  {
    forall i, j | 0 <= i < j < |[x] + s| ensures key(([x] + s)[i]) >= key(([x] + s)[j]) {
      if i == 0 {
        assert ([x] + s)[j] == s[j - 1];
        assert s[j - 1] in multiset(s);
      }
    }
  }

  /** Keeping the head of a sorted `s` in front of a sorted insertion into
      its tail yields a sorted sequence of the same elements. */
  lemma InsertDescBehind<T>(x: T, s: seq<T>, rest: seq<T>, key: T -> int)
    requires SortedDesc(s, key) && s != [] && key(x) < key(s[0])
    requires SortedDesc(rest, key) && multiset(rest) == multiset(s[1..]) + multiset{x}
    ensures SortedDesc([s[0]] + rest, key)
    ensures multiset([s[0]] + rest) == multiset(s) + multiset{x}
  {
    HeadBoundsDesc(s, key);
    forall y | y in multiset(rest) ensures key(y) <= key(s[0]) {
      assert y == x || y in multiset(s[1..]);
    }
    PrependDesc(s[0], rest, key);
    assert s == [s[0]] + s[1..];
  }

  function InsertDesc<T>(x: T, s: seq<T>, key: T -> int): (r: seq<T>)
    requires SortedDesc(s, key)
    ensures SortedDesc(r, key)
    ensures multiset(r) == multiset(s) + multiset{x}
  {
    if s == [] || key(x) >= key(s[0]) then
      HeadBoundsDesc(s, key);
      PrependDesc(x, s, key);
      [x] + s
    else
      var rest := InsertDesc(x, s[1..], key);
      InsertDescBehind(x, s, rest, key);
      [s[0]] + rest
  }

  /** Newest-first order on `key`; the result holds exactly the input, each
      element as many times as it occurred. */
  function SortDesc<T>(s: seq<T>, key: T -> int): (r: seq<T>)
    ensures SortedDesc(r, key)
    ensures multiset(r) == multiset(s)
  {
    if s == [] then []
    else
      assert s == [s[0]] + s[1..];
      InsertDesc(s[0], SortDesc(s[1..], key), key)
  }

  /** Lexicographic order on strings by character code. */
  predicate StrLe(a: string, b: string) {
    |a| == 0 || (|b| > 0 && (a[0] < b[0] || (a[0] == b[0] && StrLe(a[1..], b[1..]))))
  }

  lemma {:induction false} StrLeTotal(a: string, b: string)
    ensures StrLe(a, b) || StrLe(b, a)
  {
    if |a| > 0 && |b| > 0 && a[0] == b[0] {
      StrLeTotal(a[1..], b[1..]);
    }
  }

  lemma {:induction false} StrLeTransitive(a: string, b: string, c: string)
    requires StrLe(a, b) && StrLe(b, c)
    ensures StrLe(a, c)
  {
    if |a| > 0 && a[0] == b[0] && b[0] == c[0] {
      StrLeTransitive(a[1..], b[1..], c[1..]);
    }
  }

  lemma {:induction false} StrLeAntisymmetric(a: string, b: string)
    requires StrLe(a, b) && StrLe(b, a)
    ensures a == b
  {
    if |a| > 0 {
      StrLeAntisymmetric(a[1..], b[1..]);
      assert a == [a[0]] + a[1..] && b == [b[0]] + b[1..];
    }
  }

  predicate SortedAsc<T>(s: seq<T>, key: T -> string) {
    forall i, j :: 0 <= i < j < |s| ==> StrLe(key(s[i]), key(s[j]))
  }

  lemma HeadBoundsAsc<T>(s: seq<T>, key: T -> string)
    requires SortedAsc(s, key)
    ensures s != [] ==> forall y :: y in multiset(s[1..]) ==> StrLe(key(s[0]), key(y))
  {
    forall y | s != [] && y in multiset(s[1..]) ensures StrLe(key(s[0]), key(y)) {
      var k :| 0 <= k < |s[1..]| && s[1..][k] == y;
      assert s[k + 1] == y;
    }
  }

  lemma PrependAsc<T>(x: T, s: seq<T>, key: T -> string)
    requires SortedAsc(s, key)
    requires forall y :: y in multiset(s) ==> StrLe(key(x), key(y))
    ensures SortedAsc([x] + s, key)
  {
    forall i, j | 0 <= i < j < |[x] + s| ensures StrLe(key(([x] + s)[i]), key(([x] + s)[j])) {
      if i == 0 {
        assert ([x] + s)[j] == s[j - 1];
        assert s[j - 1] in multiset(s);
      }
    }
  }

  lemma LowerBoundAsc<T>(x: T, s: seq<T>, key: T -> string)
    requires s != [] ==> StrLe(key(x), key(s[0]))
    requires s != [] ==> forall y :: y in multiset(s[1..]) ==> StrLe(key(s[0]), key(y))
    ensures forall y :: y in multiset(s) ==> StrLe(key(x), key(y))
  {
    forall y | y in multiset(s) ensures StrLe(key(x), key(y)) {
      assert s == [s[0]] + s[1..];
      if y != s[0] {
        assert y in multiset(s[1..]);
        StrLeTransitive(key(x), key(s[0]), key(y));
      }
    }
  }

  lemma InsertAscBehind<T>(x: T, s: seq<T>, rest: seq<T>, key: T -> string)
    requires SortedAsc(s, key) && s != [] && !StrLe(key(x), key(s[0]))
    requires SortedAsc(rest, key) && multiset(rest) == multiset(s[1..]) + multiset{x}
    ensures SortedAsc([s[0]] + rest, key)
    ensures multiset([s[0]] + rest) == multiset(s) + multiset{x}
  {
    HeadBoundsAsc(s, key);
    StrLeTotal(key(x), key(s[0]));
    forall y | y in multiset(rest) ensures StrLe(key(s[0]), key(y)) {
      assert y == x || y in multiset(s[1..]);
    }
    PrependAsc(s[0], rest, key);
    assert s == [s[0]] + s[1..];
  }

  function InsertAsc<T>(x: T, s: seq<T>, key: T -> string): (r: seq<T>)
    requires SortedAsc(s, key)
    ensures SortedAsc(r, key)
    ensures multiset(r) == multiset(s) + multiset{x}
  {
    if s == [] || StrLe(key(x), key(s[0])) then
      HeadBoundsAsc(s, key);
      LowerBoundAsc(x, s, key);
      PrependAsc(x, s, key);
      [x] + s
    else
      var rest := InsertAsc(x, s[1..], key);
      InsertAscBehind(x, s, rest, key);
      [s[0]] + rest
  }

  /** Ascending order on the string `key`; a permutation of the input. */
  function SortAsc<T>(s: seq<T>, key: T -> string): (r: seq<T>)
    ensures SortedAsc(r, key)
    ensures multiset(r) == multiset(s)
  {
    if s == [] then []
    else
      assert s == [s[0]] + s[1..];
      InsertAsc(s[0], SortAsc(s[1..], key), key)
  }

  predicate IsMin(s: set<nat>, m: nat) {
    m in s && forall x :: x in s ==> m <= x
  }

  /** Every non-empty finite set of naturals has a least element. */
  lemma {:induction false} MinExists(s: set<nat>)
    requires s != {}
    ensures exists m :: IsMin(s, m)
    decreases |s|
  {
    var y :| y in s;
    var below := set x | x in s && x < y;
    if below == {} {
      forall x | x in s ensures y <= x {
        assert x < y ==> x in below;
      }
      assert IsMin(s, y);
    } else {
      assert below <= s - {y};
      SubsetCardinality(below, s - {y});
      MinExists(below);
      var m :| IsMin(below, m);
      forall x | x in s ensures m <= x {
        assert x < y ==> x in below;
      }
      assert IsMin(s, m);
    }
  }

  lemma SubsetCardinality(a: set<nat>, b: set<nat>)
    requires a <= b
    ensures |a| <= |b|
  {
    assert b == a + (b - a);
  }

  function MinOf(s: set<nat>): (m: nat)
    requires s != {}
    ensures m in s && forall x :: x in s ==> m <= x
  {
    MinExists(s);
    var m :| IsMin(s, m);
    m
  }

  /** Putting the least element in front of the increasing enumeration of
      the others enumerates the whole set in increasing order. */
  lemma SortedKeysStep(s: set<nat>, m: nat, rest: seq<nat>)
    requires m in s && forall x :: x in s ==> m <= x
    requires |rest| == |s - {m}|
    requires forall k :: k in rest <==> k in s - {m}
    requires forall i, j :: 0 <= i < j < |rest| ==> rest[i] < rest[j]
    ensures |[m] + rest| == |s|
    ensures forall k :: k in [m] + rest <==> k in s
    ensures forall i, j :: 0 <= i < j < |[m] + rest| ==> ([m] + rest)[i] < ([m] + rest)[j]
  {
    assert s == (s - {m}) + {m};
    forall i, j | 0 <= i < j < |[m] + rest| ensures ([m] + rest)[i] < ([m] + rest)[j] {
      if i == 0 {
        assert ([m] + rest)[j] == rest[j - 1] && rest[j - 1] in rest;
      }
    }
  }

  /** The elements of a finite set of identities in increasing order: the
      order in which a collection keyed by identity is enumerated before any
      explicit sort is applied. */
  function SortedKeys(s: set<nat>): (r: seq<nat>)
    ensures |r| == |s|
    ensures forall k :: k in r <==> k in s
    ensures forall i, j :: 0 <= i < j < |r| ==> r[i] < r[j]
    decreases |s|
  {
    if s == {} then []
    else
      var m := MinOf(s);
      var rest := SortedKeys(s - {m});
      SortedKeysStep(s, m, rest);
      [m] + rest
  }

  /** The values stored under the given keys, in the keys' order. */
  function Lookup<V>(m: map<nat, V>, ks: seq<nat>): (r: seq<V>)
    requires forall k :: k in ks ==> k in m
    ensures |r| == |ks|
    ensures forall i :: 0 <= i < |ks| ==> r[i] == m[ks[i]]
  {
    if ks == [] then [] else [m[ks[0]]] + Lookup(m, ks[1..])
  }

  /** A value is looked up exactly when one of the keys maps to it. */
  lemma LookupMembers<V>(m: map<nat, V>, ks: seq<nat>, v: V)
    requires forall k :: k in ks ==> k in m
    ensures v in Lookup(m, ks) <==> exists k :: k in ks && m[k] == v
  {
    var r := Lookup(m, ks);
    if v in r {
      var i :| 0 <= i < |r| && r[i] == v;
      assert ks[i] in ks && m[ks[i]] == v;
    }
    if exists k :: k in ks && m[k] == v {
      var k :| k in ks && m[k] == v;
      var i :| 0 <= i < |ks| && ks[i] == k;
      assert r[i] == v;
    }
  }
}
