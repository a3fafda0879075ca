/** `DataFrame.sort_values(key, ascending=...)` and `DataFrame.head(n)`.
    pandas' default sort is not stable, so the members that model the source promise only
    what any such sort promises: the rows come out ordered by the key and are a permutation
    of the rows that went in. The insertion sort below is one sort with those properties. */
module Sorting {
  import opened Values

  predicate InOrder(a: real, b: real, descending: bool) {
    if descending then a >= b else a <= b
  }

  /** No row comes before a row whose key must precede it. */
  predicate Ordered<T>(s: seq<T>, key: T -> real, descending: bool) {
    forall i, j :: 0 <= i < j < |s| ==> InOrder(key(s[i]), key(s[j]), descending)
  }

  /** A row that may precede every row of an ordered sequence may go in front of it. */
  lemma ConsOrdered<T>(h: T, t: seq<T>, key: T -> real, descending: bool)
    requires Ordered(t, key, descending)
    requires forall k :: 0 <= k < |t| ==> InOrder(key(h), key(t[k]), descending)
    ensures Ordered([h] + t, key, descending)
  {
    var r := [h] + t;
    forall i, j | 0 <= i < j < |r| ensures InOrder(key(r[i]), key(r[j]), descending) {
      assert r[j] == t[j - 1];
      if i > 0 {
        assert r[i] == t[i - 1];
      }
    }
  }

  /** A row that may precede the first row of an ordered sequence may precede them all. */
  lemma PrecedesFirst<T>(x: T, s: seq<T>, key: T -> real, descending: bool)
    requires Ordered(s, key, descending)
    requires s == [] || InOrder(key(x), key(s[0]), descending)
    ensures forall k :: 0 <= k < |s| ==> InOrder(key(x), key(s[k]), descending)
  {
    forall k | 0 < k < |s| ensures InOrder(key(x), key(s[k]), descending) {
      assert InOrder(key(s[0]), key(s[k]), descending);
    }
  }

  /** Every row of a permutation of `s[1..]` plus one row `x` that `s[0]` may precede may
      follow `s[0]`. */
  lemma FirstPrecedes<T>(x: T, s: seq<T>, rest: seq<T>, key: T -> real, descending: bool)
    requires Ordered(s, key, descending) && |s| > 0
    requires InOrder(key(s[0]), key(x), descending)
    requires multiset(rest) == multiset(s[1..]) + multiset{x}
    ensures forall k :: 0 <= k < |rest| ==> InOrder(key(s[0]), key(rest[k]), descending)
  {
    forall k | 0 <= k < |rest|
      ensures InOrder(key(s[0]), key(rest[k]), descending)
    {
      assert rest[k] in multiset(rest);
      if rest[k] != x {
        assert rest[k] in multiset(s[1..]);
        var m :| 0 <= m < |s[1..]| && s[1..][m] == rest[k];
        assert s[m + 1] == rest[k];
      }
    }
  }

  function Insert<T(==)>(x: T, s: seq<T>, key: T -> real, descending: bool): (r: seq<T>)
    requires Ordered(s, key, descending)
    ensures Ordered(r, key, descending)
    ensures multiset(r) == multiset(s) + multiset{x}
  {
    if s == [] || InOrder(key(x), key(s[0]), descending) then
      PrecedesFirst(x, s, key, descending);
      ConsOrdered(x, s, key, descending);
      [x] + s
    else
      var rest := Insert(x, s[1..], key, descending);
      assert s == [s[0]] + s[1..];
      FirstPrecedes(x, s, rest, key, descending);
      ConsOrdered(s[0], rest, key, descending);
      [s[0]] + rest
  }

  /** `sort_values`: an ordered permutation of the input. */
  function Sort<T(==)>(s: seq<T>, key: T -> real, descending: bool): (r: seq<T>)
    ensures Ordered(r, key, descending)
    ensures multiset(r) == multiset(s)
    ensures |r| == |s|
  {
    if s == [] then []
    else
      assert s == [s[0]] + s[1..];
      Insert(s[0], Sort(s[1..], key, descending), key, descending)
  }

  /** `head(n)`: the first n rows; a negative n drops the last -n rows instead. */
  function Head<T>(s: seq<T>, n: int): (r: seq<T>)
    ensures n >= 0 ==> |r| == Min(n, |s|)
    ensures n < 0 ==> |r| == Max(0, |s| + n)
    ensures r == s[..|r|]
  {
    if n >= 0 then (if n < |s| then s[..n] else s)
    else if |s| + n > 0 then s[..|s| + n] else []
  }

  /** In a descending order, a row past position m keys no higher than any row before it. */
  lemma BelowPrefix<T>(u: seq<T>, key: T -> real, m: nat, x: T)
    requires Ordered(u, key, true) && m <= |u|
    requires x in multiset(u[m..])
    ensures forall k :: 0 <= k < m ==> key(x) <= key(u[k])
  {
    var rest := u[m..];
    var j :| 0 <= j < |rest| && rest[j] == x;
    assert u[m + j] == x;
  }

  /** A prefix of a descending order holds its highest-keyed rows. */
  lemma PrefixIsTop<T>(u: seq<T>, key: T -> real, m: nat)
    requires Ordered(u, key, true) && m <= |u|
    ensures Ordered(u[..m], key, true)
    ensures multiset(u[..m]) <= multiset(u)
    ensures forall x :: multiset(u)[x] > multiset(u[..m])[x] ==>
              forall k :: 0 <= k < m ==> key(x) <= key(u[..m][k])
  {
    var t := u[..m];
    var rest := u[m..];
    assert u == t + rest;
    assert multiset(u) == multiset(t) + multiset(rest);
    forall x | multiset(u)[x] > multiset(t)[x]
      ensures forall k :: 0 <= k < m ==> key(x) <= key(t[k])
    {
      assert x in multiset(rest);
      BelowPrefix(u, key, m, x);
    }
  }

  /** The rows a descending sort followed by `head(n)` keeps are the highest-keyed rows of
      the input: a sub-multiset of it, in order, and no row left out has a higher key than a
      row kept. */
  lemma {:induction false} TopRows<T>(s: seq<T>, key: T -> real, n: int)
    ensures var t := Head(Sort(s, key, true), n);
      && Ordered(t, key, true)
      && multiset(t) <= multiset(s)
      && forall x :: multiset(s)[x] > multiset(t)[x] ==>
           forall k :: 0 <= k < |t| ==> key(x) <= key(t[k])
  {
    var u := Sort(s, key, true);
    var t := Head(u, n);
    PrefixIsTop(u, key, |t|);
    assert t == u[..|t|];
  }

  /** `sort_values(key, ascending=False).head(n)`: the rows with the highest keys, highest
      first, as many as `head(n)` keeps. */
  function Top<T(==,!new)>(s: seq<T>, key: T -> real, n: int): (t: seq<T>)
    ensures |t| == (if n >= 0 then Min(n, |s|) else Max(0, |s| + n))
    ensures Ordered(t, key, true)
    ensures multiset(t) <= multiset(s)
    ensures forall x :: multiset(s)[x] > multiset(t)[x] ==>
              forall k :: 0 <= k < |t| ==> key(x) <= key(t[k])
  {
    TopRows(s, key, n);
    Head(Sort(s, key, true), n)
  }
}
