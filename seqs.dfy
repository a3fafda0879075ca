/** Sequence facts shared by the row filters: the "skip the record or append one row"
    loop of every normaliser is a filter-map, and the tables' totals are sums. */
module Seqs {
  import opened Values

  /** The one-row-or-nothing contribution of a record. */
  function Kept<U>(o: Option<U>): (r: seq<U>)
    ensures |r| <= 1
    ensures o.Some? ==> r == [o.value]
    ensures o.None? ==> r == []
  {
    if o.Some? then [o.value] else []
  }

  /** The rows a loop appends when it visits `s` in order and appends `f(x).value`
      for every `x` with `f(x)` present. Defined on the last element, as the loop grows. */
  function FilterMap<T, U>(s: seq<T>, f: T -> Option<U>): (r: seq<U>)
    ensures |r| <= |s|
  {
    if s == [] then [] else FilterMap(s[..|s| - 1], f) + Kept(f(s[|s| - 1]))
  }

  lemma FilterMapSnoc<T, U>(s: seq<T>, x: T, f: T -> Option<U>)
    ensures FilterMap(s + [x], f) == FilterMap(s, f) + Kept(f(x))
  {
    assert (s + [x])[..|s|] == s;
  }

  /** A row is in the output exactly when some record of the input produced it. */
  lemma {:induction false} FilterMapMember<T, U>(s: seq<T>, f: T -> Option<U>, u: U)
    ensures u in FilterMap(s, f) <==> exists i :: 0 <= i < |s| && f(s[i]) == Some(u)
  {
    if s != [] {
      var init := s[..|s| - 1];
      FilterMapMember(init, f, u);
      assert forall i :: 0 <= i < |init| ==> init[i] == s[i];
      if u in FilterMap(s, f) && u !in FilterMap(init, f) {
        assert f(s[|s| - 1]) == Some(u);
      }
    }
  }

  /** Every output row is the image of some input record. */
  lemma FilterMapImage<T, U>(s: seq<T>, f: T -> Option<U>, k: nat)
    requires k < |FilterMap(s, f)|
    ensures exists i :: 0 <= i < |s| && f(s[i]) == Some(FilterMap(s, f)[k])
  {
    FilterMapMember(s, f, FilterMap(s, f)[k]);
  }

  /** Filtering two sequences whose elements give the same result gives the same rows. */
  lemma {:induction false} FilterMapPointwise<T, S, U>(s: seq<T>, f: T -> Option<U>, t: seq<S>, g: S -> Option<U>)
    requires |s| == |t|
    requires forall k :: 0 <= k < |s| ==> f(s[k]) == g(t[k])
    ensures FilterMap(s, f) == FilterMap(t, g)
  {
    if s != [] {
      FilterMapPointwise(s[..|s| - 1], f, t[..|t| - 1], g);
    }
  }

  /** `sum(val(x) for x in s)`. */
  function Sum<T>(s: seq<T>, val: T -> real): real {
    if s == [] then 0.0 else Sum(s[..|s| - 1], val) + val(s[|s| - 1])
  }

  lemma {:induction false} SumAppend<T>(a: seq<T>, b: seq<T>, val: T -> real)
    ensures Sum(a + b, val) == Sum(a, val) + Sum(b, val)
  {
    if b == [] {
      assert a + b == a;
    } else {
      var b' := b[..|b| - 1];
      assert (a + b)[..|a + b| - 1] == a + b';
      SumAppend(a, b', val);
    }
  }

  /** Taking one term out of a sum. */
  lemma {:induction false} SumRemove<T>(b: seq<T>, j: nat, val: T -> real)
    requires j < |b|
    ensures Sum(b, val) == Sum(b[..j] + b[j + 1..], val) + val(b[j])
  {
    var pre, y, post := b[..j], b[j], b[j + 1..];
    assert b == pre + ([y] + post);
    SumAppend(pre, [y] + post, val);
    SumAppend([y], post, val);
    SumAppend(pre, post, val);
    assert Sum([y], val) == val(y) by {
      assert [y][..0] == [];
    }
  }

  /** Taking one element out of a sequence takes it out of the multiset. */
  lemma {:induction false} MultisetRemove<T>(b: seq<T>, j: nat)
    requires j < |b|
    ensures multiset(b[..j] + b[j + 1..]) == multiset(b) - multiset{b[j]}
  {
    assert b == b[..j] + [b[j]] + b[j + 1..];
  }

  /** A sum does not depend on the order of its terms. */
  lemma {:induction false} SumPermutation<T>(a: seq<T>, b: seq<T>, val: T -> real)
    requires multiset(a) == multiset(b)
    ensures Sum(a, val) == Sum(b, val)
    decreases |a|
  {
    if a != [] {
      var x := a[|a| - 1];
      var a' := a[..|a| - 1];
      assert a == a' + [x];
      assert x in multiset(b);
      var j :| 0 <= j < |b| && b[j] == x;
      MultisetRemove(b, j);
      MultisetRemove(a, |a| - 1);
      SumPermutation(a', b[..j] + b[j + 1..], val);
      SumRemove(b, j, val);
    } else {
      assert b == [];
    }
  }

  /** What holds of every element still holds after the elements are rearranged or some of
      them dropped. */
  lemma {:induction false} AllSurvive<T>(a: seq<T>, b: seq<T>, P: T -> bool)
    requires multiset(b) <= multiset(a)
    requires forall i :: 0 <= i < |a| ==> P(a[i])
    ensures forall k :: 0 <= k < |b| ==> P(b[k])
  {
    forall k | 0 <= k < |b| ensures P(b[k]) {
      assert b[k] in multiset(b);
      assert b[k] in multiset(a);
      var i :| 0 <= i < |a| && a[i] == b[k];
    }
  }

  /** Replacing one term of a sum. */
  lemma SumUpdate<T>(s: seq<T>, i: nat, y: T, val: T -> real)
    requires i < |s|
    ensures Sum(s[i := y], val) == Sum(s, val) - val(s[i]) + val(y)
  {
    SumRemove(s, i, val);
    SumRemove(s[i := y], i, val);
    assert s[i := y][..i] + s[i := y][i + 1..] == s[..i] + s[i + 1..];
  }

  /** No two elements share a key. */
  predicate DistinctKeys<T, K(==)>(s: seq<T>, key: T -> K) {
    forall i, j :: 0 <= i < j < |s| ==> key(s[i]) != key(s[j])
  }

  /** An element at two positions occurs at least twice. */
  lemma TwiceCounted<T>(s: seq<T>, i: nat, j: nat)
    requires i < j < |s| && s[i] == s[j]
    ensures multiset(s)[s[i]] >= 2
  {
    assert s == s[..j] + s[j..];
    assert s[i] == s[..j][i];
    assert s[j] == s[j..][0];
  }

  /** An element that occurs at least twice sits at two positions. */
  lemma TwoPositions<T>(s: seq<T>, x: T) returns (i: nat, j: nat)
    requires multiset(s)[x] >= 2
    ensures i < j < |s| && s[i] == x && s[j] == x
  {
    assert x in multiset(s);
    var m :| 0 <= m < |s| && s[m] == x;
    assert s == s[..m] + [x] + s[m + 1..];
    if x in multiset(s[..m]) {
      var k :| 0 <= k < m && s[..m][k] == x;
      i, j := k, m;
    } else {
      assert x in multiset(s[m + 1..]);
      var k :| 0 <= k < |s[m + 1..]| && s[m + 1..][k] == x;
      i, j := m, m + 1 + k;
    }
  }

  /** Distinct keys stay distinct when elements are rearranged or dropped. */
  lemma DistinctSurvive<T, K>(a: seq<T>, b: seq<T>, key: T -> K)
    requires multiset(b) <= multiset(a)
    requires DistinctKeys(a, key)
    ensures DistinctKeys(b, key)
  {
    forall i, j | 0 <= i < j < |b| ensures key(b[i]) != key(b[j]) {
      if key(b[i]) == key(b[j]) {
        assert b[i] in multiset(a) && b[j] in multiset(a);
        var m :| 0 <= m < |a| && a[m] == b[i];
        var n :| 0 <= n < |a| && a[n] == b[j];
        assert m == n;
        TwiceCounted(b, i, j);
        var u, v := TwoPositions(a, b[i]);
        assert false;
      }
    }
  }
}
