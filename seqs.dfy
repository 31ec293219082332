/** Sequence functions shared by the ledger, the partitioned aggregations and the
    dump codecs: first-match search, filtering, flattening and summing. */
module Seqs {
  import opened Types

  /** Index of the first element satisfying p: the shape of every linear search
      loop of the service (FindAccountByID, FindPaymentByID, FindFavoriteByID). */
  function FirstWhere<T>(s: seq<T>, p: T -> bool): (r: Option<nat>)
    ensures r.Some? ==> r.value < |s| && p(s[r.value])
    ensures r.Some? ==> forall j :: 0 <= j < r.value ==> !p(s[j])
    ensures r.None? <==> forall j :: 0 <= j < |s| ==> !p(s[j])
  {
    if s == [] then None
    else if p(s[0]) then Some(0)
    else match FirstWhere(s[1..], p)
      case None => None
      case Some(k) => Some(k + 1)
  }

  /** A search over a longer sequence finds the same element when it already
      matches in the prefix, and the appended element when nothing before it does. */
  lemma FirstWhereAppend<T>(s: seq<T>, x: T, p: T -> bool)
    ensures FirstWhere(s, p).Some? ==> FirstWhere(s + [x], p) == FirstWhere(s, p)
    ensures FirstWhere(s, p).None? && p(x) ==> FirstWhere(s + [x], p) == Some(|s|)
    ensures FirstWhere(s, p).None? && !p(x) ==> FirstWhere(s + [x], p).None?
  {
    var t := s + [x];
    assert forall j :: 0 <= j < |s| ==> t[j] == s[j];
    assert t[|s|] == x;
    var r := FirstWhere(t, p);
    match FirstWhere(s, p)
    case Some(i) =>
      assert p(t[i]);
      assert r.Some? && r.value <= i;
      assert r.value == i;
    case None =>
      if p(x) {
        assert r.Some? && r.value == |s|;
      }
  }

  /** The elements of s satisfying p, in their original order. */
  function Filter<T>(s: seq<T>, p: T -> bool): (r: seq<T>)
    ensures |r| <= |s|
    ensures forall i :: 0 <= i < |r| ==> r[i] in s && p(r[i])
    ensures forall i :: 0 <= i < |s| && p(s[i]) ==> s[i] in r
  {
    if s == [] then []
    else (if p(s[0]) then [s[0]] else []) + Filter(s[1..], p)
  }

  lemma {:induction false} FilterConcat<T>(a: seq<T>, b: seq<T>, p: T -> bool)
    ensures Filter(a + b, p) == Filter(a, p) + Filter(b, p)
  {
    if a == [] {
      assert a + b == b;
    } else {
      assert (a + b)[0] == a[0];
      assert (a + b)[1..] == a[1..] + b;
      FilterConcat(a[1..], b, p);
    }
  }

  /** Appending a non-empty sequence is appending its head, then its tail. */
  lemma ConsAppend<T>(x: seq<T>, s: seq<T>)
    requires s != []
    ensures x + s == (x + [s[0]]) + s[1..]
  {
    assert s == [s[0]] + s[1..];
  }

  /** Growing a prefix by the next element. */
  lemma PrefixSnoc<T>(w: seq<T>, i: nat)
    requires i < |w|
    ensures w[..i] + [w[i]] == w[..i + 1]
  {
  }

  /** Filtering one more element of a prefix. */
  lemma FilterSnoc<T>(s: seq<T>, j: nat, p: T -> bool)
    requires j < |s|
    ensures Filter(s[..j + 1], p) == Filter(s[..j], p) + (if p(s[j]) then [s[j]] else [])
  {
    FilterConcat(s[..j], [s[j]], p);
    assert s[..j + 1] == s[..j] + [s[j]];
  }

  /** Concatenation of a sequence of sequences. */
  function Flatten<T>(parts: seq<seq<T>>): (r: seq<T>)
  {
    if parts == [] then [] else parts[0] + Flatten(parts[1..])
  }

  lemma {:induction false} FlattenConcat<T>(a: seq<seq<T>>, b: seq<seq<T>>)
    ensures Flatten(a + b) == Flatten(a) + Flatten(b)
  {
    if a == [] {
      assert a + b == b;
    } else {
      assert (a + b)[0] == a[0];
      assert (a + b)[1..] == a[1..] + b;
      FlattenConcat(a[1..], b);
    }
  }

  /** Sum of f over s, accumulated from the front as a range loop does. */
  function SumBy<T>(s: seq<T>, f: T -> int): int
  {
    if s == [] then 0 else SumBy(s[..|s| - 1], f) + f(s[|s| - 1])
  }

  lemma {:induction false} SumByConcat<T>(a: seq<T>, b: seq<T>, f: T -> int)
    ensures SumBy(a + b, f) == SumBy(a, f) + SumBy(b, f)
  {
    if b == [] {
      assert a + b == a;
    } else {
      var c := a + b;
      assert c[..|c| - 1] == a + b[..|b| - 1];
      assert c[|c| - 1] == b[|b| - 1];
      SumByConcat(a, b[..|b| - 1], f);
    }
  }

  /** Replacing one element changes the sum by the difference of the two terms. */
  lemma SumByUpdate<T>(s: seq<T>, i: nat, x: T, f: T -> int)
    requires i < |s|
    ensures SumBy(s[i := x], f) == SumBy(s, f) - f(s[i]) + f(x)
  {
    assert s == s[..i] + [s[i]] + s[i + 1..];
    assert s[i := x] == s[..i] + [x] + s[i + 1..];
    SumByConcat(s[..i] + [s[i]], s[i + 1..], f);
    SumByConcat(s[..i], [s[i]], f);
    SumByConcat(s[..i] + [x], s[i + 1..], f);
    SumByConcat(s[..i], [x], f);
    assert SumBy([s[i]], f) == f(s[i]) by { assert [s[i]][..0] == []; }
    assert SumBy([x], f) == f(x) by { assert [x][..0] == []; }
  }

  /** Taking the same element out of two permutations of each other leaves two
      permutations of each other. */
  lemma RemoveSame<T>(s: seq<T>, t: seq<T>, k: nat)
    requires multiset(s) == multiset(t) && s != [] && k < |t| && t[k] == s[0]
    ensures multiset(s[1..]) == multiset(t[..k] + t[k + 1..])
  {
    assert t == t[..k] + [t[k]] + t[k + 1..];
    assert s == [s[0]] + s[1..];
    assert multiset(s[1..]) == multiset(s) - multiset{s[0]};
    assert multiset(t[..k] + t[k + 1..]) == multiset(t) - multiset{s[0]};
  }

  /** A sequence is its prefix before k, its element at k and its suffix after k. */
  lemma SplitAround<T>(t: seq<T>, k: nat)
    requires k < |t|
    ensures t == t[..k] + [t[k]] + t[k + 1..]
  {
  }

  lemma SumBySnoc<T>(a: seq<T>, x: T, f: T -> int)
    ensures SumBy(a + [x], f) == SumBy(a, f) + f(x)
  {
    assert (a + [x])[..|a|] == a;
  }

  lemma SumByMiddle<T>(a: seq<T>, x: T, b: seq<T>, f: T -> int)
    ensures SumBy(a + [x] + b, f) == SumBy(a + b, f) + f(x)
  {
    SumByConcat(a + [x], b, f);
    SumBySnoc(a, x, f);
    SumByConcat(a, b, f);
  }

  /** Taking out the element at k takes its term out of the sum. */
  lemma SumByRemove<T>(t: seq<T>, k: nat, f: T -> int)
    requires k < |t|
    ensures SumBy(t, f) == SumBy(t[..k] + t[k + 1..], f) + f(t[k])
  {
    SplitAround(t, k);
    SumByMiddle(t[..k], t[k], t[k + 1..], f);
  }

  /** The sum depends only on the multiset of elements, not on their order. */
  lemma {:induction false} SumByPermutation<T>(s: seq<T>, t: seq<T>, f: T -> int)
    requires multiset(s) == multiset(t)
    ensures SumBy(s, f) == SumBy(t, f)
    decreases |s|
  {
    if s == [] {
      assert |t| == |multiset(t)| == 0;
    } else {
      assert s[0] in multiset(t);
      var k :| 0 <= k < |t| && t[k] == s[0];
      RemoveSame(s, t, k);
      SumByPermutation(s[1..], t[..k] + t[k + 1..], f);
      SumByRemove(t, k, f);
      SumByRemove(s, 0, f);
      assert s[..0] + s[1..] == s[1..];
    }
  }
}
