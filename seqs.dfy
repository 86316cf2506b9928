/** Small facts about sequences used by several modules. */
module Seqs {

  /** No element occurs twice. */
  predicate NoDup<T(==)>(s: seq<T>)
  {
    forall i, j :: 0 <= i < j < |s| ==> s[i] != s[j]
  }

  function Max(a: int, b: int): int { if a >= b then a else b }
  function Min(a: int, b: int): int { if a <= b then a else b }

  /** Concatenation is associative. */
  lemma AppendAssoc<T>(a: seq<T>, b: seq<T>, c: seq<T>)
    ensures (a + b) + c == a + (b + c)
  {
  }

  /** The largest element of a non-empty sequence (Python's `max`). */
  function MaxOf(s: seq<nat>): (m: nat)
    requires s != []
    ensures m in s && forall k :: 0 <= k < |s| ==> s[k] <= m
  {
    if |s| == 1 then s[0]
    else
      var rest := MaxOf(s[1..]);
      assert forall k :: 1 <= k < |s| ==> s[k] == s[1..][k - 1];
      if s[0] >= rest then s[0] else rest
  }

  /** The last `n` elements of `s`, all of them when `n >= |s|`. */
  function LastN<T>(s: seq<T>, n: nat): (r: seq<T>)
    ensures |r| == Min(n, |s|)
    ensures r == s[|s| - |r|..]
  {
    if n >= |s| then s else s[|s| - n..]
  }

  /** Keeps the newest `cap` elements of `s + [x]` (oldest-first eviction). */
  function PushBounded<T>(s: seq<T>, x: T, cap: nat): (r: seq<T>)
    requires cap > 0
    ensures |r| == Min(|s| + 1, cap)
    ensures r == (s + [x])[|s| + 1 - |r|..]
    ensures r[|r| - 1] == x
  {
    LastN(s + [x], cap)
  }

  /** `erase(remove(...))`: every copy of `x` leaves the list; the rest keep their order. */
  function Erase<T(==, !new)>(l: seq<T>, x: T): (r: seq<T>)
    ensures forall y :: y in r <==> y in l && y != x
    ensures |r| <= |l|
  {
    if l == [] then []
    else
      var rest := Erase(l[1..], x);
      assert forall y :: y in l <==> y == l[0] || y in l[1..];
      if l[0] == x then rest else [l[0]] + rest
  }

  /** Erasing keeps a list free of duplicates. */
  lemma {:induction false} EraseNoDup<T(!new)>(l: seq<T>, x: T)
    ensures NoDup(l) ==> NoDup(Erase(l, x))
  {
    if l != [] && NoDup(l) {
      assert NoDup(l[1..]) by {
        forall i, j | 0 <= i < j < |l[1..]|
          ensures l[1..][i] != l[1..][j]
        {
          assert l[1..][i] == l[i + 1] && l[1..][j] == l[j + 1];
        }
      }
      EraseNoDup(l[1..], x);
      var rest := Erase(l[1..], x);
      if l[0] != x {
        assert l[0] !in l[1..];
        var r := [l[0]] + rest;
        forall i, j | 0 <= i < j < |r|
          ensures r[i] != r[j]
        {
          assert r[j] == rest[j - 1];
          if i > 0 {
            assert r[i] == rest[i - 1];
          }
        }
      }
    }
  }

  /** The elements of `s` that satisfy `keep`, in order. */
  function Filter<T>(s: seq<T>, keep: T -> bool): (r: seq<T>)
    ensures |r| <= |s|
    ensures forall k :: 0 <= k < |r| ==> keep(r[k])
  {
    if s == [] then []
    else
      var rest := Filter(s[1..], keep);
      if keep(s[0]) then [s[0]] + rest else rest
  }

  /** Filtering a concatenation filters each part. */
  lemma {:induction false} FilterAppend<T>(a: seq<T>, b: seq<T>, keep: T -> bool)
    ensures Filter(a + b, keep) == Filter(a, keep) + Filter(b, keep)
  {
    if a != [] {
      assert (a + b)[1..] == a[1..] + b;
      FilterAppend(a[1..], b, keep);
      var head := if keep(a[0]) then [a[0]] else [];
      assert head + (Filter(a[1..], keep) + Filter(b, keep)) == (head + Filter(a[1..], keep)) + Filter(b, keep);
    } else {
      assert a + b == b;
    }
  }

  /** Filtering one element keeps it or drops it. */
  lemma FilterOne<T>(x: T, keep: T -> bool)
    ensures Filter([x], keep) == if keep(x) then [x] else []
  {
    assert [x][1..] == [];
  }

  /** A second, finer filter sees the same elements, in the same order, as the finer filter alone. */
  lemma {:induction false} FilterFiner<T>(s: seq<T>, coarse: T -> bool, fine: T -> bool)
    requires forall x :: fine(x) ==> coarse(x)
    ensures Filter(Filter(s, coarse), fine) == Filter(s, fine)
  {
    if s != [] {
      FilterFiner(s[1..], coarse, fine);
    }
  }
}
