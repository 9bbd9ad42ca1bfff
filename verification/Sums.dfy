/** Integer sums over sequences and finite sets, and listings of finite sets. */
module Sums {

  /** The sum of f over s, in sequence order. */
  ghost function SumBy<T>(s: seq<T>, f: T -> int): int
  {
    if s == [] then 0 else SumBy(s[..|s| - 1], f) + f(s[|s| - 1])
  }

  lemma {:induction false} SumAppend<T>(s: seq<T>, x: T, f: T -> int)
    ensures SumBy(s + [x], f) == SumBy(s, f) + f(x)
  {
    assert (s + [x])[..|s|] == s;
  }

  lemma {:induction false} SumConcat<T>(s: seq<T>, t: seq<T>, f: T -> int)
    ensures SumBy(s + t, f) == SumBy(s, f) + SumBy(t, f)
  {
    if t == [] {
      assert s + t == s;
    } else {
      var t' := t[..|t| - 1];
      assert (s + t)[..|s + t| - 1] == s + t';
      SumConcat(s, t', f);
    }
  }

  function RemoveAt<T>(s: seq<T>, k: nat): seq<T>
    requires k < |s|
  {
    s[..k] + s[k + 1..]
  }

  /** Dropping one position takes exactly its value away. */
  lemma {:induction false} SumRemoveAt<T>(s: seq<T>, k: nat, f: T -> int)
    requires k < |s|
    ensures SumBy(s, f) == SumBy(RemoveAt(s, k), f) + f(s[k])
    decreases |s|
  {
    var n := |s| - 1;
    var r := RemoveAt(s, k);
    if k == n {
      assert r == s[..n];
    } else {
      var s' := s[..n];
      SumRemoveAt(s', k, f);
      assert r[..n - 1] == RemoveAt(s', k);
      assert r[n - 1] == s[n];
    }
  }

  lemma {:induction false} SumUpdate<T>(s: seq<T>, k: nat, x: T, f: T -> int)
    requires k < |s|
    ensures SumBy(s[k := x], f) == SumBy(s, f) - f(s[k]) + f(x)
  {
    SumRemoveAt(s, k, f);
    SumRemoveAt(s[k := x], k, f);
    assert RemoveAt(s[k := x], k) == RemoveAt(s, k);
  }

  lemma MultisetRemoveAt<T>(s: seq<T>, k: nat)
    requires k < |s|
    ensures multiset(s) == multiset(RemoveAt(s, k)) + multiset{s[k]}
  {
    assert s == s[..k] + [s[k]] + s[k + 1..];
  }

  lemma RemoveSame<T>(s: seq<T>, t: seq<T>, j: nat, k: nat)
    requires j < |s| && k < |t| && s[j] == t[k]
    requires multiset(s) == multiset(t)
    ensures multiset(RemoveAt(s, j)) == multiset(RemoveAt(t, k))
  {
    MultisetRemoveAt(s, j);
    MultisetRemoveAt(t, k);
    var a, b, x := multiset(RemoveAt(s, j)), multiset(RemoveAt(t, k)), multiset{s[j]};
    assert a == (a + x) - x && b == (b + x) - x;
  }

  /** A sum does not depend on the order of its terms. */
  lemma {:induction false} SumPermutation<T>(s: seq<T>, t: seq<T>, f: T -> int)
    requires multiset(s) == multiset(t)
    ensures SumBy(s, f) == SumBy(t, f)
    decreases |s|
  {
    assert |s| == |multiset(s)| == |multiset(t)| == |t|;
    if s != [] {
      assert s[0] in multiset(t);
      var k :| 0 <= k < |t| && t[k] == s[0];
      RemoveSame(s, t, 0, k);
      SumPermutation(RemoveAt(s, 0), RemoveAt(t, k), f);
      SumRemoveAt(s, 0, f);
      SumRemoveAt(t, k, f);
    }
  }

  lemma {:induction false} SumMonotone<T>(s: seq<T>, f: T -> int, g: T -> int)
    requires forall i :: 0 <= i < |s| ==> f(s[i]) <= g(s[i])
    ensures SumBy(s, f) <= SumBy(s, g)
  {
    if s != [] {
      SumMonotone(s[..|s| - 1], f, g);
    }
  }

  lemma {:induction false} SumSame<T>(s: seq<T>, f: T -> int, g: T -> int)
    requires forall i :: 0 <= i < |s| ==> f(s[i]) == g(s[i])
    ensures SumBy(s, f) == SumBy(s, g)
  {
    SumMonotone(s, f, g);
    SumMonotone(s, g, f);
  }

  lemma {:induction false} SumZero<T>(s: seq<T>, f: T -> int)
    requires forall i :: 0 <= i < |s| ==> f(s[i]) == 0
    ensures SumBy(s, f) == 0
  {
    if s != [] {
      SumZero(s[..|s| - 1], f);
    }
  }

  lemma {:induction false} SumNonneg<T>(s: seq<T>, f: T -> int)
    requires forall i :: 0 <= i < |s| ==> f(s[i]) >= 0
    ensures SumBy(s, f) >= 0
  {
    if s != [] {
      SumNonneg(s[..|s| - 1], f);
    }
  }

  lemma {:induction false} SumAtMost<T>(s: seq<T>, f: T -> int, bound: int)
    requires forall i :: 0 <= i < |s| ==> f(s[i]) <= bound
    ensures SumBy(s, f) <= |s| * bound
  {
    if s != [] {
      SumAtMost(s[..|s| - 1], f, bound);
    }
  }

  /** No nonnegative term exceeds the sum. */
  lemma {:induction false} SumTerm<T>(s: seq<T>, k: nat, f: T -> int)
    requires k < |s|
    requires forall i :: 0 <= i < |s| ==> f(s[i]) >= 0
    ensures f(s[k]) <= SumBy(s, f)
  {
    SumRemoveAt(s, k, f);
    SumNonneg(RemoveAt(s, k), f);
  }

  /** Two sums over the same rows add pointwise. */
  lemma {:induction false} SumSplit<T>(s: seq<T>, f: T -> int, g: T -> int, h: T -> int)
    requires forall i :: 0 <= i < |s| ==> h(s[i]) == f(s[i]) + g(s[i])
    ensures SumBy(s, h) == SumBy(s, f) + SumBy(s, g)
  {
    if s != [] {
      SumSplit(s[..|s| - 1], f, g, h);
    }
  }

  /** The sum of f over a finite set; the element order is left open. */
  ghost function SumSet<T(!new)>(s: set<T>, f: T -> int): int
  {
    if s == {} then 0 else
      var x :| x in s;
      f(x) + SumSet(s - {x}, f)
  }

  /** Any element may be taken first. */
  lemma {:induction false} SumSetPick<T(!new)>(s: set<T>, x: T, f: T -> int)
    requires x in s
    ensures SumSet(s, f) == f(x) + SumSet(s - {x}, f)
  {
    var y :| y in s && SumSet(s, f) == f(y) + SumSet(s - {y}, f);
    if y != x {
      SumSetPick(s - {y}, x, f);
      SumSetPick(s - {x}, y, f);
      assert s - {y} - {x} == s - {x} - {y};
    }
  }

  lemma {:induction false} SumSetInsert<T(!new)>(s: set<T>, x: T, f: T -> int)
    requires x !in s
    ensures SumSet(s + {x}, f) == f(x) + SumSet(s, f)
  {
    SumSetPick(s + {x}, x, f);
    assert s + {x} - {x} == s;
  }

  lemma {:induction false} SumSetSame<T(!new)>(s: set<T>, f: T -> int, g: T -> int)
    requires forall x :: x in s ==> f(x) == g(x)
    ensures SumSet(s, f) == SumSet(s, g)
  {
    if s != {} {
      var x :| x in s;
      SumSetPick(s, x, f);
      SumSetPick(s, x, g);
      SumSetSame(s - {x}, f, g);
    }
  }

  lemma {:induction false} SumSetZero<T(!new)>(s: set<T>, f: T -> int)
    requires forall x :: x in s ==> f(x) == 0
    ensures SumSet(s, f) == 0
  {
    if s != {} {
      var x :| x in s;
      SumSetPick(s, x, f);
      SumSetZero(s - {x}, f);
    }
  }

  /** Changing the value at one element changes the sum by the difference. */
  lemma {:induction false} SumSetChange<T(!new)>(s: set<T>, x: T, f: T -> int, g: T -> int)
    requires x in s
    requires forall y :: y in s && y != x ==> f(y) == g(y)
    ensures SumSet(s, g) == SumSet(s, f) - f(x) + g(x)
  {
    SumSetPick(s, x, f);
    SumSetPick(s, x, g);
    SumSetSame(s - {x}, f, g);
  }

  // ---------- listings ----------

  /** ks lists the members of all, each once: an order in which a map or a query may give them. */
  ghost predicate Lists<T(!new)>(ks: seq<T>, all: set<T>)
  {
    && (forall i, j :: 0 <= i < j < |ks| ==> ks[i] != ks[j])
    && (forall k :: k in all <==> k in ks)
  }

  method Enumerate<T(==, !new)>(all: set<T>) returns (ks: seq<T>)
    ensures Lists(ks, all)
  {
    ks := [];
    var rest := all;
    while rest != {}
      invariant rest <= all && Lists(ks, all - rest)
      decreases |rest|
    {
      var k :| k in rest;
      ks, rest := ks + [k], rest - {k};
    }
  }
}
