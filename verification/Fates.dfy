/**
 What becomes of each exchange fill: not yet polled, applied by the engine, dropped, or missed while its order was in
 flight.
 */
module Fates {
  import opened Exchange
  import opened Sums

  datatype Fate = Unpolled | Applied | Dropped | Missed

  /** The sum of g over the fills with one fate. */
  ghost function FateSum(fills: seq<XFill>, fates: seq<Fate>, g: XFill -> int, t: Fate): int
    requires |fates| == |fills|
  {
    if fills == [] then 0
    else
      var n := |fills| - 1;
      FateSum(fills[..n], fates[..n], g, t) + if fates[n] == t then g(fills[n]) else 0
  }

  /** Every fill has one fate. */
  lemma {:induction false} FatesSplit(fills: seq<XFill>, fates: seq<Fate>, g: XFill -> int)
    requires |fates| == |fills|
    ensures SumBy(fills, g)
         == FateSum(fills, fates, g, Applied) + FateSum(fills, fates, g, Unpolled)
            + FateSum(fills, fates, g, Dropped) + FateSum(fills, fates, g, Missed)
  {
    if fills != [] {
      var n := |fills| - 1;
      FatesSplit(fills[..n], fates[..n], g);
    }
  }

  lemma {:induction false} FateAppend(fills: seq<XFill>, fates: seq<Fate>, f: XFill, t0: Fate, g: XFill -> int, t: Fate)
    requires |fates| == |fills|
    ensures FateSum(fills + [f], fates + [t0], g, t) == FateSum(fills, fates, g, t) + if t0 == t then g(f) else 0
  {
    assert (fills + [f])[..|fills|] == fills && (fates + [t0])[..|fates|] == fates;
  }

  /** Changing one fill's fate moves its value from one sum to another. */
  lemma {:induction false} FateChange(fills: seq<XFill>, fates: seq<Fate>, k: nat, t0: Fate, g: XFill -> int, t: Fate)
    requires |fates| == |fills| && k < |fills|
    ensures FateSum(fills, fates[k := t0], g, t)
         == FateSum(fills, fates, g, t) - (if fates[k] == t then g(fills[k]) else 0)
            + (if t0 == t then g(fills[k]) else 0)
  {
    var n := |fills| - 1;
    if k == n {
      assert fates[k := t0][..n] == fates[..n];
    } else {
      FateChange(fills[..n], fates[..n], k, t0, g, t);
      assert fates[k := t0][..n] == fates[..n][k := t0];
    }
  }

  lemma {:induction false} FateNonneg(fills: seq<XFill>, fates: seq<Fate>, g: XFill -> int, t: Fate)
    requires |fates| == |fills| && forall i :: 0 <= i < |fills| ==> g(fills[i]) >= 0
    ensures FateSum(fills, fates, g, t) >= 0
  {
    if fills != [] {
      var n := |fills| - 1;
      FateNonneg(fills[..n], fates[..n], g, t);
    }
  }

  /** A fill with fate t is part of that fate's sum. */
  lemma {:induction false} FateTerm(fills: seq<XFill>, fates: seq<Fate>, k: nat, g: XFill -> int)
    requires |fates| == |fills| && k < |fills| && forall i :: 0 <= i < |fills| ==> g(fills[i]) >= 0
    ensures FateSum(fills, fates, g, fates[k]) >= g(fills[k])
  {
    var t := fates[k];
    var other := if t == Unpolled then Applied else Unpolled;
    FateChange(fills, fates, k, other, g, t);
    FateNonneg(fills, fates[k := other], g, t);
  }
}
