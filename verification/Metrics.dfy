/** Backtest metrics: the one-pass maximum drawdown and the integer sums over trades. */
module Metrics {
  import opened Orders
  import opened Sums

  /** The running peak at point j. */
  function PeakAt(curve: seq<int>, j: nat): int
    requires j < |curve|
  {
    if j == 0 then curve[0]
    else if curve[j] > PeakAt(curve, j - 1) then curve[j] else PeakAt(curve, j - 1)
  }

  lemma {:induction false} PeakIsAbove(curve: seq<int>, j: nat, i: nat)
    requires i <= j < |curve|
    ensures curve[i] <= PeakAt(curve, j)
  {
    if i < j {
      PeakIsAbove(curve, j - 1, i);
    }
  }

  lemma {:induction false} PeakIsReached(curve: seq<int>, j: nat) returns (i: nat)
    requires j < |curve|
    ensures i <= j && curve[i] == PeakAt(curve, j)
  {
    if j == 0 || curve[j] > PeakAt(curve, j - 1) {
      i := j;
    } else {
      i := PeakIsReached(curve, j - 1);
    }
  }

  /** The fall from a positive value to another, as a fraction of the first. */
  function Fall(from: int, to: int): real
    requires from > 0
  {
    (from - to) as real / from as real
  }

  /** The fall from the running peak at point j; none is counted until the peak is positive. */
  function FallAt(curve: seq<int>, j: nat): real
    requires j < |curve|
  {
    if PeakAt(curve, j) > 0 then Fall(PeakAt(curve, j), curve[j]) else 0.0
  }

  function Falls(curve: seq<int>): seq<real>
  {
    seq(|curve|, j requires 0 <= j < |curve| => FallAt(curve, j))
  }

  /** m is the largest entry, or 0 when no entry is positive. */
  ghost predicate IsLargest(falls: seq<real>, m: real)
  {
    && m >= 0.0
    && (forall j :: 0 <= j < |falls| ==> falls[j] <= m)
    && (m > 0.0 ==> m in falls)
  }

  lemma {:induction false} LargerEntry(falls: seq<real>, m: real, x: real)
    requires IsLargest(falls, m)
    ensures IsLargest(falls + [x], if x > m then x else m)
  {
    var more := falls + [x];
    assert more[|falls|] == x;
    if m in falls {
      var j :| 0 <= j < |falls| && falls[j] == m;
      assert more[j] == m;
    }
  }

  method ComputeMaxDrawdown(curve: seq<int>) returns (maxDD: real)
    ensures IsLargest(Falls(curve), maxDD)
  {
    ghost var falls := Falls(curve);
    if |curve| < 2 {
      ShortCurve(curve);
      return 0.0;
    }
    var peak := curve[0];
    maxDD := 0.0;
    for n := 0 to |curve|
      invariant peak == PeakAt(curve, if n == 0 then 0 else n - 1)
      invariant IsLargest(falls[..n], maxDD)
    {
      ghost var maxBefore := maxDD;
      var eq := curve[n];
      if eq > peak {
        peak := eq;
      }
      if peak > 0 {
        var dd := Fall(peak, eq);
        if dd > maxDD {
          maxDD := dd;
        }
      }
      assert falls[..n + 1] == falls[..n] + [FallAt(curve, n)];
      LargerEntry(falls[..n], maxBefore, FallAt(curve, n));
    }
    assert falls[..|curve|] == falls;
  }

  lemma {:induction false} ShortCurve(curve: seq<int>)
    requires |curve| < 2
    ensures IsLargest(Falls(curve), 0.0)
  {
    if |curve| == 1 && curve[0] > 0 {
      assert Fall(curve[0], curve[0]) == 0.0;
    }
  }

  lemma {:induction false} CancelFactor(u: real, v: real, c: real)
    requires c > 0.0 && u * c <= v * c
    ensures u <= v
  {
  }

  lemma {:induction false} DivideLess(x: real, a: real, y: real, b: real)
    requires a > 0.0 && b > 0.0 && x * b <= y * a
    ensures x / a <= y / b
  {
    var u, v := x / a, y / b;
    assert u * (a * b) == (u * a) * b == x * b;
    assert v * (a * b) == (v * b) * a == y * a;
    CancelFactor(u, v, a * b);
  }

  /** Falling to a value that is not negative, a higher start falls at least as far in proportion. */
  lemma {:induction false} HigherFallsFurther(a: int, p: int, e: int)
    requires 0 < a <= p && e >= 0
    ensures Fall(a, e) <= Fall(p, e)
  {
    assert (a - e) * p <= (p - e) * a by {
      assert e * a <= e * p;
    }
    DivideLess((a - e) as real, a as real, (p - e) as real, p as real);
  }

  lemma {:induction false} FallRange(p: int, e: int)
    requires p > 0 && 0 <= e <= p
    ensures 0.0 <= Fall(p, e) <= 1.0
  {
    DivideLess(0.0, 1.0, (p - e) as real, p as real);
    DivideLess((p - e) as real, p as real, 1.0, 1.0);
  }

  /**
   Main result: on a curve without negative values the result is the largest fall over all pairs, and lies in [0, 1].
   */
  lemma {:induction false} DrawdownIsOverAllPairs(curve: seq<int>, dd: real)
    requires IsLargest(Falls(curve), dd) && forall i :: 0 <= i < |curve| ==> curve[i] >= 0
    ensures forall i, j :: 0 <= i <= j < |curve| && curve[i] > 0 ==> Fall(curve[i], curve[j]) <= dd
    ensures dd > 0.0 ==> exists i, j :: 0 <= i <= j < |curve| && curve[i] > 0 && Fall(curve[i], curve[j]) == dd
    ensures 0.0 <= dd <= 1.0
  {
    forall i, j | 0 <= i <= j < |curve| && curve[i] > 0 ensures Fall(curve[i], curve[j]) <= dd {
      PairWithin(curve, i, j);
      assert Falls(curve)[j] <= dd;
    }
    if dd > 0.0 {
      var j :| 0 <= j < |curve| && Falls(curve)[j] == dd;
      var i := PeakIsReached(curve, j);
      PeakIsAbove(curve, j, j);
      assert Fall(curve[i], curve[j]) == dd;
      FallRange(curve[i], curve[j]);
    }
  }

  lemma {:induction false} PairWithin(curve: seq<int>, i: nat, j: nat)
    requires i <= j < |curve| && curve[i] > 0 && curve[j] >= 0
    ensures Fall(curve[i], curve[j]) <= FallAt(curve, j)
  {
    PairWithinExactlyWhen(curve, i, j);
  }

  /** Falling below zero, a higher start falls strictly less in proportion. */
  lemma {:induction false} HigherFallsLess(a: int, p: int, e: int)
    requires 0 < a < p && e < 0
    ensures Fall(a, e) > Fall(p, e)
  {
    assert (a - e) * p > (p - e) * a by {
      assert e * p < e * a;
    }
    DivideMore((a - e) as real, a as real, (p - e) as real, p as real);
  }

  lemma {:induction false} DivideMore(x: real, a: real, y: real, b: real)
    requires a > 0.0 && b > 0.0 && x * b > y * a
    ensures x / a > y / b
  {
    var u, v := x / a, y / b;
    assert u * (a * b) == (u * a) * b == x * b;
    assert v * (a * b) == (v * b) * a == y * a;
    CancelFactorStrictly(u, v, a * b);
  }

  lemma {:induction false} CancelFactorStrictly(u: real, v: real, c: real)
    requires c > 0.0 && u * c > v * c
    ensures u > v
  {
  }

  /**
   Main result: the running peak stands for a pair if and only if the pair does not end below zero or starts at the
   peak.
   */
  lemma {:induction false} PairWithinExactlyWhen(curve: seq<int>, i: nat, j: nat)
    requires i <= j < |curve| && curve[i] > 0
    ensures Fall(curve[i], curve[j]) <= FallAt(curve, j) <==> curve[j] >= 0 || curve[i] == PeakAt(curve, j)
  {
    PeakIsAbove(curve, j, i);
    if curve[j] >= 0 {
      HigherFallsFurther(curve[i], PeakAt(curve, j), curve[j]);
    } else if curve[i] < PeakAt(curve, j) {
      HigherFallsLess(curve[i], PeakAt(curve, j), curve[j]);
    }
  }

  /** Why values must not be negative: from 1 to -1 falls further in proportion than from the peak of 100. */
  lemma {:induction false} NegativeValueCounterexample()
    ensures IsLargest(Falls([1, 100, -1]), 1.01) && Fall(1, -1) == 2.0
  {
    var curve := [1, 100, -1];
    assert PeakAt(curve, 0) == 1;
    assert PeakAt(curve, 1) == 100;
    assert PeakAt(curve, 2) == 100;
    assert Fall(1, 1) == 0.0 && Fall(100, 100) == 0.0 && Fall(100, -1) == 1.01;
    assert Falls(curve) == [0.0, 0.0, 1.01];
    assert [0.0, 0.0, 1.01][2] == 1.01;
  }

  // ---------- sums over trades ----------

  datatype Trade = Trade(market: string, side: Side, quantity: int, price: int, pnl: int)

  function Pnl(): Trade -> int { (t: Trade) => t.pnl }

  function Gain(): Trade -> int { (t: Trade) => if t.pnl > 0 then t.pnl else 0 }

  function Loss(): Trade -> int { (t: Trade) => if t.pnl < 0 then -t.pnl else 0 }

  function Won(): Trade -> int { (t: Trade) => if t.pnl > 0 then 1 else 0 }

  function Lost(): Trade -> int { (t: Trade) => if t.pnl < 0 then 1 else 0 }

  datatype Totals = Totals(count: nat, totalPnL: int, wins: nat, losses: nat, grossProfit: int, grossLoss: int)

  /** The integer part of ComputeFromTrades. */
  method SumTrades(trades: seq<Trade>) returns (t: Totals)
    ensures t.count == |trades| && t.totalPnL == SumBy(trades, Pnl())
    ensures t.grossProfit == SumBy(trades, Gain()) && t.grossLoss == SumBy(trades, Loss())
    ensures t.wins == SumBy(trades, Won()) && t.losses == SumBy(trades, Lost())
    ensures t.totalPnL == t.grossProfit - t.grossLoss && t.grossProfit >= t.wins && t.grossLoss >= t.losses
    ensures t.wins + t.losses <= |trades|
  {
    var totalPnL, grossProfit, grossLoss := 0, 0, 0;
    var wins: nat, losses: nat := 0, 0;
    for n := 0 to |trades|
      invariant totalPnL == SumBy(trades[..n], Pnl())
      invariant grossProfit == SumBy(trades[..n], Gain()) && grossLoss == SumBy(trades[..n], Loss())
      invariant wins == SumBy(trades[..n], Won()) && losses == SumBy(trades[..n], Lost())
      invariant totalPnL == grossProfit - grossLoss
      invariant wins + losses <= n && grossProfit >= wins && grossLoss >= losses
    {
      assert trades[..n + 1][..n] == trades[..n];
      totalPnL := totalPnL + trades[n].pnl;
      if trades[n].pnl > 0 {
        wins, grossProfit := wins + 1, grossProfit + trades[n].pnl;
      } else if trades[n].pnl < 0 {
        losses, grossLoss := losses + 1, grossLoss - trades[n].pnl;
      }
    }
    assert trades[..|trades|] == trades;
    t := Totals(|trades|, totalPnL, wins, losses, grossProfit, grossLoss);
  }
}
