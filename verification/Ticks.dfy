/** Grouping market snapshots into ticks: one greedy pass over the snapshots in time order. */
module Ticks {

  datatype Snapshot = Snapshot(venue: string, market: string, at: int, bid: int, ask: int, volume: int)

  datatype MarketData = MarketData(venue: string, market: string, bid: int, ask: int, volume: int, updatedAt: int)

  datatype Tick = Tick(at: int, data: map<string, MarketData>)

  function Key(s: Snapshot): string { s.venue + ":" + s.market }

  function DataOf(s: Snapshot): MarketData { MarketData(s.venue, s.market, s.bid, s.ask, s.volume, s.at) }

  predicate Sorted(snaps: seq<Snapshot>)
  {
    forall i, j :: 0 <= i <= j < |snaps| ==> snaps[i].at <= snaps[j].at
  }

  // ---------- what a grouping is ----------

  /** Snapshot i is the newest of its market among snaps[lo..hi]. */
  ghost predicate Newest(snaps: seq<Snapshot>, lo: nat, hi: nat, i: int)
  {
    && lo <= i < hi <= |snaps|
    && forall j :: lo <= j < hi && Key(snaps[j]) == Key(snaps[i]) ==> snaps[j].at <= snaps[i].at
  }

  /** The data holds, for each market among snaps[lo..hi], one of its newest snapshots, and nothing else. */
  ghost predicate Latest(snaps: seq<Snapshot>, lo: nat, hi: nat, data: map<string, MarketData>)
  {
    && lo <= hi <= |snaps|
    && (forall i :: lo <= i < hi ==> Key(snaps[i]) in data)
    && (forall k :: k in data ==>
          exists i :: Newest(snaps, lo, hi, i) && Key(snaps[i]) == k && data[k] == DataOf(snaps[i]))
  }

  /** The tick is made of snaps[lo..hi], which start at its time and end within the tolerance. */
  ghost predicate TickOf(snaps: seq<Snapshot>, tolerance: int, lo: nat, hi: nat, t: Tick)
  {
    && lo < hi <= |snaps| && t.at == snaps[lo].at
    && (forall i :: lo <= i < hi ==> 0 <= snaps[i].at - t.at <= tolerance)
    && Latest(snaps, lo, hi, t.data)
  }

  /** Tick n is made of the snapshots from cuts[n] to cuts[n + 1], and each tick starts beyond the one before. */
  ghost predicate Grouping(snaps: seq<Snapshot>, tolerance: int, ticks: seq<Tick>, cuts: seq<nat>)
  {
    && |cuts| == |ticks| + 1 && cuts[0] == 0 && cuts[|ticks|] <= |snaps|
    && (forall n :: 0 <= n < |ticks| ==> TickOf(snaps, tolerance, cuts[n], cuts[n + 1], ticks[n]))
    && (forall m, n :: 0 <= m < n < |ticks| ==> ticks[n].at - ticks[m].at > tolerance)
  }

  /** .. and the ticks take in every snapshot. */
  ghost predicate GroupsAll(snaps: seq<Snapshot>, tolerance: int, ticks: seq<Tick>, cuts: seq<nat>)
  {
    Grouping(snaps, tolerance, ticks, cuts) && cuts[|ticks|] == |snaps|
  }

  // ---------- the greedy pass ----------

  lemma {:induction false} LatestExtends(snaps: seq<Snapshot>, lo: nat, n: nat, data: map<string, MarketData>)
    requires Sorted(snaps) && n < |snaps| && Latest(snaps, lo, n, data)
    ensures Latest(snaps, lo, n + 1, data[Key(snaps[n]) := DataOf(snaps[n])])
  {
    var data' := data[Key(snaps[n]) := DataOf(snaps[n])];
    assert Newest(snaps, lo, n + 1, n);
    forall k | k in data' && k != Key(snaps[n])
      ensures exists i :: Newest(snaps, lo, n + 1, i) && Key(snaps[i]) == k && data'[k] == DataOf(snaps[i]) {
      var i :| Newest(snaps, lo, n, i) && Key(snaps[i]) == k && data[k] == DataOf(snaps[i]);
      assert Newest(snaps, lo, n + 1, i);
    }
  }

  lemma {:induction false} GroupingExtends(snaps: seq<Snapshot>, tolerance: int, ticks: seq<Tick>, cuts: seq<nat>,
      t: Tick, hi: nat)
    requires Grouping(snaps, tolerance, ticks, cuts) && TickOf(snaps, tolerance, cuts[|ticks|], hi, t)
    requires forall n :: 0 <= n < |ticks| ==> t.at - ticks[n].at > tolerance
    ensures Grouping(snaps, tolerance, ticks + [t], cuts + [hi])
  {
  }

  /** The pass after some snapshots: the finished ticks and the one being filled. */
  datatype Pass = Pass(ticks: seq<Tick>, current: Tick)

  predicate Cuts(p: Pass, s: Snapshot, tolerance: int) { s.at - p.current.at > tolerance }

  function Add(p: Pass, s: Snapshot, tolerance: int): Pass
  {
    var p' := if Cuts(p, s, tolerance) then Pass(p.ticks + [p.current], Tick(s.at, map[])) else p;
    p'.(current := p'.current.(data := p'.current.data[Key(s) := DataOf(s)]))
  }

  function Passed(snaps: seq<Snapshot>, tolerance: int, n: nat): Pass
    requires n <= |snaps| && snaps != []
  {
    if n == 0 then Pass([], Tick(snaps[0].at, map[])) else Add(Passed(snaps, tolerance, n - 1), snaps[n - 1], tolerance)
  }

  /** Where the ticks begin. */
  function CutsUpTo(snaps: seq<Snapshot>, tolerance: int, n: nat): (cuts: seq<nat>)
    requires n <= |snaps| && snaps != []
    ensures cuts != []
  {
    if n == 0 then [0]
    else if Cuts(Passed(snaps, tolerance, n - 1), snaps[n - 1], tolerance)
    then CutsUpTo(snaps, tolerance, n - 1) + [n - 1]
    else CutsUpTo(snaps, tolerance, n - 1)
  }

  /** The boundaries of all ticks, the end included. */
  function TickCuts(snaps: seq<Snapshot>, tolerance: int): seq<nat>
    requires snaps != []
  {
    CutsUpTo(snaps, tolerance, |snaps|) + [|snaps|]
  }

  ghost predicate PassOk(snaps: seq<Snapshot>, tolerance: int, p: Pass, cuts: seq<nat>, n: nat)
  {
    && Grouping(snaps, tolerance, p.ticks, cuts)
    && TickOf(snaps, tolerance, cuts[|p.ticks|], n, p.current)
    && (forall m :: 0 <= m < |p.ticks| ==> p.current.at - p.ticks[m].at > tolerance)
  }

  /** A snapshot within the tolerance joins the current tick. */
  lemma {:induction false} JoinKeeps(snaps: seq<Snapshot>, tolerance: int, p: Pass, cuts: seq<nat>, n: nat)
    requires Sorted(snaps) && n < |snaps| && PassOk(snaps, tolerance, p, cuts, n) && !Cuts(p, snaps[n], tolerance)
    ensures PassOk(snaps, tolerance, Add(p, snaps[n], tolerance), cuts, n + 1)
  {
    LatestExtends(snaps, cuts[|p.ticks|], n, p.current.data);
  }

  /** A snapshot beyond the tolerance closes the current tick and opens the next. */
  lemma {:induction false} CutKeeps(snaps: seq<Snapshot>, tolerance: int, p: Pass, cuts: seq<nat>, n: nat)
    requires Sorted(snaps) && tolerance >= 0 && n < |snaps| && PassOk(snaps, tolerance, p, cuts, n)
            && Cuts(p, snaps[n], tolerance)
    ensures PassOk(snaps, tolerance, Add(p, snaps[n], tolerance), cuts + [n], n + 1)
  {
    GroupingExtends(snaps, tolerance, p.ticks, cuts, p.current, n);
    FirstOfTick(snaps, tolerance, n);
  }

  lemma {:induction false} FirstOfTick(snaps: seq<Snapshot>, tolerance: int, n: nat)
    requires Sorted(snaps) && tolerance >= 0 && n < |snaps|
    ensures TickOf(snaps, tolerance, n, n + 1, Tick(snaps[n].at, map[Key(snaps[n]) := DataOf(snaps[n])]))
  {
    assert Latest(snaps, n, n, map[]);
    LatestExtends(snaps, n, n, map[]);
  }

  lemma {:induction false} PassKeeps(snaps: seq<Snapshot>, tolerance: int, n: nat)
    requires Sorted(snaps) && tolerance >= 0 && 0 < n <= |snaps|
    ensures PassOk(snaps, tolerance, Passed(snaps, tolerance, n), CutsUpTo(snaps, tolerance, n), n)
    decreases n
  {
    if n == 1 {
      FirstOfTick(snaps, tolerance, 0);
      assert Passed(snaps, tolerance, 0) == Pass([], Tick(snaps[0].at, map[]));
    } else {
      PassKeeps(snaps, tolerance, n - 1);
      var p, cuts := Passed(snaps, tolerance, n - 1), CutsUpTo(snaps, tolerance, n - 1);
      if Cuts(p, snaps[n - 1], tolerance) {
        CutKeeps(snaps, tolerance, p, cuts, n - 1);
      } else {
        JoinKeeps(snaps, tolerance, p, cuts, n - 1);
      }
    }
  }

  function EmptyTick(s: Snapshot): Tick { Tick(s.at, map[]) }

  /** A tick for one snapshot. */
  function OwnTick(s: Snapshot): Tick
  {
    Tick(s.at, map[s.venue + ":" + s.market := MarketData(s.venue, s.market, s.bid, s.ask, s.volume, s.at)])
  }

  function OwnTicks(snaps: seq<Snapshot>): seq<Tick>
  {
    seq(|snaps|, i requires 0 <= i < |snaps| => OwnTick(snaps[i]))
  }

  /** With a negative tolerance every snapshot cuts, the first one too. */
  lemma {:induction false} NegativeTolerance(snaps: seq<Snapshot>, tolerance: int, n: nat)
    requires Sorted(snaps) && tolerance < 0 && snaps != [] && n <= |snaps|
    ensures Passed(snaps, tolerance, n)
         == if n == 0 then Pass([], EmptyTick(snaps[0]))
            else Pass([EmptyTick(snaps[0])] + OwnTicks(snaps[..n - 1]), OwnTick(snaps[n - 1]))
  {
    if n == 1 {
      assert OwnTicks(snaps[..0]) == [];
      assert Passed(snaps, tolerance, 0) == Pass([], EmptyTick(snaps[0]));
    } else if n > 1 {
      NegativeTolerance(snaps, tolerance, n - 1);
      assert OwnTicks(snaps[..n - 1]) == OwnTicks(snaps[..n - 2]) + [OwnTick(snaps[n - 2])];
    }
  }

  // ---------- the entries, field by field ----------

  predicate SameMarket(s: Snapshot, t: Snapshot) { s.venue + ":" + s.market == t.venue + ":" + t.market }

  /** Entry k is the quote of snapshot i, one of the newest of its market among snaps[lo..hi]. */
  ghost predicate Quotes(snaps: seq<Snapshot>, lo: nat, hi: nat, k: string, md: MarketData, i: int)
  {
    && lo <= i < hi <= |snaps| && k == snaps[i].venue + ":" + snaps[i].market
    && md.venue == snaps[i].venue && md.market == snaps[i].market
    && md.bid == snaps[i].bid && md.ask == snaps[i].ask
    && md.volume == snaps[i].volume && md.updatedAt == snaps[i].at
    && forall j :: lo <= j < hi && SameMarket(snaps[j], snaps[i]) ==> snaps[j].at <= snaps[i].at
  }

  /** Every market among snaps[lo..hi] has an entry, and every entry is such a quote. */
  ghost predicate QuotesAll(snaps: seq<Snapshot>, lo: nat, hi: nat, data: map<string, MarketData>)
  {
    && lo <= hi <= |snaps|
    && (forall i :: lo <= i < hi ==> snaps[i].venue + ":" + snaps[i].market in data)
    && (forall k :: k in data ==> exists i :: Quotes(snaps, lo, hi, k, data[k], i))
  }

  ghost predicate TicksQuote(snaps: seq<Snapshot>, ticks: seq<Tick>, cuts: seq<nat>)
  {
    |cuts| == |ticks| + 1 && forall n :: 0 <= n < |ticks| ==> QuotesAll(snaps, cuts[n], cuts[n + 1], ticks[n].data)
  }

  lemma {:induction false} LatestQuotes(snaps: seq<Snapshot>, lo: nat, hi: nat, data: map<string, MarketData>)
    requires Latest(snaps, lo, hi, data)
    ensures QuotesAll(snaps, lo, hi, data)
  {
    forall i | lo <= i < hi ensures snaps[i].venue + ":" + snaps[i].market in data {
      assert Key(snaps[i]) in data;
    }
    forall k | k in data ensures exists i :: Quotes(snaps, lo, hi, k, data[k], i) {
      var i :| Newest(snaps, lo, hi, i) && Key(snaps[i]) == k && data[k] == DataOf(snaps[i]);
      forall j | lo <= j < hi && SameMarket(snaps[j], snaps[i]) ensures snaps[j].at <= snaps[i].at {
        assert Key(snaps[j]) == Key(snaps[i]);
      }
      assert Quotes(snaps, lo, hi, k, data[k], i);
    }
  }

  lemma {:induction false} GroupsQuote(snaps: seq<Snapshot>, tolerance: int, ticks: seq<Tick>, cuts: seq<nat>)
    requires GroupsAll(snaps, tolerance, ticks, cuts)
    ensures TicksQuote(snaps, ticks, cuts)
  {
    forall n | 0 <= n < |ticks| ensures QuotesAll(snaps, cuts[n], cuts[n + 1], ticks[n].data) {
      assert TickOf(snaps, tolerance, cuts[n], cuts[n + 1], ticks[n]);
      LatestQuotes(snaps, cuts[n], cuts[n + 1], ticks[n].data);
    }
  }

  // ---------- the sort ----------

  /** Puts a snapshot before the first one that is later. */
  function InsertByTime(snaps: seq<Snapshot>, x: Snapshot): seq<Snapshot>
  {
    if snaps == [] || x.at < snaps[0].at then [x] + snaps else [snaps[0]] + InsertByTime(snaps[1..], x)
  }

  lemma {:induction false} InsertKeepsSorted(snaps: seq<Snapshot>, x: Snapshot)
    requires Sorted(snaps)
    ensures var r := InsertByTime(snaps, x);
      r != [] && Sorted(r) && (r[0] == x || (snaps != [] && r[0] == snaps[0]))
  {
    if snaps != [] && x.at >= snaps[0].at {
      InsertKeepsSorted(snaps[1..], x);
    }
  }

  lemma {:induction false} InsertAddsOne(snaps: seq<Snapshot>, x: Snapshot)
    ensures multiset(InsertByTime(snaps, x)) == multiset(snaps) + multiset{x}
  {
    if snaps != [] && x.at >= snaps[0].at {
      InsertAddsOne(snaps[1..], x);
      assert snaps == [snaps[0]] + snaps[1..];
    }
  }

  /** Sorts the slice in place; which order snapshots of one time end in is not promised. */
  method SortByTime(snaps: array<Snapshot>)
    modifies snaps
    ensures Sorted(snaps[..]) && multiset(snaps[..]) == multiset(old(snaps[..]))
  {
    var given := snaps[..];
    var sorted: seq<Snapshot> := [];
    for n := 0 to |given|
      invariant Sorted(sorted) && multiset(sorted) == multiset(given[..n])
    {
      InsertKeepsSorted(sorted, given[n]);
      InsertAddsOne(sorted, given[n]);
      assert given[..n + 1] == given[..n] + [given[n]];
      sorted := InsertByTime(sorted, given[n]);
    }
    assert given[..|given|] == given;
    SameSize(sorted, given);
    forall i | 0 <= i < snaps.Length {
      snaps[i] := sorted[i];
    }
    assert snaps[..] == sorted;
  }

  lemma {:induction false} SameSize(s: seq<Snapshot>, t: seq<Snapshot>)
    requires multiset(s) == multiset(t)
    ensures |s| == |t|
  {
    assert |multiset(s)| == |s| && |multiset(t)| == |t|;
  }

  /**
   Main result: for a tolerance of at least zero every snapshot ends in exactly one tick, whose window is at
   most the tolerance wide and which keeps a newest snapshot of each market; with a negative tolerance the
   pass instead opens with an empty tick and gives every snapshot a tick of its own.
   The caller's slice is left sorted.
   */
  method GroupByTimestamp(snaps: array<Snapshot>, tolerance: int) returns (ticks: seq<Tick>)
    modifies snaps
    ensures Sorted(snaps[..]) && multiset(snaps[..]) == multiset(old(snaps[..]))
    ensures snaps.Length == 0 ==> ticks == []
    ensures tolerance >= 0 && snaps.Length > 0
            ==> GroupsAll(snaps[..], tolerance, ticks, TickCuts(snaps[..], tolerance))
    ensures tolerance >= 0 && snaps.Length > 0 ==> TicksQuote(snaps[..], ticks, TickCuts(snaps[..], tolerance))
    ensures tolerance < 0 && snaps.Length > 0 ==> ticks == [EmptyTick(snaps[0])] + OwnTicks(snaps[..])
  {
    if snaps.Length == 0 {
      return [];
    }
    SortByTime(snaps);
    ticks := GroupSorted(snaps[..], tolerance);
  }

  /** The pass over the sorted snapshots. */
  method GroupSorted(snaps: seq<Snapshot>, tolerance: int) returns (ticks: seq<Tick>)
    requires Sorted(snaps) && snaps != []
    ensures tolerance >= 0 ==> GroupsAll(snaps, tolerance, ticks, TickCuts(snaps, tolerance))
    ensures tolerance >= 0 ==> TicksQuote(snaps, ticks, TickCuts(snaps, tolerance))
    ensures tolerance < 0 ==> ticks == [EmptyTick(snaps[0])] + OwnTicks(snaps)
  {
    ticks := [];
    var current := Tick(snaps[0].at, map[]);
    for n := 0 to |snaps|
      invariant Pass(ticks, current) == Passed(snaps, tolerance, n)
    {
      var s := snaps[n];
      if s.at - current.at > tolerance {
        ticks := ticks + [current];
        current := Tick(s.at, map[]);
      }
      current := current.(data := current.data[Key(s) := DataOf(s)]);
    }
    LastTick(snaps, tolerance);
    ticks := ticks + [current];
    if tolerance >= 0 {
      GroupsQuote(snaps, tolerance, ticks, TickCuts(snaps, tolerance));
    }
  }

  lemma {:induction false} LastTick(snaps: seq<Snapshot>, tolerance: int)
    requires Sorted(snaps) && snaps != []
    ensures var p := Passed(snaps, tolerance, |snaps|);
      && (tolerance >= 0 ==> GroupsAll(snaps, tolerance, p.ticks + [p.current], TickCuts(snaps, tolerance)))
      && (tolerance < 0 ==> p.ticks + [p.current] == [EmptyTick(snaps[0])] + OwnTicks(snaps))
  {
    var p, cuts := Passed(snaps, tolerance, |snaps|), CutsUpTo(snaps, tolerance, |snaps|);
    if tolerance >= 0 {
      PassKeeps(snaps, tolerance, |snaps|);
      GroupingExtends(snaps, tolerance, p.ticks, cuts, p.current, |snaps|);
    } else {
      NegativeTolerance(snaps, tolerance, |snaps|);
      assert OwnTicks(snaps) == OwnTicks(snaps[..|snaps| - 1]) + [OwnTick(snaps[|snaps| - 1])];
    }
  }

  // ---------- optimality ----------

  /** A window of the tolerance's width from w on. */
  predicate Covers(w: int, tolerance: int, at: int) { w <= at <= w + tolerance }

  ghost predicate CoveredBy(windows: seq<int>, tolerance: int, at: int)
  {
    exists i :: 0 <= i < |windows| && Covers(windows[i], tolerance, at)
  }

  /** Times more than the tolerance apart need a window each. */
  lemma {:induction false} ApartNeedWindows(heads: seq<int>, windows: seq<int>, tolerance: int)
    requires forall m, n :: 0 <= m < n < |heads| ==> heads[n] - heads[m] > tolerance
    requires forall n :: 0 <= n < |heads| ==> CoveredBy(windows, tolerance, heads[n])
    ensures |heads| <= |windows|
  {
    if heads != [] {
      var n := |heads| - 1;
      assert CoveredBy(windows, tolerance, heads[n]);
      var i :| 0 <= i < |windows| && Covers(windows[i], tolerance, heads[n]);
      var rest := windows[..i] + windows[i + 1..];
      forall m | 0 <= m < n ensures CoveredBy(rest, tolerance, heads[..n][m]) {
        var j :| 0 <= j < |windows| && Covers(windows[j], tolerance, heads[m]);
        assert j != i;
        assert rest[if j < i then j else j - 1] == windows[j];
      }
      ApartNeedWindows(heads[..n], rest, tolerance);
    }
  }

  /**
   Main result: no cover of the given snapshots by windows of the tolerance's width uses fewer windows than there are
   ticks.
   */
  lemma {:induction false} GreedyIsOptimal(given: seq<Snapshot>, snaps: seq<Snapshot>, tolerance: int, ticks: seq<Tick>,
                                           cuts: seq<nat>, windows: seq<int>)
    requires Grouping(snaps, tolerance, ticks, cuts) && multiset(given) == multiset(snaps)
    requires forall i :: 0 <= i < |given| ==> CoveredBy(windows, tolerance, given[i].at)
    ensures |ticks| <= |windows|
  {
    var heads := seq(|ticks|, n requires 0 <= n < |ticks| => ticks[n].at);
    forall n | 0 <= n < |heads| ensures CoveredBy(windows, tolerance, heads[n]) {
      assert TickOf(snaps, tolerance, cuts[n], cuts[n + 1], ticks[n]);
      assert snaps[cuts[n]] in multiset(given);
      assert CoveredBy(windows, tolerance, snaps[cuts[n]].at);
    }
    ApartNeedWindows(heads, windows, tolerance);
  }

  /** The ticks' own windows are such a cover, so the pass attains the optimum. */
  lemma {:induction false} TicksCover(snaps: seq<Snapshot>, tolerance: int, ticks: seq<Tick>, cuts: seq<nat>, i: nat)
    requires GroupsAll(snaps, tolerance, ticks, cuts) && i < |snaps|
    ensures exists n :: 0 <= n < |ticks| && cuts[n] <= i < cuts[n + 1] && Covers(ticks[n].at, tolerance, snaps[i].at)
  {
    var n := CutBefore(cuts, i);
    assert TickOf(snaps, tolerance, cuts[n], cuts[n + 1], ticks[n]);
  }

  lemma {:induction false} CutBefore(cuts: seq<nat>, i: nat) returns (n: nat)
    requires |cuts| >= 1 && cuts[0] <= i < cuts[|cuts| - 1]
    ensures n < |cuts| - 1 && cuts[n] <= i < cuts[n + 1]
  {
    n := 0;
    while cuts[n + 1] <= i
      invariant n < |cuts| - 1 && cuts[n] <= i
      decreases |cuts| - n
    {
      n := n + 1;
    }
  }
}
