/** Position reconciliation: the exchange's positions against the risk table's net per market. */
module Recon {
  import opened Orders
  import opened RiskPositions
  import opened Sums

  datatype Mismatch = Mismatch(market: string, internal: int, exchange: int)

  /** The disagreement comparePositionMaps reports for a market. */
  predicate Disagree(internal: map<string, int>, exchange: map<string, int>, market: string)
  {
    if market in internal then market !in exchange || internal[market] != exchange[market]
    else market in exchange && exchange[market] != 0
  }

  ghost predicate Reports(ms: seq<Mismatch>, internal: map<string, int>, exchange: map<string, int>, seen: set<string>)
  {
    && (forall i, j :: 0 <= i < j < |ms| ==> ms[i].market != ms[j].market)
    && (forall i :: 0 <= i < |ms| ==>
          && ms[i].market in seen && Disagree(internal, exchange, ms[i].market)
          && ms[i].internal == PositionAt(internal, ms[i].market)
            && ms[i].exchange == PositionAt(exchange, ms[i].market))
    && (forall m :: m in seen && Disagree(internal, exchange, m) ==> exists i :: 0 <= i < |ms| && ms[i].market == m)
  }

  ghost predicate Listed(ms: seq<Mismatch>, market: string)
  {
    exists i :: 0 <= i < |ms| && ms[i].market == market
  }

  /** The list after looking at one more market. */
  function Extended(ms: seq<Mismatch>, internal: map<string, int>, exchange: map<string, int>, m: string): seq<Mismatch>
  {
    if Disagree(internal, exchange, m) then ms + [Mismatch(m, PositionAt(internal, m), PositionAt(exchange, m))] else ms
  }

  lemma {:induction false} ReportOne(ms: seq<Mismatch>, internal: map<string, int>, exchange: map<string, int>,
      seen: set<string>, m: string)
    requires Reports(ms, internal, exchange, seen) && m !in seen
    ensures Reports(Extended(ms, internal, exchange, m), internal, exchange, seen + {m})
  {
    var ms' := Extended(ms, internal, exchange, m);
    forall k | k in seen + {m} && Disagree(internal, exchange, k)
      ensures exists i :: 0 <= i < |ms'| && ms'[i].market == k {
      if k == m {
        assert ms'[|ms|].market == k;
      } else {
        var i :| 0 <= i < |ms| && ms[i].market == k;
        assert ms'[i].market == k;
      }
    }
  }

  /** The list after a pass over ks that skips some markets. */
  ghost function Pass(ms: seq<Mismatch>, internal: map<string, int>, exchange: map<string, int>, skip: set<string>,
      ks: seq<string>): seq<Mismatch>
  {
    if ks == [] then ms
    else
      var before, m := Pass(ms, internal, exchange, skip, ks[..|ks| - 1]), ks[|ks| - 1];
      if m in skip then before else Extended(before, internal, exchange, m)
  }

  lemma {:induction false} PassReports(ms: seq<Mismatch>, internal: map<string, int>, exchange: map<string, int>,
      skip: set<string>, ks: seq<string>)
    requires Reports(ms, internal, exchange, skip) && forall i, j :: 0 <= i < j < |ks| ==> ks[i] != ks[j]
    ensures Reports(Pass(ms, internal, exchange, skip, ks), internal, exchange, skip + set m | m in ks)
  {
    if ks == [] {
      assert skip + (set m | m in ks) == skip;
    } else {
      var init, m := ks[..|ks| - 1], ks[|ks| - 1];
      PassReports(ms, internal, exchange, skip, init);
      var seen := skip + set k | k in init;
      assert skip + (set k | k in ks) == seen + {m};
      if m in skip {
        assert seen + {m} == seen;
      } else {
        ReportOne(Pass(ms, internal, exchange, skip, init), internal, exchange, seen, m);
      }
    }
  }

  /** Two passes over the maps, each in whatever order the map gives: every disagreement is reported, once. */
  method ComparePositionMaps(internal: map<string, int>, exchange: map<string, int>) returns (ms: seq<Mismatch>)
    ensures Reports(ms, internal, exchange, internal.Keys + exchange.Keys)
    ensures ms == [] <==> forall m :: m in internal.Keys + exchange.Keys ==> !Disagree(internal, exchange, m)
    ensures forall m :: Listed(ms, m) <==>
      || (m in internal && (m !in exchange || internal[m] != exchange[m]))
      || (m !in internal && m in exchange && exchange[m] != 0)
    ensures forall i, j :: 0 <= i < j < |ms| ==> ms[i].market != ms[j].market
    ensures forall i :: 0 <= i < |ms| ==>
      && ms[i].internal == (if ms[i].market in internal then internal[ms[i].market] else 0)
      && ms[i].exchange == (if ms[i].market in exchange then exchange[ms[i].market] else 0)
  {
    ms := CompareTracked(internal, exchange);
    ms := CompareUntracked(internal, exchange, ms);
    assert ms != [] ==> Disagree(internal, exchange, ms[0].market);
  }

  /** The first pass: internal positions against the exchange. */
  method CompareTracked(internal: map<string, int>, exchange: map<string, int>) returns (ms: seq<Mismatch>)
    ensures Reports(ms, internal, exchange, internal.Keys)
  {
    ms := [];
    var ks := Enumerate(internal.Keys);
    for n := 0 to |ks|
      invariant ms == Pass([], internal, exchange, {}, ks[..n])
    {
      var m := ks[n];
      assert ks[..n + 1][..n] == ks[..n] && m in internal;
      if m !in exchange {
        ms := ms + [Mismatch(m, internal[m], 0)];
      } else if internal[m] != exchange[m] {
        ms := ms + [Mismatch(m, internal[m], exchange[m])];
      }
    }
    assert ks[..|ks|] == ks && {} + (set m | m in ks) == internal.Keys;
    PassReports([], internal, exchange, {}, ks);
  }

  /** The second pass: positions on the exchange that are not tracked internally. */
  method CompareUntracked(internal: map<string, int>, exchange: map<string, int>, found: seq<Mismatch>)
    returns (ms: seq<Mismatch>)
    requires Reports(found, internal, exchange, internal.Keys)
    ensures Reports(ms, internal, exchange, internal.Keys + exchange.Keys)
  {
    ms := found;
    var ks := Enumerate(exchange.Keys);
    for n := 0 to |ks|
      invariant ms == Pass(found, internal, exchange, internal.Keys, ks[..n])
    {
      var m := ks[n];
      assert ks[..n + 1][..n] == ks[..n] && m in exchange;
      if m !in internal && exchange[m] != 0 {
        ms := ms + [Mismatch(m, 0, exchange[m])];
      }
    }
    assert ks[..|ks|] == ks && (set m | m in ks) == exchange.Keys;
    PassReports(found, internal, exchange, internal.Keys, ks);
  }

  /** The internal side: markets whose net is not zero. */
  ghost function InternalPositions(p: Positions): map<string, int>
  {
    map m | m in (set a | a in p.table.Keys :: a.market) && Net(p, m) != 0 :: Net(p, m)
  }

  lemma {:induction false} InternalIsNet(p: Positions, m: string)
    ensures PositionAt(InternalPositions(p), m) == Net(p, m)
  {
    if m !in (set a | a in p.table.Keys :: a.market) {
      SumSetZero(p.table.Keys, InMarket(p, m));
    }
  }

  /** Main result: reconciliation finds nothing exactly when every market's net agrees with the exchange. */
  lemma {:induction false} NoMismatchExactlyWhen(p: Positions, exchange: map<string, int>)
    ensures (forall m :: m in InternalPositions(p).Keys + exchange.Keys ==>
          !Disagree(InternalPositions(p), exchange, m))
            <==> forall m: string :: Net(p, m) == PositionAt(exchange, m)
  {
    var internal := InternalPositions(p);
    forall m: string
      ensures Net(p, m) == PositionAt(internal, m)
      ensures (m in internal.Keys + exchange.Keys ==> !Disagree(internal, exchange, m))
              <==> Net(p, m) == PositionAt(exchange, m) {
      InternalIsNet(p, m);
    }
  }
}
