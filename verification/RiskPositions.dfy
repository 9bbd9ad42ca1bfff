/** The risk engine's positions: an in-memory map under joined text keys, and the table it is written to. */
module RiskPositions {
  import opened Orders
  import opened Sums

  datatype Account = Account(venue: string, market: string, strategy: string)

  datatype MarketState = MarketState(contracts: int, notional: int)

  datatype Positions = Positions(memory: map<string, MarketState>, table: map<Account, MarketState>)

  const NO_POSITIONS := Positions(map[], map[])

  /** The text under which a position is kept in memory. */
  function Join(a: Account): string { a.venue + ":" + a.market + ":" + a.strategy }

  function MemoryAt(p: Positions, key: string): MarketState
  {
    if key in p.memory then p.memory[key] else MarketState(0, 0)
  }

  function TableAt(p: Positions, a: Account): int
  {
    if a in p.table then p.table[a].contracts else 0
  }

  /** ReportFill: move the in-memory position, then write it to the account's row. */
  function ReportFill(p: Positions, a: Account, side: Side, quantity: int, price: int): Positions
  {
    var was := MemoryAt(p, Join(a));
    var now := MarketState(was.contracts + Signed(side, quantity), was.notional + Signed(side, quantity * price));
    Positions(p.memory[Join(a) := now], p.table[a := now])
  }

  /** SUM(net_quantity) of one market. */
  ghost function Net(p: Positions, market: string): int
  {
    SumSet(p.table.Keys, InMarket(p, market))
  }

  function InMarket(p: Positions, market: string): Account -> int
  {
    (a: Account) => if a.market == market then TableAt(p, a) else 0
  }

  // ---------- text keys ----------

  /** Venue and market do not contain the separator; the strategy may. */
  predicate Separable(a: Account) { NoColon(a.venue) && NoColon(a.market) }

  lemma {:induction false} JoinInjective(a: Account, b: Account)
    requires Separable(a) && Separable(b) && Join(a) == Join(b)
    ensures a == b
  {
    var ra, rb := a.market + ":" + a.strategy, b.market + ":" + b.strategy;
    assert Join(a) == a.venue + ":" + ra && Join(b) == b.venue + ":" + rb;
    FirstColonSplits(a.venue, ra, b.venue, rb);
    FirstColonSplits(a.market, a.strategy, b.market, b.strategy);
  }

  /** Where a text has a colon, it splits in two. */
  lemma {:induction false} ColonSplits(s: string) returns (x: string, y: string)
    requires ':' in s
    ensures s == x + ":" + y && |x| < |s| && |y| < |s|
  {
    var i :| 0 <= i < |s| && s[i] == ':';
    x, y := s[..i], s[i + 1..];
  }

  lemma {:induction false} Regroup(a: string, b: string, c: string, d: string)
    ensures (a + ":" + b) + ":" + c + ":" + d == a + ":" + b + ":" + (c + ":" + d)
    ensures a + ":" + (b + ":" + c) + ":" + d == (a + ":" + b) + ":" + c + ":" + d
    ensures a + ":" + b + ":" + (c + ":" + d) == a + ":" + (b + ":" + c) + ":" + d
  {
  }

  /** Another account under the same key: the colon is read as a separator, and a separator as part of a name. */
  lemma {:induction false} Namesake(a: Account) returns (b: Account)
    requires !(NoColon(a.venue) && NoColon(a.market) && NoColon(a.strategy))
    ensures b != a && Join(b) == Join(a)
  {
    if !NoColon(a.venue) {
      var x, y := ColonSplits(a.venue);
      b := Account(x, y, a.market + ":" + a.strategy);
      Regroup(x, y, a.market, a.strategy);
      assert |b.venue| != |a.venue|;
    } else if !NoColon(a.market) {
      var x, y := ColonSplits(a.market);
      b := Account(a.venue + ":" + x, y, a.strategy);
      Regroup(a.venue, x, y, a.strategy);
      assert |b.market| != |a.market|;
    } else {
      var x, y := ColonSplits(a.strategy);
      b := Account(a.venue, a.market + ":" + x, y);
      Regroup(a.venue, a.market, x, y);
      assert |b.strategy| != |a.strategy|;
    }
  }

  lemma {:induction false} NoNamesake(a: Account, b: Account)
    requires NoColon(a.venue) && NoColon(a.market) && NoColon(a.strategy) && Join(b) == Join(a)
    ensures b == a
  {
    var s := Join(a);
    var p, q := |a.venue|, |a.venue| + 1 + |a.market|;
    assert forall i :: 0 <= i < |s| && s[i] == ':' ==> i == p || i == q by {
      assert forall i :: 0 <= i < p ==> s[i] == a.venue[i];
      assert forall i :: p < i < q ==> s[i] == a.market[i - p - 1];
      assert forall i :: q < i < |s| ==> s[i] == a.strategy[i - q - 1];
    }
    var p', q' := |b.venue|, |b.venue| + 1 + |b.market|;
    assert Join(b)[p'] == ':' && Join(b)[q'] == ':';
    assert s[..p] == a.venue && Join(b)[..p'] == b.venue;
    assert s[p + 1..q] == a.market && Join(b)[p' + 1..q'] == b.market;
    assert s[q + 1..] == a.strategy && Join(b)[q' + 1..] == b.strategy;
  }

  /** Main result: an account shares its key with another one if and only if one of its names has a colon. */
  lemma {:induction false} KeySharedExactlyWhen(a: Account)
    ensures (exists b: Account :: b != a && Join(b) == Join(a))
            <==> ':' in a.venue || ':' in a.market || ':' in a.strategy
  {
    if NoColon(a.venue) && NoColon(a.market) && NoColon(a.strategy) {
      forall b: Account | Join(b) == Join(a) ensures b == a {
        NoNamesake(a, b);
      }
    } else {
      var b := Namesake(a);
    }
  }

  /** Two accounts under one key share one position: the second one's row takes the first one's fill as well. */
  lemma {:induction false} SharedKeyDoubles(p: Positions, a: Account, b: Account, side: Side, quantity: int, price: int,
                                            side': Side, quantity': int, price': int)
    requires a != b && Join(a) == Join(b)
    ensures var p1 := ReportFill(p, a, side, quantity, price);
      var p2, was := ReportFill(p1, b, side', quantity', price'), MemoryAt(p, Join(a)).contracts;
      p2.table[a].contracts == was + Signed(side, quantity)
      && p2.table[b].contracts == was + Signed(side, quantity) + Signed(side', quantity')
  {
  }

  // ---------- the table follows the fills ----------

  ghost predicate InSync(p: Positions)
  {
    && (forall a :: a in p.table ==> Separable(a) && Join(a) in p.memory && p.memory[Join(a)] == p.table[a])
    && (forall k :: k in p.memory ==> exists a :: a in p.table && Join(a) == k)
  }

  lemma {:induction false} MemoryIsTable(p: Positions, a: Account)
    requires InSync(p) && Separable(a)
    ensures MemoryAt(p, Join(a)).contracts == TableAt(p, a)
  {
    if Join(a) in p.memory {
      var b :| b in p.table && Join(b) == Join(a);
      JoinInjective(a, b);
    }
  }

  lemma {:induction false} ReportKeepsSync(p: Positions, a: Account, side: Side, quantity: int, price: int)
    requires InSync(p) && Separable(a)
    ensures InSync(ReportFill(p, a, side, quantity, price))
  {
    var p' := ReportFill(p, a, side, quantity, price);
    forall b | b in p'.table ensures Separable(b) && Join(b) in p'.memory && p'.memory[Join(b)] == p'.table[b] {
      if b != a && Join(b) == Join(a) {
        JoinInjective(a, b);
      }
    }
    forall k | k in p'.memory ensures exists b :: b in p'.table && Join(b) == k {
      if k == Join(a) {
        assert a in p'.table;
      } else {
        var b :| b in p.table && Join(b) == k;
        assert b in p'.table;
      }
    }
  }

  /**
   Main result: a fill moves the net of its market by its signed quantity if and only if memory and row agreed before
   it.
   */
  lemma {:induction false} NetMovesExactlyWhen(p: Positions, a: Account, side: Side, quantity: int, price: int)
    ensures Net(ReportFill(p, a, side, quantity, price), a.market) == Net(p, a.market) + Signed(side, quantity)
            <==> MemoryAt(p, Join(a)).contracts == TableAt(p, a)
  {
    NetChange(p, a, side, quantity, price, a.market);
  }

  lemma {:induction false} NetChange(p: Positions, a: Account, side: Side, quantity: int, price: int, market: string)
    ensures Net(ReportFill(p, a, side, quantity, price), market) == Net(p, market) +
      if a.market == market then MemoryAt(p, Join(a)).contracts - TableAt(p, a) + Signed(side, quantity) else 0
  {
    var p' := ReportFill(p, a, side, quantity, price);
    var all := p.table.Keys + {a};
    assert p'.table.Keys == all;
    if a !in p.table {
      SumSetInsert(p.table.Keys, a, InMarket(p, market));
    } else {
      assert all == p.table.Keys;
    }
    SumSetChange(all, a, InMarket(p, market), InMarket(p', market));
  }

  /** A fill moves the net position of its own market by its signed quantity. */
  lemma {:induction false} ReportMovesNet(p: Positions, a: Account, side: Side, quantity: int, price: int,
      market: string)
    requires InSync(p) && Separable(a)
    ensures Net(ReportFill(p, a, side, quantity, price), market)
         == Net(p, market) + if a.market == market then Signed(side, quantity) else 0
  {
    MemoryIsTable(p, a);
    NetChange(p, a, side, quantity, price, market);
  }

  // ---------- positions are the sums of the fills ----------

  datatype Report = Report(account: Account, side: Side, quantity: int, price: int)

  /** The positions after a run of reported fills. */
  function Reported(fills: seq<Report>): Positions
  {
    if fills == [] then NO_POSITIONS
    else
      var f := fills[|fills| - 1];
      ReportFill(Reported(fills[..|fills| - 1]), f.account, f.side, f.quantity, f.price)
  }

  /** Contracts a fill adds under a key: a buy adds its quantity, anything else takes it away. */
  function ContractsUnder(key: string): Report -> int
  {
    (f: Report) => if Join(f.account) != key then 0 else if f.side.Buy? then f.quantity else 0 - f.quantity
  }

  /** Notional a fill adds under a key, with the same sign. */
  function NotionalUnder(key: string): Report -> int
  {
    (f: Report) =>
      if Join(f.account) != key then 0 else if f.side.Buy? then f.quantity * f.price else 0 - f.quantity * f.price
  }

  /** Main result: after every run of fills each key holds the sums of the fills under it, contracts and notional. */
  lemma {:induction false} MemoryIsSums(fills: seq<Report>, key: string)
    ensures MemoryAt(Reported(fills), key).contracts == SumBy(fills, ContractsUnder(key))
    ensures MemoryAt(Reported(fills), key).notional == SumBy(fills, NotionalUnder(key))
    ensures key in Reported(fills).memory <==> exists i :: 0 <= i < |fills| && Join(fills[i].account) == key
  {
    if fills != [] {
      var n := |fills| - 1;
      MemoryIsSums(fills[..n], key);
      assert fills == fills[..n] + [fills[n]];
      SumAppend(fills[..n], fills[n], ContractsUnder(key));
      SumAppend(fills[..n], fills[n], NotionalUnder(key));
    }
  }

  /** .. and the row of an account holds what its key held when it last reported a fill. */
  lemma {:induction false} RowIsSums(fills: seq<Report>, i: nat)
    requires i < |fills| && forall j :: i < j < |fills| ==> fills[j].account != fills[i].account
    ensures var a, key := fills[i].account, Join(fills[i].account);
      a in Reported(fills).table
      && Reported(fills).table[a]
         == MarketState(SumBy(fills[..i + 1], ContractsUnder(key)), SumBy(fills[..i + 1], NotionalUnder(key)))
  {
    var n := |fills| - 1;
    if i < n {
      RowIsSums(fills[..n], i);
      assert fills[..n][..i + 1] == fills[..i + 1];
    } else {
      assert fills[..i + 1] == fills;
      MemoryIsSums(fills, Join(fills[i].account));
    }
  }
}
