/** Order sides, the order status graph and the validation of proposed orders. */
module Orders {

  datatype Option<+T> = None | Some(value: T)

  datatype Result<+T> = Ok(value: T) | Err(error: string)

  /** The source keeps a side as text; anything but "buy" and "sell" is `OtherSide`. */
  datatype Side = Buy | Sell | OtherSide(text: string)
  {
    predicate IsValid() { Buy? || Sell? }

    function Text(): string
    {
      match this
      case Buy => "buy"
      case Sell => "sell"
      case OtherSide(t) => t
    }
  }

  /** A quantity with the sign of its side: only a buy adds. */
  function Signed(side: Side, n: int): int { if side.Buy? then n else -n }

  /** A market's net contracts in a position map; a market without an entry has none. */
  function PositionAt(positions: map<string, int>, market: string): int
  {
    if market in positions then positions[market] else 0
  }

  datatype OrderStatus =
    | Pending | Open | PartiallyFilled
    | Filled | Cancelled | Rejected | Expired | Failed
  {
    predicate IsTerminal() { Filled? || Cancelled? || Rejected? || Expired? || Failed? }
  }

  /** The table of legal next statuses; None where the table has no entry. */
  function AllowedNext(from: OrderStatus): Option<seq<OrderStatus>>
  {
    match from
    case Pending => Some([Open, Rejected, Failed, Filled])
    case Open => Some([PartiallyFilled, Filled, Cancelled, Expired])
    case PartiallyFilled => Some([PartiallyFilled, Filled, Cancelled])
    case _ => None
  }

  /** Searches the table row; true exactly when `to` is listed for `from`. */
  predicate ValidTransition(from: OrderStatus, to: OrderStatus)
  {
    AllowedNext(from).Some? && to in AllowedNext(from).value
  }

  /** The graph, edge by edge. */
  lemma {:induction false} TransitionExactly(from: OrderStatus, to: OrderStatus)
    ensures ValidTransition(from, to) <==>
      || (from == Pending && (to == Open || to == Rejected || to == Failed || to == Filled))
      || (from == Open && (to == PartiallyFilled || to == Filled || to == Cancelled || to == Expired))
      || (from == PartiallyFilled && (to == PartiallyFilled || to == Filled || to == Cancelled))
  {
  }

  /** How far a status is along the graph: strictly rises on every legal move but the partial-fill loop. */
  function Progress(s: OrderStatus): nat
  {
    match s
    case Pending => 0
    case Open => 1
    case PartiallyFilled => 2
    case _ => 3
  }

  ghost predicate LegalPath(path: seq<OrderStatus>)
  {
    forall i :: 0 < i < |path| ==> ValidTransition(path[i - 1], path[i])
  }

  /** Along any legal history a terminal status can only be the last one, and it is one without successors. */
  lemma {:induction false} TerminalIsLast(path: seq<OrderStatus>, i: nat, j: nat)
    requires LegalPath(path) && i < j < |path|
    ensures !path[i].IsTerminal()
    ensures Progress(path[i]) <= Progress(path[j])
    ensures path[i] == path[j] ==> path[i] == PartiallyFilled
    ensures forall s: OrderStatus :: s.IsTerminal() <==> forall t :: !ValidTransition(s, t)
    decreases j - i
  {
    forall s: OrderStatus ensures s.IsTerminal() <==> forall t :: !ValidTransition(s, t) {
      if !s.IsTerminal() {
        assert ValidTransition(s, Filled);
      }
    }
    assert ValidTransition(path[i], path[i + 1]);
    if i + 1 < j {
      TerminalIsLast(path, i + 1, j);
    }
  }

  datatype ProposedOrder = ProposedOrder(
    trace: string, strategy: string, venue: string, market: string, side: Side,
    quantity: int, price: int, notional: int, proposedAt: int)

  /** The fields every intent must carry; shared by the order and the intent checks. */
  predicate WellFormed(o: ProposedOrder)
  {
    && o.trace != "" && o.strategy != "" && o.market != ""
    && o.side.IsValid()
    && o.quantity > 0
    && 0 < o.price < 1_000_000
    && o.notional > 0
  }

  /** ProposedOrder.Validate: well formed and priced consistently. */
  predicate ValidOrder(o: ProposedOrder)
  {
    WellFormed(o) && o.notional == o.quantity * o.price
  }

  function Decimal(n: int): string
    decreases if n < 0 then 1 - n else n
  {
    if n < 0 then "-" + Decimal(-n)
    else if n < 10 then [('0' as int + n) as char]
    else Decimal(n / 10) + Decimal(n % 10)
  }

  /** strategy:venue:market:side:price, joined as text. */
  function IdempotencyKey(o: ProposedOrder): string
  {
    o.strategy + ":" + o.venue + ":" + o.market + ":" + o.side.Text() + ":" + Decimal(o.price)
  }

  predicate NoColon(s: string) { ':' !in s }

  /** Before its first colon a joined text has one part only. */
  lemma {:induction false} FirstColonSplits(a: string, r: string, b: string, t: string)
    requires NoColon(a) && NoColon(b) && a + ":" + r == b + ":" + t
    ensures a == b && r == t
  {
    var s := a + ":" + r;
    assert s[|a|] == ':' && s[|b|] == ':';
    assert forall i :: 0 <= i < |a| ==> s[i] == a[i] && a[i] != ':';
    assert forall i :: 0 <= i < |b| ==> s[i] == b[i] && b[i] != ':';
    assert s[..|a|] == a && s[..|b|] == b;
    assert s[|a| + 1..] == r && s[|b| + 1..] == t;
  }

  // ---------- what the key tells apart ----------

  predicate IsDigit(c: char) { '0' <= c <= '9' }

  lemma {:induction false} DecimalDigits(n: nat)
    ensures |Decimal(n)| >= 1 && (n >= 10 ==> |Decimal(n)| >= 2) && (n < 10 ==> |Decimal(n)| == 1)
    ensures forall i :: 0 <= i < |Decimal(n)| ==> IsDigit(Decimal(n)[i])
  {
    if n >= 10 {
      DecimalDigits(n / 10);
    }
  }

  lemma {:induction false} DecimalLast(n: nat)
    requires n >= 10
    ensures |Decimal(n)| == |Decimal(n / 10)| + 1 && Decimal(n)[..|Decimal(n / 10)|] == Decimal(n / 10)
    ensures Decimal(n)[|Decimal(n / 10)|] == ('0' as int + n % 10) as char
  {
    assert Decimal(n % 10) == [('0' as int + n % 10) as char];
  }

  lemma {:induction false} NaturalsTold(m: nat, n: nat)
    requires Decimal(m) == Decimal(n)
    ensures m == n
  {
    DecimalDigits(m);
    DecimalDigits(n);
    if m >= 10 {
      DecimalLast(m);
      DecimalLast(n);
      NaturalsTold(m / 10, n / 10);
    }
  }

  lemma {:induction false} NegativeStarts(n: int)
    requires n < 0
    ensures |Decimal(n)| > 0 && Decimal(n)[0] == '-'
  {
  }

  /** Different numbers have different texts. */
  lemma {:induction false} NumbersTold(m: int, n: int)
    requires Decimal(m) == Decimal(n)
    ensures m == n
  {
    if m >= 0 && n >= 0 {
      NaturalsTold(m, n);
    } else if m < 0 && n < 0 {
      assert Decimal(m)[1..] == Decimal(-m) && Decimal(n)[1..] == Decimal(-n);
      NaturalsTold(-m, -n);
    } else {
      DecimalDigits(if m >= 0 then m else n);
      NegativeStarts(if m < 0 then m else n);
    }
  }

  predicate NamesPlain(o: ProposedOrder) { NoColon(o.strategy) && NoColon(o.venue) && NoColon(o.market) }

  lemma {:induction false} KeyParts(o: ProposedOrder)
    ensures IdempotencyKey(o)
         == o.strategy + ":" + (o.venue + ":" + (o.market + ":" + (o.side.Text() + ":" + Decimal(o.price))))
  {
  }

  /** Main result: orders of plain names and a valid side have one key if and only if these five fields are the same. */
  lemma {:induction false} KeySharedByExactly(o: ProposedOrder, p: ProposedOrder)
    requires NamesPlain(o) && NamesPlain(p) && (o.side == Buy || o.side == Sell) && (p.side == Buy || p.side == Sell)
    ensures IdempotencyKey(o) == IdempotencyKey(p) <==>
      o.strategy == p.strategy && o.venue == p.venue && o.market == p.market && o.side == p.side && o.price == p.price
  {
    KeyParts(o);
    KeyParts(p);
    if IdempotencyKey(o) == IdempotencyKey(p) {
      var so, sp := o.side.Text() + ":" + Decimal(o.price), p.side.Text() + ":" + Decimal(p.price);
      var mo, mp := o.market + ":" + so, p.market + ":" + sp;
      FirstColonSplits(o.strategy, o.venue + ":" + mo, p.strategy, p.venue + ":" + mp);
      FirstColonSplits(o.venue, mo, p.venue, mp);
      FirstColonSplits(o.market, so, p.market, sp);
      SideTexts(o.side);
      SideTexts(p.side);
      FirstColonSplits(o.side.Text(), Decimal(o.price), p.side.Text(), Decimal(p.price));
      NumbersTold(o.price, p.price);
    }
  }

  lemma {:induction false} SideTexts(s: Side)
    requires s == Buy || s == Sell
    ensures NoColon(s.Text()) && (s == Buy <==> s.Text() == "buy") && (s == Sell <==> s.Text() == "sell")
  {
    assert "buy"[0] == 'b' && "sell"[0] == 's';
  }

  /** The key of one order, spelled out. */
  lemma {:induction false} KeyOfSample(trace: string, quantity: int, notional: int, at: int)
    ensures IdempotencyKey(ProposedOrder(trace, "s", "mock", "m", Sell, quantity, 7, notional, at)) == "s:mock:m:sell:7"
  {
    assert Decimal(7) == "7";
  }
}
