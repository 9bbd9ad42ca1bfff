/** The daily statistics the risk engine keeps: fills and turnover per date and scope. */
module DailyStats {
  import opened Sums
  import opened RiskPositions

  datatype Stat = Stat(fills: int, turnover: int)

  type Stats = map<(string, string), Stat>

  /** A reported fill, as far as the statistics see it. */
  datatype Counted = Counted(date: string, account: Account, notional: int)

  function Magnitude(x: int): int { if x < 0 then -x else x }

  function StatAt(s: Stats, date: string, scope: string): Stat
  {
    if (date, scope) in s then s[(date, scope)] else Stat(0, 0)
  }

  /** The scopes a fill is counted under. */
  function Scopes(a: Account): seq<string>
  {
    ["global", "venue:" + a.venue, "strategy:" + a.strategy]
  }

  /** The upsert of one scope's row. */
  function CountedOne(s: Stats, f: Counted, scope: string): Stats
  {
    var was := StatAt(s, f.date, scope);
    s[(f.date, scope) := Stat(was.fills + 1, was.turnover + Magnitude(f.notional))]
  }

  function CountedIn(s: Stats, f: Counted, scopes: seq<string>): Stats
  {
    if scopes == [] then s
    else CountedOne(CountedIn(s, f, scopes[..|scopes| - 1]), f, scopes[|scopes| - 1])
  }

  function StatsAfter(fills: seq<Counted>): Stats
  {
    if fills == [] then map[]
    else var f := fills[|fills| - 1]; CountedIn(StatsAfter(fills[..|fills| - 1]), f, Scopes(f.account))
  }

  predicate FallsUnder(f: Counted, date: string, scope: string) { f.date == date && scope in Scopes(f.account) }

  function OneIf(date: string, scope: string): Counted -> int
  {
    (f: Counted) => if FallsUnder(f, date, scope) then 1 else 0
  }

  function TurnoverIf(date: string, scope: string): Counted -> int
  {
    (f: Counted) => if !FallsUnder(f, date, scope) then 0 else if f.notional < 0 then -f.notional else f.notional
  }

  predicate Distinct(scopes: seq<string>)
  {
    forall i, j :: 0 <= i < j < |scopes| ==> scopes[i] != scopes[j]
  }

  lemma {:induction false} ScopesDistinct(a: Account)
    ensures Distinct(Scopes(a))
  {
    assert "global"[0] == 'g' && ("venue:" + a.venue)[0] == 'v' && ("strategy:" + a.strategy)[0] == 's';
  }

  lemma {:induction false} CountedOnce(s: Stats, f: Counted, scopes: seq<string>, date: string, scope: string)
    requires Distinct(scopes)
    ensures var was := StatAt(s, date, scope);
      StatAt(CountedIn(s, f, scopes), date, scope)
      == if f.date == date && scope in scopes then Stat(was.fills + 1, was.turnover + Magnitude(f.notional)) else was
  {
    if scopes != [] {
      var n := |scopes| - 1;
      CountedOnce(s, f, scopes[..n], date, scope);
      assert scope in scopes <==> scope in scopes[..n] || scope == scopes[n];
      assert scopes[n] !in scopes[..n];
    }
  }

  /** Main result: after every run of fills each row holds the count and the turnover of the fills under it. */
  lemma {:induction false} StatsAreSums(fills: seq<Counted>, date: string, scope: string)
    ensures StatAt(StatsAfter(fills), date, scope)
         == Stat(SumBy(fills, OneIf(date, scope)), SumBy(fills, TurnoverIf(date, scope)))
  {
    if fills != [] {
      var n := |fills| - 1;
      StatsAreSums(fills[..n], date, scope);
      ScopesDistinct(fills[n].account);
      CountedOnce(StatsAfter(fills[..n]), fills[n], Scopes(fills[n].account), date, scope);
      assert fills == fills[..n] + [fills[n]];
      SumAppend(fills[..n], fills[n], OneIf(date, scope));
      SumAppend(fills[..n], fills[n], TurnoverIf(date, scope));
    }
  }

  function OnDate(date: string): Counted -> int { (f: Counted) => if f.date == date then 1 else 0 }

  function AtVenue(date: string, venue: string): Counted -> int
  {
    (f: Counted) => if f.date == date && f.account.venue == venue then 1 else 0
  }

  function ByStrategy(date: string, strategy: string): Counted -> int
  {
    (f: Counted) => if f.date == date && f.account.strategy == strategy then 1 else 0
  }

  lemma {:induction false} ScopeNames(a: Account, name: string)
    ensures "global" in Scopes(a)
    ensures "venue:" + name in Scopes(a) <==> a.venue == name
    ensures "strategy:" + name in Scopes(a) <==> a.strategy == name
  {
    assert Scopes(a)[0] == "global" && Scopes(a)[1] == "venue:" + a.venue && Scopes(a)[2] == "strategy:" + a.strategy;
    assert "global"[0] == 'g' && ("venue:" + name)[0] == 'v' && ("strategy:" + name)[0] == 's';
    assert ("venue:" + name)[6..] == name && ("venue:" + a.venue)[6..] == a.venue;
    assert ("strategy:" + name)[9..] == name && ("strategy:" + a.strategy)[9..] == a.strategy;
    assert ("venue:" + a.venue)[0] == 'v' && ("strategy:" + a.strategy)[0] == 's';
    assert "venue:" + name in Scopes(a) ==> "venue:" + name == Scopes(a)[1];
    assert "strategy:" + name in Scopes(a) ==> "strategy:" + name == Scopes(a)[2];
  }

  /** The scopes by name: the global row counts every fill of its date, a venue's and a strategy's row theirs. */
  lemma {:induction false} NamedScopesCount(fills: seq<Counted>, date: string, name: string)
    ensures StatAt(StatsAfter(fills), date, "global").fills == SumBy(fills, OnDate(date))
    ensures StatAt(StatsAfter(fills), date, "venue:" + name).fills == SumBy(fills, AtVenue(date, name))
    ensures StatAt(StatsAfter(fills), date, "strategy:" + name).fills == SumBy(fills, ByStrategy(date, name))
  {
    StatsAreSums(fills, date, "global");
    StatsAreSums(fills, date, "venue:" + name);
    StatsAreSums(fills, date, "strategy:" + name);
    forall i | 0 <= i < |fills|
      ensures OneIf(date, "global")(fills[i]) == OnDate(date)(fills[i])
      ensures OneIf(date, "venue:" + name)(fills[i]) == AtVenue(date, name)(fills[i])
      ensures OneIf(date, "strategy:" + name)(fills[i]) == ByStrategy(date, name)(fills[i]) {
      ScopeNames(fills[i].account, name);
    }
    SumSame(fills, OneIf(date, "global"), OnDate(date));
    SumSame(fills, OneIf(date, "venue:" + name), AtVenue(date, name));
    SumSame(fills, OneIf(date, "strategy:" + name), ByStrategy(date, name));
  }
}
