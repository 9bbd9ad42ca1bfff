/** The risk engine's rate tracking: order frequency per strategy and repeated orders. Times are nanoseconds. */
module RateLimits {
  import opened Modes
  import opened Orders

  const SECOND := 1_000_000_000
  const MINUTE := 60 * SECOND
  const REPEAT := 30 * SECOND

  /** `times`, `keys` and `notionals` hold what approvals have recorded. */
  datatype Tracking = Tracking(
    mode: Mode, times: map<string, seq<int>>, keys: map<string, int>, notionals: map<string, seq<int>>)

  const NO_TRACKING := Tracking(Normal, map[], map[], map[])

  /**
   One call of EvaluateOrder: the order's strategy, idempotency key, notional and validity, the system mode, the clock
   readings of the frequency check, of the duplicate check and of the record, and whether the other checks pass.
   */
  datatype Call = Call(
    strategy: string, key: string, notional: int, valid: bool, mode: Mode,
    freqAt: int, dupAt: int, recordAt: int, othersPass: bool)

  function CallFor(o: ProposedOrder, mode: Mode, freqAt: int, dupAt: int, recordAt: int, othersPass: bool): Call
  {
    Call(o.strategy, IdempotencyKey(o), o.notional, ValidOrder(o), mode, freqAt, dupAt, recordAt, othersPass)
  }

  function CountAfter(ts: seq<int>, t: int): nat
  {
    if ts == [] then 0 else CountAfter(ts[..|ts| - 1], t) + if ts[|ts| - 1] > t then 1 else 0
  }

  predicate FrequencyOk(s: Tracking, strategy: string, now: int, limit: int)
  {
    strategy !in s.times || CountAfter(s.times[strategy], now - MINUTE) < limit
  }

  predicate DuplicateOk(s: Tracking, key: string, now: int)
  {
    key !in s.keys || now - s.keys[key] >= REPEAT
  }

  predicate Approves(s: Tracking, c: Call, limit: int)
  {
    && c.valid && c.mode == Normal
    && FrequencyOk(s, c.strategy, c.freqAt, limit)
    && DuplicateOk(s, c.key, c.dupAt)
    && c.othersPass
  }

  function TimesOf(s: Tracking, strategy: string): seq<int>
  {
    if strategy in s.times then s.times[strategy] else []
  }

  function NotionalsOf(s: Tracking, strategy: string): seq<int>
  {
    if strategy in s.notionals then s.notionals[strategy] else []
  }

  function Evaluated(s: Tracking, c: Call, limit: int): Tracking
  {
    var s' := s.(mode := c.mode);
    if !Approves(s, c, limit) then s'
    else s'.(times := s.times[c.strategy := TimesOf(s, c.strategy) + [c.recordAt]],
             keys := s.keys[c.key := c.recordAt],
             notionals := s.notionals[c.strategy := NotionalsOf(s, c.strategy) + [c.notional]])
  }

  predicate Forward(c: Call) { c.freqAt <= c.dupAt <= c.recordAt }

  /** A serial run: clocks do not go backwards within a call or from one call to the next. */
  predicate Serial(calls: seq<Call>)
  {
    && (forall i :: 0 <= i < |calls| ==> Forward(calls[i]))
    && (forall i, j :: 0 <= i < j < |calls| ==> calls[i].recordAt <= calls[j].freqAt)
  }

  function After(calls: seq<Call>, limit: int): Tracking
  {
    if calls == [] then NO_TRACKING else Evaluated(After(calls[..|calls| - 1], limit), calls[|calls| - 1], limit)
  }

  predicate Approved(calls: seq<Call>, i: nat, limit: int)
  {
    i < |calls| && Approves(After(calls[..i], limit), calls[i], limit)
  }

  /** The record times of a strategy's approvals, in order. */
  function ApprovalTimes(calls: seq<Call>, strategy: string, limit: int): seq<int>
  {
    if calls == [] then []
    else
      var n := |calls| - 1;
      var init := ApprovalTimes(calls[..n], strategy, limit);
      if Approves(After(calls[..n], limit), calls[n], limit) && calls[n].strategy == strategy
      then init + [calls[n].recordAt] else init
  }

  /** The notionals of a strategy's approvals, in order. */
  function ApprovalNotionals(calls: seq<Call>, strategy: string, limit: int): seq<int>
  {
    if calls == [] then []
    else
      var n := |calls| - 1;
      var init := ApprovalNotionals(calls[..n], strategy, limit);
      if Approves(After(calls[..n], limit), calls[n], limit) && calls[n].strategy == strategy
      then init + [calls[n].notional] else init
  }

  /** How many of the times fall into the minute from w on, its end excluded. */
  function InMinute(ts: seq<int>, w: int): nat
  {
    if ts == [] then 0 else InMinute(ts[..|ts| - 1], w) + if w <= ts[|ts| - 1] < w + MINUTE then 1 else 0
  }

  // ---------- frequency ----------

  lemma {:induction false} TimesAreApprovals(calls: seq<Call>, strategy: string, limit: int)
    ensures TimesOf(After(calls, limit), strategy) == ApprovalTimes(calls, strategy, limit)
    ensures strategy in After(calls, limit).times <==> ApprovalTimes(calls, strategy, limit) != []
  {
    if calls != [] {
      TimesAreApprovals(calls[..|calls| - 1], strategy, limit);
    }
  }

  /** Each approval's notional stands beside its time. */
  lemma {:induction false} NotionalsAreApprovals(calls: seq<Call>, strategy: string, limit: int)
    ensures NotionalsOf(After(calls, limit), strategy) == ApprovalNotionals(calls, strategy, limit)
    ensures |ApprovalNotionals(calls, strategy, limit)| == |ApprovalTimes(calls, strategy, limit)|
  {
    if calls != [] {
      NotionalsAreApprovals(calls[..|calls| - 1], strategy, limit);
    }
  }

  /** A window that ends after the check's minute began lies inside that minute, for what was already recorded. */
  lemma {:induction false} WindowIsCounted(ts: seq<int>, w: int, check: int)
    requires check < w + MINUTE
    ensures InMinute(ts, w) <= CountAfter(ts, check - MINUTE)
  {
    if ts != [] {
      WindowIsCounted(ts[..|ts| - 1], w, check);
    }
  }

  lemma {:induction false} InMinuteAppend(ts: seq<int>, t: int, w: int)
    ensures InMinute(ts + [t], w) == InMinute(ts, w) + if w <= t < w + MINUTE then 1 else 0
  {
    assert (ts + [t])[..|ts|] == ts;
  }

  lemma {:induction false} OneMoreApproval(ts: seq<int>, check: int, record: int, limit: int, w: int)
    requires check <= record && (ts == [] || CountAfter(ts, check - MINUTE) < limit)
    requires InMinute(ts, w) <= if limit > 1 then limit else 1
    ensures InMinute(ts + [record], w) <= if limit > 1 then limit else 1
  {
    InMinuteAppend(ts, record, w);
    if record < w + MINUTE {
      WindowIsCounted(ts, w, check);
    }
  }

  /** The last call adds nothing, or adds its record time after a check of what was there. */
  lemma {:induction false} LastCall(calls: seq<Call>, strategy: string, limit: int)
    requires calls != []
    ensures var n := |calls| - 1;
      var ts, ts' := ApprovalTimes(calls[..n], strategy, limit), ApprovalTimes(calls, strategy, limit);
      ts' == ts || (ts' == ts + [calls[n].recordAt] && (ts == [] || CountAfter(ts, calls[n].freqAt - MINUTE) < limit))
  {
    TimesAreApprovals(calls[..|calls| - 1], strategy, limit);
  }

  /**
   Main result: over every run, any half-open minute holds at most max(1, limit) approvals of a strategy,
   although approvals are recorded at a later clock reading than the one that was checked.
   */
  lemma {:induction false} MinuteHoldsLimit(calls: seq<Call>, strategy: string, limit: int, w: int)
    requires forall i :: 0 <= i < |calls| ==> Forward(calls[i])
    ensures InMinute(ApprovalTimes(calls, strategy, limit), w) <= if limit > 1 then limit else 1
  {
    if calls != [] {
      var n := |calls| - 1;
      MinuteHoldsLimit(calls[..n], strategy, limit, w);
      LastCall(calls, strategy, limit);
      var ts := ApprovalTimes(calls[..n], strategy, limit);
      if ApprovalTimes(calls, strategy, limit) != ts {
        assert Forward(calls[n]);
        OneMoreApproval(ts, calls[n].freqAt, calls[n].recordAt, limit, w);
      }
    }
  }

  // ---------- repeated orders ----------

  /** The key's last record is not older than any approval with that key. */
  lemma {:induction false} KeyIsRemembered(calls: seq<Call>, i: nat, n: nat, limit: int)
    requires Serial(calls) && i < n <= |calls| && Approved(calls, i, limit)
    ensures var s, key := After(calls[..n], limit), calls[i].key;
      key in s.keys && s.keys[key] >= calls[i].recordAt
    decreases n
  {
    assert calls[..n][..n - 1] == calls[..n - 1];
    if i < n - 1 {
      KeyIsRemembered(calls, i, n - 1, limit);
    }
  }

  /** Main result: two approvals under one idempotency key are at least thirty seconds apart. */
  lemma {:induction false} RepeatsAreApart(calls: seq<Call>, i: nat, j: nat, limit: int)
    requires Serial(calls) && i < j && Approved(calls, i, limit) && Approved(calls, j, limit)
    requires calls[i].key == calls[j].key
    ensures calls[j].recordAt - calls[i].recordAt >= REPEAT
  {
    KeyIsRemembered(calls, i, j, limit);
  }

  // ---------- which calls are approved ----------

  /** How many of the first n calls were admitted for the strategy and recorded later than `since`. */
  ghost function AdmittedLater(calls: seq<Call>, n: nat, strategy: string, since: int, limit: int): nat
    requires n <= |calls|
    decreases n, 0
  {
    if n == 0 then 0
    else
      var last := calls[n - 1];
      AdmittedLater(calls, n - 1, strategy, since, limit) +
      if Admitted(calls, n - 1, limit) && last.strategy == strategy && last.recordAt > since then 1 else 0
  }

  /** The rules of approval in terms of the calls alone; times are nanoseconds. */
  ghost predicate Admitted(calls: seq<Call>, i: nat, limit: int)
    requires i < |calls|
    decreases i, 1
  {
    var c := calls[i];
    && c.valid && c.mode == Normal && c.othersPass
    && ((forall j: nat :: j < i && Admitted(calls, j, limit) ==> calls[j].strategy != c.strategy)
        || AdmittedLater(calls, i, c.strategy, c.freqAt - 60_000_000_000, limit) < limit)
    && (forall j: nat :: j < i && Admitted(calls, j, limit) && calls[j].key == c.key ==>
          c.dupAt - calls[j].recordAt >= 30_000_000_000)
  }

  /** Approved and admitted are the same for the first n calls. */
  ghost predicate SameBefore(calls: seq<Call>, n: nat, limit: int)
    requires n <= |calls|
  {
    forall j: nat :: j < n ==> (Approved(calls, j, limit) <==> Admitted(calls, j, limit))
  }

  lemma {:induction false} ApprovalTimesStep(calls: seq<Call>, n: nat, strategy: string, limit: int)
    requires 0 < n <= |calls|
    ensures ApprovalTimes(calls[..n], strategy, limit)
         == ApprovalTimes(calls[..n - 1], strategy, limit)
            + if Approved(calls, n - 1, limit) && calls[n - 1].strategy == strategy then [calls[n - 1].recordAt] else []
  {
    assert calls[..n][..n - 1] == calls[..n - 1];
  }

  lemma {:induction false} CountAfterAppend(ts: seq<int>, t: int, since: int)
    ensures CountAfter(ts + [t], since) == CountAfter(ts, since) + if t > since then 1 else 0
  {
    assert (ts + [t])[..|ts|] == ts;
  }

  lemma {:induction false} SameAt(calls: seq<Call>, n: nat, limit: int)
    requires 0 < n <= |calls| && SameBefore(calls, n, limit)
    ensures SameBefore(calls, n - 1, limit) && (Approved(calls, n - 1, limit) <==> Admitted(calls, n - 1, limit))
  {
  }

  lemma {:induction false} LaterIs(calls: seq<Call>, n: nat, strategy: string, since: int, limit: int, ok: bool)
    requires 0 < n <= |calls| && (ok <==> Admitted(calls, n - 1, limit))
    ensures AdmittedLater(calls, n, strategy, since, limit)
         == AdmittedLater(calls, n - 1, strategy, since, limit)
            + if ok && calls[n - 1].strategy == strategy && calls[n - 1].recordAt > since then 1 else 0
  {
  }

  lemma {:induction false} TimesStep(calls: seq<Call>, n: nat, strategy: string, since: int, limit: int, ok: bool)
    requires 0 < n <= |calls| && (ok <==> Approved(calls, n - 1, limit))
    ensures CountAfter(ApprovalTimes(calls[..n], strategy, limit), since)
         == CountAfter(ApprovalTimes(calls[..n - 1], strategy, limit), since)
            + if ok && calls[n - 1].strategy == strategy && calls[n - 1].recordAt > since then 1 else 0
  {
    var ts := ApprovalTimes(calls[..n - 1], strategy, limit);
    ApprovalTimesStep(calls, n, strategy, limit);
    CountAfterAppend(ts, calls[n - 1].recordAt, since);
    assert ts + [] == ts;
  }

  lemma {:induction false} CountIsAdmitted(calls: seq<Call>, n: nat, strategy: string, since: int, limit: int)
    requires n <= |calls| && SameBefore(calls, n, limit)
    ensures CountAfter(ApprovalTimes(calls[..n], strategy, limit), since)
         == AdmittedLater(calls, n, strategy, since, limit)
  {
    if n > 0 {
      SameAt(calls, n, limit);
      CountIsAdmitted(calls, n - 1, strategy, since, limit);
      TimesStep(calls, n, strategy, since, limit, Approved(calls, n - 1, limit));
      LaterIs(calls, n, strategy, since, limit, Approved(calls, n - 1, limit));
    }
  }

  /** A strategy with an approval has an admitted call .. */
  lemma {:induction false} SomeTimeSomeCall(calls: seq<Call>, n: nat, strategy: string, limit: int) returns (j: nat)
    requires n <= |calls| && ApprovalTimes(calls[..n], strategy, limit) != []
    ensures j < n && Approved(calls, j, limit) && calls[j].strategy == strategy
  {
    ApprovalTimesStep(calls, n, strategy, limit);
    if Approved(calls, n - 1, limit) && calls[n - 1].strategy == strategy {
      j := n - 1;
    } else {
      j := SomeTimeSomeCall(calls, n - 1, strategy, limit);
    }
  }

  /** .. and the other way round. */
  lemma {:induction false} SomeCallSomeTime(calls: seq<Call>, n: nat, j: nat, limit: int)
    requires j < n <= |calls| && Approved(calls, j, limit)
    ensures ApprovalTimes(calls[..n], calls[j].strategy, limit) != []
  {
    ApprovalTimesStep(calls, n, calls[j].strategy, limit);
    if j < n - 1 {
      SomeCallSomeTime(calls, n - 1, j, limit);
    }
  }

  lemma {:induction false} NoTimesExactly(calls: seq<Call>, n: nat, strategy: string, limit: int)
    requires n <= |calls| && SameBefore(calls, n, limit)
    ensures ApprovalTimes(calls[..n], strategy, limit) == []
            <==> forall j: nat :: j < n && Admitted(calls, j, limit) ==> calls[j].strategy != strategy
  {
    if ApprovalTimes(calls[..n], strategy, limit) != [] {
      var j := SomeTimeSomeCall(calls, n, strategy, limit);
      assert Admitted(calls, j, limit);
    } else {
      forall j: nat | j < n && Admitted(calls, j, limit) ensures calls[j].strategy != strategy {
        if calls[j].strategy == strategy {
          SomeCallSomeTime(calls, n, j, limit);
        }
      }
    }
  }

  /** What is remembered for a key is some approval's record time. */
  lemma {:induction false} RememberedIsApproval(calls: seq<Call>, n: nat, key: string, limit: int) returns (j: nat)
    requires n <= |calls| && key in After(calls[..n], limit).keys
    ensures j < n && Approved(calls, j, limit) && calls[j].key == key
    ensures calls[j].recordAt == After(calls[..n], limit).keys[key]
  {
    assert calls[..n][..n - 1] == calls[..n - 1];
    if Approved(calls, n - 1, limit) && calls[n - 1].key == key {
      j := n - 1;
    } else {
      j := RememberedIsApproval(calls, n - 1, key, limit);
    }
  }

  lemma {:induction false} DuplicateExactly(calls: seq<Call>, i: nat, limit: int)
    requires Serial(calls) && i < |calls| && SameBefore(calls, i, limit)
    ensures DuplicateOk(After(calls[..i], limit), calls[i].key, calls[i].dupAt)
            <==> forall j: nat :: j < i && Admitted(calls, j, limit) && calls[j].key == calls[i].key ==>
                   calls[i].dupAt - calls[j].recordAt >= 30_000_000_000
  {
    var s, key := After(calls[..i], limit), calls[i].key;
    if key in s.keys {
      var j := RememberedIsApproval(calls, i, key, limit);
      assert Admitted(calls, j, limit);
    }
    forall j: nat | j < i && Admitted(calls, j, limit) && calls[j].key == key
      ensures key in s.keys && s.keys[key] >= calls[j].recordAt {
      KeyIsRemembered(calls, j, i, limit);
    }
  }

  lemma {:induction false} FrequencyExactly(calls: seq<Call>, i: nat, limit: int)
    requires i < |calls| && SameBefore(calls, i, limit)
    ensures var c := calls[i];
      FrequencyOk(After(calls[..i], limit), c.strategy, c.freqAt, limit)
      <==> (forall j: nat :: j < i && Admitted(calls, j, limit) ==> calls[j].strategy != c.strategy)
           || AdmittedLater(calls, i, c.strategy, c.freqAt - 60_000_000_000, limit) < limit
  {
    var c := calls[i];
    TimesAreApprovals(calls[..i], c.strategy, limit);
    NoTimesExactly(calls, i, c.strategy, limit);
    CountIsAdmitted(calls, i, c.strategy, c.freqAt - 60_000_000_000, limit);
  }

  lemma {:induction false} SameForAll(calls: seq<Call>, n: nat, limit: int)
    requires Serial(calls) && n <= |calls|
    ensures SameBefore(calls, n, limit)
  {
    if n > 0 {
      SameForAll(calls, n - 1, limit);
      FrequencyExactly(calls, n - 1, limit);
      DuplicateExactly(calls, n - 1, limit);
      assert Approved(calls, n - 1, limit) <==> Admitted(calls, n - 1, limit);
    }
  }

  /**
   Main result: over every serial run a call is approved if and only if the order is valid, the mode is normal, the
   other checks pass, the strategy has no approval yet or fewer than the limit recorded in the minute before the
   frequency check, and no approval of the key was recorded less than 30 seconds before the duplicate check.
   */
  lemma {:induction false} ApprovedExactlyWhen(calls: seq<Call>, i: nat, limit: int)
    requires Serial(calls) && i < |calls|
    ensures Approved(calls, i, limit) <==> Admitted(calls, i, limit)
  {
    SameForAll(calls, i + 1, limit);
  }
}
