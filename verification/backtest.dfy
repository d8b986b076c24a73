/**
 * The walk-forward simulator `Backtester.run_walk_forward_simulation` of
 * src/backtest.py: sort the history by date, keep the last 50 rows, and for
 * each row ask the predictor, size the stake with `calculate_stake` at
 * quarter Kelly and a 5% cap on the current bankroll, settle it against the
 * full-time result, and log the row and the new balance.
 */
module Backtest {
  import opened Common
  import opened Chrono
  import Finance

  /** How many of the most recent rows the walk-forward run replays. */
  const WalkWindowSize: nat := 50
  /** The Kelly multiplier the run passes to the stake rule. */
  const KellyFraction: real := 0.25
  /** The cap the run passes to the stake rule. */
  const MaxCap: real := 0.05

  /** One row of the walk-forward history. */
  datatype WalkRecord = WalkRecord(
    date: int,
    matchLabel: string,
    predictionProb: real,
    odds: real,
    stake: real,
    result: string,
    outcome: Tag,
    pnl: real,
    bankroll: real)

  /** One point of the balance curve. */
  datatype BalancePoint = BalancePoint(date: int, balance: real)

  /** The two tables the run returns. */
  datatype WalkLedger = WalkLedger(history: seq<WalkRecord>, curve: seq<BalancePoint>)

  /** The money stake the rule approves on the current bankroll. */
  function WalkStake(p: real, oddsH: real, bank: real): (stake: real) {
    Finance.CalculateStake(p, oddsH, bank, KellyFraction, MaxCap).stakeVal
  }

  /** One iteration of the loop, from the balance before the row. */
  function WalkStep(e: Event, probs: Probs, bank: real): (rec: WalkRecord) {
    var stake := WalkStake(probs.h, e.oddsH, bank);
    var res := Settle(stake, e.oddsH, e.ftr);
    WalkRecord(e.date, MatchLabel(e), probs.h, e.oddsH, stake, e.ftr, res.outcome, res.pnl, bank + res.pnl)
  }

  /** The loop over the window, threading the balance; the history and the
      balance after each row. */
  function WalkFold(events: seq<Event>, predict: Predictor, bank: real): (l: WalkLedger)
    ensures |l.history| == |events| && |l.curve| == |events|
    ensures forall i :: 0 <= i < |events| ==> l.history[i].date == events[i].date
    ensures forall i :: 0 <= i < |events| ==>
      l.curve[i] == BalancePoint(l.history[i].date, l.history[i].bankroll)
    decreases |events|
  {
    if |events| == 0 then WalkLedger([], [])
    else
      var rec := WalkStep(events[0], predict(events[0]), bank);
      var rest := WalkFold(events[1..], predict, rec.bankroll);
      WalkLedger([rec] + rest.history, [BalancePoint(rec.date, rec.bankroll)] + rest.curve)
  }

  /** The rows the run replays: the last 50 of the date-sorted history. */
  function WalkWindow(events: seq<Event>): (w: seq<Event>) {
    Tail(SortByDate(events), WalkWindowSize)
  }

  /** `run_walk_forward_simulation(df, model_engine, initial_bankroll)`. An
      empty history fails where the source reads the first row's date. */
  function RunWalkForward(events: seq<Event>, predict: Predictor, initial: real): (r: Result<WalkLedger>)
    ensures r.Err? <==> |events| == 0
    ensures r.Ok? ==>
      && |r.value.history| == (if |events| <= WalkWindowSize then |events| else WalkWindowSize)
      && |r.value.curve| == |r.value.history| + 1
      && r.value.curve[0] == BalancePoint(WalkWindow(events)[0].date, initial)
      && (forall i :: 0 <= i < |r.value.history| ==>
            r.value.curve[i + 1] == BalancePoint(r.value.history[i].date, r.value.history[i].bankroll))
      && (forall i, j :: 0 <= i < j < |r.value.history| ==> r.value.history[i].date <= r.value.history[j].date)
  {
    var window := WalkWindow(events);
    TailOfSorted(SortByDate(events), WalkWindowSize);
    if |window| == 0 then Err(EmptyHistory)
    else
      var l := WalkFold(window, predict, initial);
      DatedLikeSorted(window, l.history, (rec: WalkRecord) => rec.date);
      Ok(WalkLedger(l.history, [BalancePoint(window[0].date, initial)] + l.curve))
  }

  // ---------------------------------------------------------------------
  // Per-row facts, stated independently of the loop's bookkeeping.
  // ---------------------------------------------------------------------

  /** The balance before row `i` of a history that started from `start`. */
  function WalkBankBefore(start: real, history: seq<WalkRecord>, i: nat): (b: real)
    requires i <= |history|
  {
    if i == 0 then start else history[i - 1].bankroll
  }

  /** What one history row says about its fixture, given the balance before
      it: the stake is what `calculate_stake` approves on that balance, a
      home win pays `stake * odds - stake`, any other result loses the
      stake, no positive stake means a skip, and the balance moves by the
      P&L. */
  ghost predicate WalkStepFollows(e: Event, probs: Probs, before: real, rec: WalkRecord) {
    && rec.date == e.date
    && rec.matchLabel == MatchLabel(e)
    && rec.predictionProb == probs.h
    && rec.odds == e.oddsH
    && rec.result == e.ftr
    && rec.stake == Finance.CalculateStake(probs.h, e.oddsH, before, 0.25, 0.05).stakeVal
    && (rec.stake > 0.0 && e.ftr == "H" ==> rec.outcome == Win && rec.pnl == rec.stake * e.oddsH - rec.stake)
    && (rec.stake > 0.0 && e.ftr != "H" ==> rec.outcome == Loss && rec.pnl == -rec.stake)
    && (rec.stake <= 0.0 ==> rec.outcome == Skip && rec.pnl == 0.0)
    && rec.bankroll == before + rec.pnl
  }

  /** `history` records `events` one for one, each from the balance the
      previous record left, starting from `start`. */
  ghost predicate WalkFollowsAll(events: seq<Event>, predict: Predictor, start: real, history: seq<WalkRecord>) {
    && |history| == |events|
    && forall i {:trigger WalkStepFollows(events[i], predict(events[i]), WalkBankBefore(start, history, i), history[i])} ::
         0 <= i < |events| ==> WalkStepFollows(events[i], predict(events[i]), WalkBankBefore(start, history, i), history[i])
  }

  /** One loop iteration follows its row. */
  lemma WalkStepFollowsRow(e: Event, probs: Probs, bank: real)
    ensures WalkStepFollows(e, probs, bank, WalkStep(e, probs, bank))
  {
    var rec := WalkStep(e, probs, bank);
    if rec.stake > 0.0 && e.ftr == "H" {
      assert rec.stake * (e.oddsH - 1.0) == rec.stake * e.oddsH - rec.stake;
    }
  }

  /** Every record of the fold follows its row from the balance the
      previous record left. */
  lemma {:induction false} WalkFoldFollows(events: seq<Event>, predict: Predictor, bank: real)
    ensures WalkFollowsAll(events, predict, bank, WalkFold(events, predict, bank).history)
    decreases |events|
  {
    if |events| > 0 {
      var h := WalkFold(events, predict, bank).history;
      var rec := WalkStep(events[0], predict(events[0]), bank);
      var rest := WalkFold(events[1..], predict, rec.bankroll).history;
      assert h == [rec] + rest;
      WalkFoldFollows(events[1..], predict, rec.bankroll);
      WalkStepFollowsRow(events[0], predict(events[0]), bank);
      forall i | 0 <= i < |events|
        ensures WalkStepFollows(events[i], predict(events[i]), WalkBankBefore(bank, h, i), h[i])
      {
        if i > 0 {
          assert events[i] == events[1..][i - 1];
          assert h[i] == rest[i - 1];
          assert WalkBankBefore(bank, h, i) == WalkBankBefore(rec.bankroll, rest, i - 1);
          assert WalkStepFollows(events[1..][i - 1], predict(events[1..][i - 1]),
                                 WalkBankBefore(rec.bankroll, rest, i - 1), rest[i - 1]);
        }
      }
    }
  }

  // ---------------------------------------------------------------------
  // Balance trajectory.
  // ---------------------------------------------------------------------

  /** On a positive balance, a positive stake is a rounding of at most 5% of
      it, hence under 10% of it, and it is only placed at odds above 1,
      where a win cannot lose money: a row never loses 10% or more of a
      positive balance, whatever the price, and the balance stays positive. */
  lemma WalkStepFloor(e: Event, probs: Probs, before: real, rec: WalkRecord)
    requires WalkStepFollows(e, probs, before, rec)
    requires before > 0.0
    ensures rec.bankroll > 0.9 * before
    ensures 0.0 <= rec.stake <= 0.05 * before + 1.0 / 200.0
  {
    Finance.StakeWithinCap(probs.h, e.oddsH, before, 0.25, 0.05);
    if rec.stake > 0.0 {
      Finance.PositiveStakeUnderDouble(probs.h, e.oddsH, before, 0.25, 0.05);
      Finance.PositiveStakeIsApproved(probs.h, e.oddsH, before, 0.25, 0.05);
      if e.ftr == "H" {
        assert rec.stake * e.oddsH >= 0.0;
      }
    }
  }

  /** The balance before row `k` stays positive from a positive start,
      whatever the prices of the rows. */
  lemma {:induction false} WalkBankPositiveAt(events: seq<Event>, predict: Predictor, start: real, history: seq<WalkRecord>, k: nat)
    requires WalkFollowsAll(events, predict, start, history) && k <= |history|
    requires start > 0.0
    ensures WalkBankBefore(start, history, k) > 0.0
    decreases k
  {
    if k > 0 {
      WalkBankPositiveAt(events, predict, start, history, k - 1);
      assert WalkStepFollows(events[k - 1], predict(events[k - 1]), WalkBankBefore(start, history, k - 1), history[k - 1]);
      WalkStepFloor(events[k - 1], predict(events[k - 1]), WalkBankBefore(start, history, k - 1), history[k - 1]);
    }
  }

  /** From a positive start the balance after every row is positive. */
  lemma WalkBalancesPositive(events: seq<Event>, predict: Predictor, start: real, history: seq<WalkRecord>)
    requires WalkFollowsAll(events, predict, start, history)
    requires start > 0.0
    ensures forall i :: 0 <= i < |history| ==> history[i].bankroll > 0.0
  {
    forall i | 0 <= i < |history|
      ensures history[i].bankroll > 0.0
    {
      WalkBankPositiveAt(events, predict, start, history, i + 1);
    }
  }

  /** The P&L column of the history. */
  function PnlColumn(history: seq<WalkRecord>): (ps: seq<real>) {
    seq(|history|, i requires 0 <= i < |history| => history[i].pnl)
  }

  /** The balance before row `k` is the start plus the P&L of the rows so
      far. */
  lemma {:induction false} WalkPnlTelescopes(events: seq<Event>, predict: Predictor, start: real, history: seq<WalkRecord>, k: nat)
    requires WalkFollowsAll(events, predict, start, history) && k <= |history|
    ensures WalkBankBefore(start, history, k) == start + Sum(PnlColumn(history[..k]))
    decreases k
  {
    if k > 0 {
      WalkPnlTelescopes(events, predict, start, history, k - 1);
      assert WalkStepFollows(events[k - 1], predict(events[k - 1]), WalkBankBefore(start, history, k - 1), history[k - 1]);
      assert PnlColumn(history[..k])[..k - 1] == PnlColumn(history[..k - 1]);
    }
  }

  // ---------------------------------------------------------------------
  // The run as a whole.
  // ---------------------------------------------------------------------

  /** On a non-empty history every row of the run follows its window row
      from the balance the previous row left, starting from `initial`. */
  lemma RunWalkFollowsWindow(events: seq<Event>, predict: Predictor, initial: real)
    requires |events| > 0
    ensures RunWalkForward(events, predict, initial).Ok?
    ensures WalkFollowsAll(WalkWindow(events), predict, initial, RunWalkForward(events, predict, initial).value.history)
  {
    assert RunWalkForward(events, predict, initial).value.history == WalkFold(WalkWindow(events), predict, initial).history;
    WalkFoldFollows(WalkWindow(events), predict, initial);
  }

  /** The window is the last `min(n, 50)` rows of the date-sorted history:
      it is sorted, its rows come from the history, and no row left out is
      later than a row kept. */
  lemma WalkWindowIsLatest(events: seq<Event>)
    ensures |WalkWindow(events)| == (if |events| <= WalkWindowSize then |events| else WalkWindowSize)
    ensures SortedByDate(WalkWindow(events))
    ensures multiset(WalkWindow(events)) <= multiset(events)
    ensures forall i, j :: 0 <= i < |events| - |WalkWindow(events)| && 0 <= j < |WalkWindow(events)| ==>
      SortByDate(events)[i].date <= WalkWindow(events)[j].date
  {
    TailOfSorted(SortByDate(events), WalkWindowSize);
    SortPermutes(events);
  }

  /** From a positive start, whatever the prices, the balance is positive
      after every row, and every stake is at most 5% of the balance before
      it plus half a cent. */
  lemma RunWalkBalancePositive(events: seq<Event>, predict: Predictor, initial: real)
    requires |events| > 0 && initial > 0.0
    ensures RunWalkForward(events, predict, initial).Ok?
    ensures var l := RunWalkForward(events, predict, initial).value;
      && (forall i :: 0 <= i < |l.history| ==> l.history[i].bankroll > 0.0)
      && (forall i :: 0 <= i < |l.curve| ==> l.curve[i].balance > 0.0)
      && (forall i :: 0 <= i < |l.history| ==>
            0.0 <= l.history[i].stake <= 0.05 * WalkBankBefore(initial, l.history, i) + 1.0 / 200.0)
  {
    var l := RunWalkForward(events, predict, initial).value;
    var h := l.history;
    var w := WalkWindow(events);
    RunWalkFollowsWindow(events, predict, initial);
    assert forall i :: 0 <= i < |h| ==> h[i].bankroll > 0.0 by {
      WalkBalancesPositive(w, predict, initial, h);
    }
    forall i | 0 <= i < |h|
      ensures 0.0 <= h[i].stake <= 0.05 * WalkBankBefore(initial, h, i) + 1.0 / 200.0
    {
      assert WalkStepFollows(w[i], predict(w[i]), WalkBankBefore(initial, h, i), h[i]);
      WalkBankPositiveAt(w, predict, initial, h, i);
      WalkStepFloor(w[i], predict(w[i]), WalkBankBefore(initial, h, i), h[i]);
    }
    forall i | 0 <= i < |l.curve|
      ensures l.curve[i].balance > 0.0
    {
      if i > 0 {
        assert l.curve[i].balance == h[i - 1].bankroll;
      }
    }
  }

  /** The final balance is the initial one plus the sum of the P&L column. */
  lemma RunWalkPnlTotal(events: seq<Event>, predict: Predictor, initial: real)
    requires |events| > 0
    ensures RunWalkForward(events, predict, initial).Ok?
    ensures var h := RunWalkForward(events, predict, initial).value.history;
      h[|h| - 1].bankroll == initial + Sum(PnlColumn(h))
  {
    var w := WalkWindow(events);
    var h := RunWalkForward(events, predict, initial).value.history;
    RunWalkFollowsWindow(events, predict, initial);
    WalkPnlTelescopes(w, predict, initial, h, |h|);
    assert h[..|h|] == h;
  }
}
