/**
 * The audit simulator `Backtester.run_cfo_audit` of src/risk_engine.py:
 * sort the history by date, keep the last 100 rows, and fold over them with
 * an inline quarter-Kelly rule (net odds floored at 0.01, 5% hard cap), a
 * compounding bankroll, a high-water mark and the drawdown from it. Each
 * row yields one audit record and one equity point.
 */
module RiskEngine {
  import opened Common
  import opened Chrono

  /** How many of the most recent rows the audit replays. */
  const AuditWindowSize: nat := 100
  /** Net odds used when `odds_h - 1` is not positive. */
  const NetOddsFloor: real := 0.01
  /** The Kelly multiplier hard-coded in the audit. */
  const QuarterKelly: real := 0.25
  /** The hard cap on the staked share of the bankroll. */
  const HardCap: real := 0.05

  /** One row of the audit log. */
  datatype AuditRecord = AuditRecord(
    date: int,
    matchLabel: string,
    modelProb: real,
    odds: real,
    stakePct: real,
    stakeVal: real,
    result: string,
    outcome: Tag,
    pnl: real,
    bankroll: real,
    drawdown: real)

  /** One point of the equity curve. */
  datatype EquityPoint = EquityPoint(date: int, bankroll: real, drawdownPct: real)

  /** The two tables the audit returns. */
  datatype Ledger = Ledger(audit: seq<AuditRecord>, equity: seq<EquityPoint>)

  /** The net odds `b`, floored so that the Kelly divisor is never zero or
      negative. */
  function NetOdds(oddsH: real): (b: real)
    ensures b > 0.0
    ensures oddsH > 1.0 ==> b == oddsH - 1.0
    ensures oddsH <= 1.0 ==> b == NetOddsFloor
  {
    var b := oddsH - 1.0;
    if b <= 0.0 then NetOddsFloor else b
  }

  /** Full Kelly on the floored net odds. */
  function KellyRaw(p: real, oddsH: real): (k: real) {
    var b := NetOdds(oddsH);
    (b * p - (1.0 - p)) / b
  }

  /** The staked share: quarter Kelly capped at 5%, or nothing when Kelly is
      not positive. */
  function StakePct(p: real, oddsH: real): (s: real)
    ensures 0.0 <= s <= HardCap
    ensures s == 0.0 <==> KellyRaw(p, oddsH) <= 0.0
    ensures KellyRaw(p, oddsH) > 0.0 ==> s == Min(QuarterKelly * KellyRaw(p, oddsH), HardCap)
  {
    var kellyRaw := KellyRaw(p, oddsH);
    if kellyRaw > 0.0 then
      var quarter := kellyRaw * QuarterKelly;
      if quarter > HardCap then HardCap else quarter
    else 0.0
  }

  /** The high-water mark after the bankroll moved to `bank`. */
  function RaiseMark(hwm: real, bank: real): (mark: real) {
    if bank > hwm then bank else hwm
  }

  /** Drop from the high-water mark as a share of it; zero when the mark is
      not positive. */
  function DrawdownPct(hwm: real, bank: real): (dd: real) {
    if hwm > 0.0 then (hwm - bank) / hwm else 0.0
  }

  /** One iteration of the audit loop, from the bankroll and high-water mark
      before the row. */
  function AuditStep(e: Event, probs: Probs, bank: real, hwm: real): (rec: AuditRecord) {
    var pct := StakePct(probs.h, e.oddsH);
    var moneyStake := bank * pct;
    var res := Settle(moneyStake, e.oddsH, e.ftr);
    var bankAfter := bank + res.pnl;
    var hwmAfter := RaiseMark(hwm, bankAfter);
    AuditRecord(e.date, MatchLabel(e), probs.h, e.oddsH, pct, moneyStake, e.ftr,
                res.outcome, res.pnl, bankAfter, DrawdownPct(hwmAfter, bankAfter))
  }

  /** The loop over the window, threading bankroll and high-water mark; the
      audit log and the equity points after each row. */
  function AuditFold(events: seq<Event>, predict: Predictor, bank: real, hwm: real): (l: Ledger)
    ensures |l.audit| == |events| && |l.equity| == |events|
    ensures forall i :: 0 <= i < |events| ==> l.audit[i].date == events[i].date
    ensures forall i :: 0 <= i < |events| ==>
      l.equity[i] == EquityPoint(l.audit[i].date, l.audit[i].bankroll, l.audit[i].drawdown)
    decreases |events|
  {
    if |events| == 0 then Ledger([], [])
    else
      var rec := AuditStep(events[0], predict(events[0]), bank, hwm);
      var rest := AuditFold(events[1..], predict, rec.bankroll, RaiseMark(hwm, rec.bankroll));
      Ledger([rec] + rest.audit, [EquityPoint(rec.date, rec.bankroll, rec.drawdown)] + rest.equity)
  }

  /** The rows the audit replays: the last 100 of the date-sorted history. */
  function AuditWindow(events: seq<Event>): (w: seq<Event>) {
    Tail(SortByDate(events), AuditWindowSize)
  }

  /** `run_cfo_audit(df, model_engine, initial_bankroll)`. An empty history
      fails where the source reads the first row's date. */
  function RunCfoAudit(events: seq<Event>, predict: Predictor, initial: real): (r: Result<Ledger>)
    ensures r.Err? <==> |events| == 0
    ensures r.Ok? ==>
      && |r.value.audit| == (if |events| <= AuditWindowSize then |events| else AuditWindowSize)
      && |r.value.equity| == |r.value.audit| + 1
      && r.value.equity[0] == EquityPoint(AuditWindow(events)[0].date, initial, 0.0)
      && (forall i :: 0 <= i < |r.value.audit| ==>
            r.value.equity[i + 1] == EquityPoint(r.value.audit[i].date, r.value.audit[i].bankroll, r.value.audit[i].drawdown))
      && (forall i, j :: 0 <= i < j < |r.value.audit| ==> r.value.audit[i].date <= r.value.audit[j].date)
  {
    var window := AuditWindow(events);
    TailOfSorted(SortByDate(events), AuditWindowSize);
    if |window| == 0 then Err(EmptyHistory)
    else
      var l := AuditFold(window, predict, initial, initial);
      DatedLikeSorted(window, l.audit, (rec: AuditRecord) => rec.date);
      Ok(Ledger(l.audit, [EquityPoint(window[0].date, initial, 0.0)] + l.equity))
  }

  // ---------------------------------------------------------------------
  // Per-row facts, stated independently of the loop's bookkeeping.
  // ---------------------------------------------------------------------

  /** What one audit record says about its row, given the bankroll before
      it: the stake is the capped quarter Kelly of the current bankroll, the
      wager settles on the home result, and the bankroll moves by the P&L. */
  ghost predicate StepFollows(e: Event, probs: Probs, before: real, rec: AuditRecord) {
    && rec.date == e.date
    && rec.matchLabel == MatchLabel(e)
    && rec.modelProb == probs.h
    && rec.odds == e.oddsH
    && rec.result == e.ftr
    && rec.stakePct == StakePct(probs.h, e.oddsH)
    && rec.stakeVal == before * rec.stakePct
    && (rec.stakeVal > 0.0 && e.ftr == "H" ==> rec.outcome == Win && rec.pnl == rec.stakeVal * (e.oddsH - 1.0))
    && (rec.stakeVal > 0.0 && e.ftr != "H" ==> rec.outcome == Loss && rec.pnl == -rec.stakeVal)
    && (rec.stakeVal <= 0.0 ==> rec.outcome == Skip && rec.pnl == 0.0)
    && rec.bankroll == before + rec.pnl
  }

  /** The bankroll before row `i` of a log that started from `start`. */
  function BankBefore(start: real, audit: seq<AuditRecord>, i: nat): (b: real)
    requires i <= |audit|
  {
    if i == 0 then start else audit[i - 1].bankroll
  }

  /** The high-water mark after replaying `audit` from the mark `hwm`. */
  function PeakOver(hwm: real, audit: seq<AuditRecord>): (mark: real)
    decreases |audit|
  {
    if |audit| == 0 then hwm else PeakOver(RaiseMark(hwm, audit[0].bankroll), audit[1..])
  }

  /** Extending the log by one record raises the mark to that record's
      bankroll if it is higher, and leaves it alone otherwise. */
  lemma {:induction false} PeakOverSnoc(hwm: real, audit: seq<AuditRecord>, rec: AuditRecord)
    ensures PeakOver(hwm, audit + [rec]) == RaiseMark(PeakOver(hwm, audit), rec.bankroll)
    decreases |audit|
  {
    if |audit| > 0 {
      assert (audit + [rec])[1..] == audit[1..] + [rec];
      PeakOverSnoc(RaiseMark(hwm, audit[0].bankroll), audit[1..], rec);
    }
  }

  /** The mark after the first `i + 1` records is the mark after the first
      `i`, raised to record `i`'s bankroll. */
  lemma PeakOverExtend(hwm: real, audit: seq<AuditRecord>, i: nat)
    requires i < |audit|
    ensures PeakOver(hwm, audit[..i + 1]) == RaiseMark(PeakOver(hwm, audit[..i]), audit[i].bankroll)
  {
    assert audit[..i + 1] == audit[..i] + [audit[i]];
    PeakOverSnoc(hwm, audit[..i], audit[i]);
  }

  /** Replaying a prefix of a log that starts with `rec` is replaying the
      rest of the prefix from the mark `rec` leaves. */
  lemma PeakOverCons(hwm: real, rec: AuditRecord, rest: seq<AuditRecord>, i: nat)
    requires 0 < i <= |rest| + 1
    ensures PeakOver(hwm, ([rec] + rest)[..i]) == PeakOver(RaiseMark(hwm, rec.bankroll), rest[..i - 1])
  {
    var s := ([rec] + rest)[..i];
    assert s[0] == rec;
    assert s[1..] == rest[..i - 1];
  }

  /** The high-water mark never falls, and after each record it is at least
      that record's bankroll. */
  lemma PeakMonotone(hwm: real, audit: seq<AuditRecord>, i: nat)
    requires i < |audit|
    ensures PeakOver(hwm, audit[..i]) <= PeakOver(hwm, audit[..i + 1])
    ensures audit[i].bankroll <= PeakOver(hwm, audit[..i + 1])
  {
    PeakOverExtend(hwm, audit, i);
  }

  /** Record `i` of the fold is the loop body applied to row `i`, with the
      bankroll the previous record left and the high-water mark reached over
      the previous records. */
  lemma {:induction false} AuditFoldSteps(events: seq<Event>, predict: Predictor, bank: real, hwm: real)
    ensures var a := AuditFold(events, predict, bank, hwm).audit;
      forall i :: 0 <= i < |events| ==>
        a[i] == AuditStep(events[i], predict(events[i]), BankBefore(bank, a, i), PeakOver(hwm, a[..i]))
    decreases |events|
  {
    if |events| > 0 {
      var a := AuditFold(events, predict, bank, hwm).audit;
      var rec := AuditStep(events[0], predict(events[0]), bank, hwm);
      var hwm' := RaiseMark(hwm, rec.bankroll);
      var rest := AuditFold(events[1..], predict, rec.bankroll, hwm').audit;
      assert a == [rec] + rest;
      AuditFoldSteps(events[1..], predict, rec.bankroll, hwm');
      forall i | 0 <= i < |events|
        ensures a[i] == AuditStep(events[i], predict(events[i]), BankBefore(bank, a, i), PeakOver(hwm, a[..i]))
      {
        if i > 0 {
          assert events[i] == events[1..][i - 1];
          assert a[i] == rest[i - 1];
          assert BankBefore(bank, a, i) == BankBefore(rec.bankroll, rest, i - 1);
          PeakOverCons(hwm, rec, rest, i);
        }
      }
    }
  }

  /** One loop iteration follows its row from the bankroll before it. */
  lemma AuditStepFollows(e: Event, probs: Probs, bank: real, hwm: real)
    ensures StepFollows(e, probs, bank, AuditStep(e, probs, bank, hwm))
  {
  }

  /** Every record of the fold follows its row from the bankroll the
      previous record left. */
  lemma AuditFoldFollows(events: seq<Event>, predict: Predictor, bank: real, hwm: real)
    ensures var a := AuditFold(events, predict, bank, hwm).audit;
      forall i :: 0 <= i < |events| ==> StepFollows(events[i], predict(events[i]), BankBefore(bank, a, i), a[i])
  {
    var a := AuditFold(events, predict, bank, hwm).audit;
    AuditFoldSteps(events, predict, bank, hwm);
    forall i | 0 <= i < |events|
      ensures StepFollows(events[i], predict(events[i]), BankBefore(bank, a, i), a[i])
    {
      AuditStepFollows(events[i], predict(events[i]), BankBefore(bank, a, i), PeakOver(hwm, a[..i]));
    }
  }

  /** One loop iteration measures the drawdown from the mark raised to the
      new bankroll. */
  lemma AuditStepDrawdown(e: Event, probs: Probs, bank: real, hwm: real)
    ensures var rec := AuditStep(e, probs, bank, hwm);
      rec.drawdown == DrawdownPct(RaiseMark(hwm, rec.bankroll), rec.bankroll)
  {
  }

  /** Record `i` of the fold, as the loop body applied to row `i`. */
  lemma AuditFoldStepAt(events: seq<Event>, predict: Predictor, bank: real, hwm: real, i: nat)
    requires i < |events|
    ensures var a := AuditFold(events, predict, bank, hwm).audit;
      a[i] == AuditStep(events[i], predict(events[i]), BankBefore(bank, a, i), PeakOver(hwm, a[..i]))
  {
    AuditFoldSteps(events, predict, bank, hwm);
  }

  /** Each record's drawdown is measured from the high-water mark reached
      once its own bankroll is taken into account. */
  lemma AuditFoldDrawdown(events: seq<Event>, predict: Predictor, bank: real, hwm: real)
    ensures var a := AuditFold(events, predict, bank, hwm).audit;
      forall i :: 0 <= i < |a| ==> a[i].drawdown == DrawdownPct(PeakOver(hwm, a[..i + 1]), a[i].bankroll)
  {
    var a := AuditFold(events, predict, bank, hwm).audit;
    forall i | 0 <= i < |a|
      ensures a[i].drawdown == DrawdownPct(PeakOver(hwm, a[..i + 1]), a[i].bankroll)
    {
      var before := PeakOver(hwm, a[..i]);
      assert a[i].drawdown == DrawdownPct(RaiseMark(before, a[i].bankroll), a[i].bankroll) by {
        AuditFoldStepAt(events, predict, bank, hwm, i);
        AuditStepDrawdown(events[i], predict(events[i]), BankBefore(bank, a, i), before);
      }
      PeakOverExtend(hwm, a, i);
    }
  }

  /** The drawdown measured from a mark at or above the bankroll is never
      negative, is zero at the mark, and is at most one while the bankroll
      is not negative. */
  lemma DrawdownPctBounds(hwm: real, bank: real)
    requires hwm >= bank
    ensures 0.0 <= DrawdownPct(hwm, bank)
    ensures bank == hwm ==> DrawdownPct(hwm, bank) == 0.0
    ensures bank >= 0.0 ==> DrawdownPct(hwm, bank) <= 1.0
  {
    if hwm > 0.0 {
      assert (hwm - bank) / hwm >= 0.0;
      if bank >= 0.0 {
        assert (hwm - bank) / hwm <= hwm / hwm;
      }
    }
  }

  // ---------------------------------------------------------------------
  // Bankroll trajectory: the 5% floor per row, compounding, P&L.
  // ---------------------------------------------------------------------

  /** `audit` records `events` one for one, each from the bankroll the
      previous record left, starting from `start`. */
  ghost predicate FollowsAll(events: seq<Event>, predict: Predictor, start: real, audit: seq<AuditRecord>) {
    && |audit| == |events|
    && forall i {:trigger StepFollows(events[i], predict(events[i]), BankBefore(start, audit, i), audit[i])} ::
         0 <= i < |events| ==> StepFollows(events[i], predict(events[i]), BankBefore(start, audit, i), audit[i])
  }

  /** The fold's log records its rows one for one. */
  lemma AuditFoldFollowsAll(events: seq<Event>, predict: Predictor, bank: real, hwm: real)
    ensures FollowsAll(events, predict, bank, AuditFold(events, predict, bank, hwm).audit)
  {
    AuditFoldFollows(events, predict, bank, hwm);
  }

  /** With positive odds, one row costs at most 5% of a non-negative
      bankroll: a loss forfeits the stake, a win at odds above zero never
      forfeits more than it. */
  lemma StepBankFloor(e: Event, probs: Probs, before: real, rec: AuditRecord)
    requires StepFollows(e, probs, before, rec)
    requires e.oddsH > 0.0 && before >= 0.0
    ensures rec.bankroll >= 0.95 * before
  {
    var sp := rec.stakePct;
    assert 0.0 <= sp <= HardCap;
    assert 0.0 <= before * sp <= before * HardCap by {
      assert before * HardCap - before * sp == before * (HardCap - sp);
    }
    if rec.stakeVal > 0.0 && e.ftr == "H" {
      assert rec.stakeVal * (e.oddsH - 1.0) == rec.stakeVal * e.oddsH - rec.stakeVal;
      assert rec.stakeVal * e.oddsH >= 0.0;
    }
  }

  /** The factor by which one row multiplies a positive bankroll. */
  function Growth(e: Event, probs: Probs): (g: real) {
    var sp := StakePct(probs.h, e.oddsH);
    if e.ftr == "H" then 1.0 + sp * (e.oddsH - 1.0) else 1.0 - sp
  }

  /** On a positive bankroll, a row multiplies it by its growth factor,
      which is at least 0.95 when the odds are positive. */
  lemma StepGrowth(e: Event, probs: Probs, before: real, rec: AuditRecord)
    requires StepFollows(e, probs, before, rec) && before > 0.0
    ensures rec.bankroll == before * Growth(e, probs)
    ensures e.oddsH > 0.0 ==> Growth(e, probs) >= 0.95
  {
    var sp := rec.stakePct;
    if sp > 0.0 {
      assert rec.stakeVal > 0.0;
      if e.ftr == "H" {
        assert before * (1.0 + sp * (e.oddsH - 1.0)) == before + before * sp * (e.oddsH - 1.0);
      } else {
        assert before * (1.0 - sp) == before - before * sp;
      }
    } else {
      assert rec.stakeVal == 0.0;
    }
    if e.oddsH > 0.0 && e.ftr == "H" {
      assert sp * (e.oddsH - 1.0) == sp * e.oddsH - sp;
      assert sp * e.oddsH >= 0.0;
    }
  }

  /** The bankroll that compounding the growth factors of `events`, in
      order, makes of `start`. */
  function Compound(start: real, events: seq<Event>, predict: Predictor): (bank: real)
    decreases |events|
  {
    if |events| == 0 then start
    else Compound(start, events[..|events| - 1], predict) * Growth(events[|events| - 1], predict(events[|events| - 1]))
  }

  /** Before row `k` the bankroll is the start compounded over the rows so
      far, and it stays positive. */
  lemma {:induction false} CompoundingAt(events: seq<Event>, predict: Predictor, start: real, audit: seq<AuditRecord>, k: nat)
    requires FollowsAll(events, predict, start, audit) && k <= |audit|
    requires start > 0.0 && PositiveOdds(events)
    ensures BankBefore(start, audit, k) == Compound(start, events[..k], predict)
    ensures BankBefore(start, audit, k) > 0.0
    decreases k
  {
    if k > 0 {
      CompoundingAt(events, predict, start, audit, k - 1);
      CompoundingStep(events, predict, start, audit, k);
    } else {
      assert events[..0] == [];
    }
  }

  /** One more row keeps the bankroll equal to the compounded start. */
  lemma CompoundingStep(events: seq<Event>, predict: Predictor, start: real, audit: seq<AuditRecord>, k: nat)
    requires FollowsAll(events, predict, start, audit) && 0 < k <= |audit|
    requires events[k - 1].oddsH > 0.0
    requires BankBefore(start, audit, k - 1) == Compound(start, events[..k - 1], predict)
    requires BankBefore(start, audit, k - 1) > 0.0
    ensures BankBefore(start, audit, k) == Compound(start, events[..k], predict)
    ensures BankBefore(start, audit, k) > 0.0
  {
    var g := Growth(events[k - 1], predict(events[k - 1]));
    GrowthAt(events, predict, start, audit, k - 1);
    CompoundSnoc(start, events, predict, k);
    PositiveStep(BankBefore(start, audit, k - 1), g);
  }

  /** Row `i` multiplies the positive bankroll before it by its growth
      factor, which is positive when the odds are. */
  lemma GrowthAt(events: seq<Event>, predict: Predictor, start: real, audit: seq<AuditRecord>, i: nat)
    requires FollowsAll(events, predict, start, audit) && i < |audit|
    requires BankBefore(start, audit, i) > 0.0 && events[i].oddsH > 0.0
    ensures BankBefore(start, audit, i + 1) == BankBefore(start, audit, i) * Growth(events[i], predict(events[i]))
    ensures Growth(events[i], predict(events[i])) > 0.0
  {
    StepGrowth(events[i], predict(events[i]), BankBefore(start, audit, i), audit[i]);
  }

  /** Compounding over the first `k` rows is compounding over the first
      `k - 1` and then multiplying by the growth of row `k - 1`. */
  lemma CompoundSnoc(start: real, events: seq<Event>, predict: Predictor, k: nat)
    requires 0 < k <= |events|
    ensures Compound(start, events[..k], predict)
      == Compound(start, events[..k - 1], predict) * Growth(events[k - 1], predict(events[k - 1]))
  {
    assert events[..k][..k - 1] == events[..k - 1];
    assert events[..k][k - 1] == events[k - 1];
  }

  /** A product of two positive reals is positive. */
  lemma PositiveStep(x: real, g: real)
    requires x > 0.0 && g > 0.0
    ensures x * g > 0.0
  {
  }

  /** The bankroll before row `k` is not negative when the start is not. */
  lemma {:induction false} BankNonNegativeAt(events: seq<Event>, predict: Predictor, start: real, audit: seq<AuditRecord>, k: nat)
    requires FollowsAll(events, predict, start, audit) && k <= |audit|
    requires start >= 0.0 && PositiveOdds(events)
    ensures BankBefore(start, audit, k) >= 0.0
    decreases k
  {
    if k > 0 {
      BankNonNegativeAt(events, predict, start, audit, k - 1);
      StepBankFloor(events[k - 1], predict(events[k - 1]), BankBefore(start, audit, k - 1), audit[k - 1]);
    }
  }

  /** With positive odds and a non-negative start, no row loses more than
      5% of the bankroll before it, and the bankroll never goes negative. */
  lemma BankrollFloor(events: seq<Event>, predict: Predictor, start: real, audit: seq<AuditRecord>)
    requires FollowsAll(events, predict, start, audit)
    requires start >= 0.0 && PositiveOdds(events)
    ensures forall i :: 0 <= i < |audit| ==>
      audit[i].bankroll >= 0.95 * BankBefore(start, audit, i) && audit[i].bankroll >= 0.0
  {
    forall i | 0 <= i < |audit|
      ensures audit[i].bankroll >= 0.95 * BankBefore(start, audit, i) && audit[i].bankroll >= 0.0
    {
      BankNonNegativeAt(events, predict, start, audit, i);
      StepBankFloor(events[i], predict(events[i]), BankBefore(start, audit, i), audit[i]);
    }
  }

  /** The P&L column of the log. */
  function PnlColumn(audit: seq<AuditRecord>): (ps: seq<real>) {
    seq(|audit|, i requires 0 <= i < |audit| => audit[i].pnl)
  }

  /** The bankroll before row `k` is the start plus the P&L of the rows so
      far. */
  lemma {:induction false} PnlTelescopes(events: seq<Event>, predict: Predictor, start: real, audit: seq<AuditRecord>, k: nat)
    requires FollowsAll(events, predict, start, audit) && k <= |audit|
    ensures BankBefore(start, audit, k) == start + Sum(PnlColumn(audit[..k]))
    decreases k
  {
    if k > 0 {
      PnlTelescopes(events, predict, start, audit, k - 1);
      assert StepFollows(events[k - 1], predict(events[k - 1]), BankBefore(start, audit, k - 1), audit[k - 1]);
      assert PnlColumn(audit[..k])[..k - 1] == PnlColumn(audit[..k - 1]);
    }
  }

  // ---------------------------------------------------------------------
  // The run as a whole.
  // ---------------------------------------------------------------------

  /** On a non-empty history the audit log is the fold over the window,
      started with both the bankroll and the high-water mark at `initial`. */
  lemma RunAuditLog(events: seq<Event>, predict: Predictor, initial: real)
    requires |events| > 0
    ensures RunCfoAudit(events, predict, initial).Ok?
    ensures RunCfoAudit(events, predict, initial).value.audit
         == AuditFold(AuditWindow(events), predict, initial, initial).audit
  {
  }

  /** The window is the last `min(n, 100)` rows of the date-sorted history:
      it is sorted, its rows come from the history, and no row left out is
      later than a row kept. */
  lemma WindowIsLatest(events: seq<Event>)
    ensures |AuditWindow(events)| == (if |events| <= AuditWindowSize then |events| else AuditWindowSize)
    ensures SortedByDate(AuditWindow(events))
    ensures multiset(AuditWindow(events)) <= multiset(events)
    ensures forall i, j :: 0 <= i < |events| - |AuditWindow(events)| && 0 <= j < |AuditWindow(events)| ==>
      SortByDate(events)[i].date <= AuditWindow(events)[j].date
  {
    TailOfSorted(SortByDate(events), AuditWindowSize);
    SortPermutes(events);
  }

  /** Every audit record follows its window row from the bankroll the
      previous record left, starting from `initial`. */
  lemma RunFollowsWindow(events: seq<Event>, predict: Predictor, initial: real)
    requires |events| > 0
    ensures RunCfoAudit(events, predict, initial).Ok?
    ensures FollowsAll(AuditWindow(events), predict, initial, RunCfoAudit(events, predict, initial).value.audit)
  {
    RunAuditLog(events, predict, initial);
    AuditFoldFollowsAll(AuditWindow(events), predict, initial, initial);
  }

  /** Whatever the prices, the start and the opening mark, no record of the
      fold has a negative drawdown: the mark is always at or above the
      bankroll it is measured against. */
  lemma FoldDrawdownNonNegative(events: seq<Event>, predict: Predictor, bank: real, hwm: real)
    ensures var a := AuditFold(events, predict, bank, hwm).audit;
      forall i :: 0 <= i < |a| ==> 0.0 <= a[i].drawdown
  {
    var a := AuditFold(events, predict, bank, hwm).audit;
    AuditFoldDrawdown(events, predict, bank, hwm);
    forall i | 0 <= i < |a|
      ensures 0.0 <= a[i].drawdown
    {
      PeakMonotone(hwm, a, i);
      DrawdownPctBounds(PeakOver(hwm, a[..i + 1]), a[i].bankroll);
      assert a[i].drawdown == DrawdownPct(PeakOver(hwm, a[..i + 1]), a[i].bankroll);
    }
  }

  /** Whatever the prices and the starting bankroll, no drawdown in the log
      or on the equity curve is negative. */
  lemma RunDrawdownNonNegative(events: seq<Event>, predict: Predictor, initial: real)
    requires |events| > 0
    ensures RunCfoAudit(events, predict, initial).Ok?
    ensures var l := RunCfoAudit(events, predict, initial).value;
      && (forall i :: 0 <= i < |l.audit| ==> 0.0 <= l.audit[i].drawdown)
      && (forall i :: 0 <= i < |l.equity| ==> 0.0 <= l.equity[i].drawdownPct)
  {
    var l := RunCfoAudit(events, predict, initial).value;
    RunAuditLog(events, predict, initial);
    FoldDrawdownNonNegative(AuditWindow(events), predict, initial, initial);
    forall i | 0 <= i < |l.equity|
      ensures 0.0 <= l.equity[i].drawdownPct
    {
      if i > 0 {
        assert l.equity[i].drawdownPct == l.audit[i - 1].drawdown;
      }
    }
  }

  /** With positive odds and a non-negative starting bankroll, every row's
      drawdown lies between 0 and 1, and so does every point of the equity
      curve. */
  lemma RunDrawdownBounds(events: seq<Event>, predict: Predictor, initial: real)
    requires |events| > 0 && initial >= 0.0 && PositiveOdds(events)
    ensures RunCfoAudit(events, predict, initial).Ok?
    ensures var l := RunCfoAudit(events, predict, initial).value;
      && (forall i :: 0 <= i < |l.audit| ==> 0.0 <= l.audit[i].drawdown <= 1.0)
      && (forall i :: 0 <= i < |l.equity| ==> 0.0 <= l.equity[i].drawdownPct <= 1.0)
  {
    var w := AuditWindow(events);
    var l := RunCfoAudit(events, predict, initial).value;
    var a := l.audit;
    RunAuditLog(events, predict, initial);
    RunFollowsWindow(events, predict, initial);
    WindowPositiveOdds(events, AuditWindowSize);
    BankrollFloor(w, predict, initial, a);
    AuditFoldDrawdown(w, predict, initial, initial);
    forall i | 0 <= i < |a|
      ensures 0.0 <= a[i].drawdown <= 1.0
    {
      PeakMonotone(initial, a, i);
      DrawdownPctBounds(PeakOver(initial, a[..i + 1]), a[i].bankroll);
    }
    forall i | 0 <= i < |l.equity|
      ensures 0.0 <= l.equity[i].drawdownPct <= 1.0
    {
      if i > 0 {
        assert l.equity[i].drawdownPct == a[i - 1].drawdown;
      }
    }
  }

  /** The final bankroll is the initial one times the growth factors of the
      window's rows, and stays positive from a positive start when the odds
      are positive. */
  lemma RunCompounds(events: seq<Event>, predict: Predictor, initial: real)
    requires |events| > 0 && initial > 0.0 && PositiveOdds(events)
    ensures RunCfoAudit(events, predict, initial).Ok?
    ensures var a := RunCfoAudit(events, predict, initial).value.audit;
      && a[|a| - 1].bankroll == Compound(initial, AuditWindow(events), predict)
      && a[|a| - 1].bankroll > 0.0
  {
    var w := AuditWindow(events);
    var a := RunCfoAudit(events, predict, initial).value.audit;
    RunFollowsWindow(events, predict, initial);
    assert |a| == |w| && |a| > 0;
    assert w[..|a|] == w;
    WindowPositiveOdds(events, AuditWindowSize);
    CompoundingAt(w, predict, initial, a, |a|);
  }

  /** The final bankroll is the initial one plus the sum of the P&L column. */
  lemma RunPnlTotal(events: seq<Event>, predict: Predictor, initial: real)
    requires |events| > 0
    ensures RunCfoAudit(events, predict, initial).Ok?
    ensures var a := RunCfoAudit(events, predict, initial).value.audit;
      a[|a| - 1].bankroll == initial + Sum(PnlColumn(a))
  {
    var w := AuditWindow(events);
    var a := RunCfoAudit(events, predict, initial).value.audit;
    RunFollowsWindow(events, predict, initial);
    PnlTelescopes(w, predict, initial, a, |a|);
    assert a[..|a|] == a;
  }
}
