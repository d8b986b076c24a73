/**
 * How the two simulators behave when the predictor takes one of its
 * non-classifier branches, and how the audit's inline stake rule relates to
 * `calculate_stake`, which the walk-forward run uses.
 */
module Scenarios {
  import opened Common
  import opened Chrono
  import Finance
  import RiskEngine
  import Backtest
  import BetModel

  // ---------------------------------------------------------------------
  // The two stake rules.
  // ---------------------------------------------------------------------

  /** On a valid quote, in exact arithmetic, the audit's inline rule stakes
      exactly the fraction `calculate_stake` computes at quarter Kelly with a
      5% cap. */
  lemma AuditRuleMatchesStakeRule(p: real, oddsH: real)
    requires Finance.ValidQuote(p, oddsH)
    ensures RiskEngine.StakePct(p, oddsH) == Finance.FinalFraction(p, oddsH, 0.25, 0.05)
  {
    var b := oddsH - 1.0;
    assert RiskEngine.NetOdds(oddsH) == b;
    assert b * p - (1.0 - p) == p * oddsH - 1.0;
    assert RiskEngine.KellyRaw(p, oddsH) == (p * oddsH - 1.0) / b;
    assert RiskEngine.KellyRaw(p, oddsH) == Finance.KellyFull(p, oddsH);
  }

  /** At home odds of 1.0 or less the two rules part ways: `calculate_stake`
      rejects the odds, while the audit floors the net odds at 0.01, which
      makes its Kelly value `101·p − 100`. It then stakes something exactly
      when p > 100/101, and the full 5% cap exactly when 101·p ≥ 100.2. */
  lemma RulesDisagreeAtEvenOdds(p: real, oddsH: real, bankroll: real)
    requires 0.0 < p < 1.0 && oddsH <= 1.0
    ensures Finance.CalculateStake(p, oddsH, bankroll, 0.25, 0.05).reason == Finance.InvalidOdds
    ensures RiskEngine.StakePct(p, oddsH) > 0.0 <==> 101.0 * p > 100.0
    ensures RiskEngine.StakePct(p, oddsH) == 0.05 <==> 101.0 * p >= 100.2
  {
    assert RiskEngine.KellyRaw(p, oddsH) == 101.0 * p - 100.0;
  }

  /** At home odds of 1.0 a probability of 0.995 is confident enough for
      the audit to stake the full 5%, while `calculate_stake` rejects. */
  lemma RulesDisagreeExample()
    ensures Finance.CalculateStake(0.995, 1.0, 1000.0, 0.25, 0.05).reason == Finance.InvalidOdds
    ensures RiskEngine.StakePct(0.995, 1.0) == 0.05
    ensures RiskEngine.StakePct(0.5, 1.0) == 0.0
  {
    RulesDisagreeAtEvenOdds(0.995, 1.0, 1000.0);
    RulesDisagreeAtEvenOdds(0.5, 1.0, 1000.0);
  }

  // ---------------------------------------------------------------------
  // Runs in which no row is staked.
  // ---------------------------------------------------------------------

  /** When the inline rule stakes nothing on any row, the audit log is all
      skips and the bankroll never moves. */
  lemma {:induction false} AuditFlatWhenNoStake(events: seq<Event>, predict: Predictor, start: real, audit: seq<RiskEngine.AuditRecord>, k: nat)
    requires RiskEngine.FollowsAll(events, predict, start, audit) && k <= |audit|
    requires forall i :: 0 <= i < |events| ==> RiskEngine.StakePct(predict(events[i]).h, events[i].oddsH) == 0.0
    ensures RiskEngine.BankBefore(start, audit, k) == start
    ensures forall i :: 0 <= i < k ==> audit[i].outcome == Skip && audit[i].pnl == 0.0 && audit[i].bankroll == start
    decreases k
  {
    if k > 0 {
      AuditFlatWhenNoStake(events, predict, start, audit, k - 1);
      assert RiskEngine.StepFollows(events[k - 1], predict(events[k - 1]),
                                    RiskEngine.BankBefore(start, audit, k - 1), audit[k - 1]);
    }
  }

  /** When `calculate_stake` approves nothing on any row, the walk-forward
      history is all skips and the balance never moves. */
  lemma {:induction false} WalkFlatWhenNoStake(events: seq<Event>, predict: Predictor, start: real, history: seq<Backtest.WalkRecord>, k: nat)
    requires Backtest.WalkFollowsAll(events, predict, start, history) && k <= |history|
    requires forall i :: 0 <= i < |events| ==>
      !(Finance.ValidQuote(predict(events[i]).h, events[i].oddsH) && Finance.Ev(predict(events[i]).h, events[i].oddsH) > 0.0)
    ensures Backtest.WalkBankBefore(start, history, k) == start
    ensures forall i :: 0 <= i < k ==> history[i].outcome == Skip && history[i].pnl == 0.0 && history[i].bankroll == start
    decreases k
  {
    if k > 0 {
      WalkFlatWhenNoStake(events, predict, start, history, k - 1);
      var e := events[k - 1];
      assert Backtest.WalkStepFollows(e, predict(e), Backtest.WalkBankBefore(start, history, k - 1), history[k - 1]);
      assert !(Finance.ValidQuote(predict(e).h, e.oddsH) && Finance.Ev(predict(e).h, e.oddsH) > 0.0);
    }
  }

  /** The predictor with no model loaded. */
  function NoModelPredictor(): (f: Predictor)
    ensures forall e :: f(e) == Probs(0.0, 0.0, 0.0, 0.0)
  {
    (e: Event) => BetModel.PredictMatch(BetModel.NoModel, e.oddsH, e.oddsA)
  }

  /** With no model loaded the home probability is zero, so Kelly is
      negative whatever the odds and the audit stakes nothing. */
  lemma NoModelStakesNothing(e: Event)
    ensures RiskEngine.StakePct(NoModelPredictor()(e).h, e.oddsH) == 0.0
  {
    var b := RiskEngine.NetOdds(e.oddsH);
    assert RiskEngine.KellyRaw(0.0, e.oddsH) == -1.0 / b;
  }

  /** With no model loaded the audit stakes nothing: every row is a skip and
      the bankroll stays at its initial value. */
  lemma NoModelAuditIsFlat(events: seq<Event>, initial: real)
    requires |events| > 0
    ensures RiskEngine.RunCfoAudit(events, NoModelPredictor(), initial).Ok?
    ensures var a := RiskEngine.RunCfoAudit(events, NoModelPredictor(), initial).value.audit;
      forall i :: 0 <= i < |a| ==> a[i].outcome == Skip && a[i].pnl == 0.0 && a[i].bankroll == initial
  {
    var predict := NoModelPredictor();
    var w := RiskEngine.AuditWindow(events);
    var a := RiskEngine.RunCfoAudit(events, predict, initial).value.audit;
    RiskEngine.RunFollowsWindow(events, predict, initial);
    forall i | 0 <= i < |w|
      ensures RiskEngine.StakePct(predict(w[i]).h, w[i].oddsH) == 0.0
    {
      NoModelStakesNothing(w[i]);
    }
    AuditFlatWhenNoStake(w, predict, initial, a, |a|);
  }

  /** With no model loaded the walk-forward run stakes nothing: every row is
      a skip and the balance stays at its initial value. */
  lemma NoModelWalkIsFlat(events: seq<Event>, initial: real)
    requires |events| > 0
    ensures Backtest.RunWalkForward(events, NoModelPredictor(), initial).Ok?
    ensures var h := Backtest.RunWalkForward(events, NoModelPredictor(), initial).value.history;
      forall i :: 0 <= i < |h| ==> h[i].outcome == Skip && h[i].pnl == 0.0 && h[i].bankroll == initial
  {
    var predict := NoModelPredictor();
    var w := Backtest.WalkWindow(events);
    var h := Backtest.RunWalkForward(events, predict, initial).value.history;
    Backtest.RunWalkFollowsWindow(events, predict, initial);
    WalkFlatWhenNoStake(w, predict, initial, h, |h|);
  }

  /** The fallback home probability never passes the EV gate of
      `calculate_stake`: it is exactly the implied probability, so the EV is
      zero when the quote is valid. */
  lemma FallbackFailsGate(oddsH: real, oddsA: real)
    requires oddsH != 0.0 && oddsA != 0.0
    ensures var p := BetModel.PredictMatch(BetModel.Raised, oddsH, oddsA).h;
      !(Finance.ValidQuote(p, oddsH) && Finance.Ev(p, oddsH) > 0.0)
  {
  }

  /** On the fallback path `calculate_stake` never approves a stake: the
      home probability is exactly the implied one, so the EV is zero when
      the odds are above 1 and the probability is out of range otherwise. */
  lemma FallbackNeverApproved(oddsH: real, oddsA: real, bankroll: real)
    requires oddsH != 0.0 && oddsA != 0.0
    ensures var p := BetModel.PredictMatch(BetModel.Raised, oddsH, oddsA).h;
      && Finance.CalculateStake(p, oddsH, bankroll, 0.25, 0.05).reason != Finance.Approved
      && Finance.CalculateStake(p, oddsH, bankroll, 0.25, 0.05).stakeVal == 0.0
  {
    var p := BetModel.PredictMatch(BetModel.Raised, oddsH, oddsA).h;
    assert p * oddsH == 1.0;
  }

  /** On the fallback path, in exact arithmetic, the audit stakes nothing
      at home odds above 1, where Kelly cancels to zero, but stakes the full
      5% cap at home odds in (0, 1]: there the implied probability is at
      least 1 and the floored net odds make Kelly positive. */
  lemma FallbackAuditStake(oddsH: real, oddsA: real)
    requires oddsH > 0.0 && oddsA != 0.0
    ensures var p := BetModel.PredictMatch(BetModel.Raised, oddsH, oddsA).h;
      && (oddsH > 1.0 ==> RiskEngine.StakePct(p, oddsH) == 0.0)
      && (oddsH <= 1.0 ==> RiskEngine.StakePct(p, oddsH) == 0.05)
  {
    var p := BetModel.PredictMatch(BetModel.Raised, oddsH, oddsA).h;
    assert p * oddsH == 1.0;
    if oddsH > 1.0 {
      var b := oddsH - 1.0;
      assert RiskEngine.NetOdds(oddsH) == b;
      assert b * p - (1.0 - p) == 0.0 by {
        assert b * p - (1.0 - p) == p * oddsH - 1.0;
      }
      assert RiskEngine.KellyRaw(p, oddsH) == 0.0 / b;
    } else {
      assert p >= 1.0;
      assert RiskEngine.KellyRaw(p, oddsH) == (1.01 * p - 1.0) / 0.01;
      assert RiskEngine.KellyRaw(p, oddsH) >= 1.0;
    }
  }

  /** A predictor that answers with the fallback on every row of `events`. */
  ghost predicate FallsBack(events: seq<Event>, predict: Predictor) {
    forall i :: 0 <= i < |events| ==>
      && events[i].oddsH != 0.0 && events[i].oddsA != 0.0
      && predict(events[i]) == BetModel.PredictMatch(BetModel.Raised, events[i].oddsH, events[i].oddsA)
  }

  /** When the predictor falls back on every row, the walk-forward run
      stakes nothing and the balance stays at its initial value. */
  lemma FallbackWalkIsFlat(events: seq<Event>, predict: Predictor, initial: real)
    requires |events| > 0 && FallsBack(events, predict)
    ensures Backtest.RunWalkForward(events, predict, initial).Ok?
    ensures var h := Backtest.RunWalkForward(events, predict, initial).value.history;
      forall i :: 0 <= i < |h| ==> h[i].outcome == Skip && h[i].pnl == 0.0 && h[i].bankroll == initial
  {
    var w := Backtest.WalkWindow(events);
    var h := Backtest.RunWalkForward(events, predict, initial).value.history;
    Backtest.RunWalkFollowsWindow(events, predict, initial);
    forall i | 0 <= i < |w|
      ensures !(Finance.ValidQuote(predict(w[i]).h, w[i].oddsH) && Finance.Ev(predict(w[i]).h, w[i].oddsH) > 0.0)
    {
      WindowRowInHistory(events, Backtest.WalkWindowSize, i);
      var j :| 0 <= j < |events| && events[j] == w[i];
      FallbackFailsGate(events[j].oddsH, events[j].oddsA);
    }
    WalkFlatWhenNoStake(w, predict, initial, h, |h|);
  }

  /** One fixture at home odds 1.0, lost by the home side, with the fallback
      answer: the audit stakes 5% of 1000 and records a 50 loss, a bankroll
      of 950 and a 5% drawdown, while the walk-forward run skips it. */
  lemma EvenOddsFallbackScenario()
    ensures var e := Event(1, "Home", "Away", 1.0, 3.0, 5.0, "A");
      var predict: Predictor := (x: Event) => BetModel.PredictMatch(BetModel.Raised, 1.0, 5.0);
      && RiskEngine.RunCfoAudit([e], predict, 1000.0).Ok?
      && RiskEngine.RunCfoAudit([e], predict, 1000.0).value.audit[0].outcome == Loss
      && RiskEngine.RunCfoAudit([e], predict, 1000.0).value.audit[0].pnl == -50.0
      && RiskEngine.RunCfoAudit([e], predict, 1000.0).value.audit[0].bankroll == 950.0
      && RiskEngine.RunCfoAudit([e], predict, 1000.0).value.audit[0].drawdown == 0.05
      && Backtest.RunWalkForward([e], predict, 1000.0).Ok?
      && Backtest.RunWalkForward([e], predict, 1000.0).value.history[0].outcome == Skip
      && Backtest.RunWalkForward([e], predict, 1000.0).value.history[0].bankroll == 1000.0
  {
    var e := Event(1, "Home", "Away", 1.0, 3.0, 5.0, "A");
    var predict: Predictor := (x: Event) => BetModel.PredictMatch(BetModel.Raised, 1.0, 5.0);
    assert SortByDate([e]) == [e];
    assert RiskEngine.AuditWindow([e]) == [e];
    assert Backtest.WalkWindow([e]) == [e];
    assert predict(e) == Probs(1.0, 0.0, 0.2, 0.0);
    FallbackAuditStake(1.0, 5.0);
    assert RiskEngine.StakePct(1.0, 1.0) == 0.05;
    FallbackNeverApproved(1.0, 5.0, 1000.0);
  }
}
