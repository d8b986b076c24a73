/**
 * The two pure rules of the dashboard in app.py: the traffic light shown
 * for each upcoming fixture, and the two headline figures computed from the
 * audit's equity curve.
 */
module App {
  import opened Common
  import Finance
  import RiskEngine

  /** The three states of the traffic light: bet, watch, do not bet. */
  datatype Light = Green | Yellow | Red

  /** EV above which, together with a confident home probability, the light
      turns green. */
  const GreenEv: real := 0.05
  /** Home probability above which, together with enough EV, the light
      turns green. */
  const GreenProbability: real := 0.55

  /** The light for a fixture from the stake rule's EV and the home
      probability. */
  function TrafficLight(ev: real, pHome: real): (l: Light)
    ensures l == Green <==> ev > GreenEv && pHome > GreenProbability
    ensures l == Yellow <==> ev > 0.0 && !(ev > GreenEv && pHome > GreenProbability)
    ensures l == Red <==> ev <= 0.0
  {
    if ev > GreenEv && pHome > GreenProbability then Green
    else if ev > 0.0 then Yellow
    else Red
  }

  /** Fed with the stake rule's decision, the light is red exactly when the
      rule does not approve a stake, and green only on an approved stake. */
  lemma RedExactlyWhenRejected(p: real, odds: real, bankroll: real, fraction: real, maxCap: real)
    ensures var d := Finance.CalculateStake(p, odds, bankroll, fraction, maxCap);
      && (TrafficLight(d.ev, p) == Red <==> d.reason != Finance.Approved)
      && (TrafficLight(d.ev, p) == Green ==> d.reason == Finance.Approved && p > GreenProbability)
  {
  }

  /** A light only improves as the EV or the home probability rise. */
  lemma LightMonotone(ev1: real, ev2: real, p1: real, p2: real)
    requires ev1 <= ev2 && p1 <= p2
    ensures Rank(TrafficLight(ev1, p1)) <= Rank(TrafficLight(ev2, p2))
  {
  }

  /** Red below yellow below green. */
  function Rank(l: Light): (n: nat) {
    match l
    case Red => 0
    case Yellow => 1
    case Green => 2
  }

  /** The total P&L figure: the last bankroll of the curve minus the first.
      It adds up every move of the bankroll along the curve. */
  function TotalPnl(curve: seq<RiskEngine.EquityPoint>): (t: real)
    requires |curve| > 0
    ensures t == Sum(Moves(curve))
  {
    MovesTelescope(curve);
    curve[|curve| - 1].bankroll - curve[0].bankroll
  }

  /** The change of bankroll from each point of the curve to the next. */
  function Moves(curve: seq<RiskEngine.EquityPoint>): (ms: seq<real>)
    requires |curve| > 0
  {
    seq(|curve| - 1, i requires 0 <= i < |curve| - 1 => curve[i + 1].bankroll - curve[i].bankroll)
  }

  /** The moves along the curve add up to the last bankroll minus the first. */
  lemma {:induction false} MovesTelescope(curve: seq<RiskEngine.EquityPoint>)
    requires |curve| > 0
    ensures Sum(Moves(curve)) == curve[|curve| - 1].bankroll - curve[0].bankroll
    decreases |curve|
  {
    if |curve| > 1 {
      var init := curve[..|curve| - 1];
      MovesTelescope(init);
      assert Moves(curve)[..|curve| - 2] == Moves(init);
    }
  }

  /** The maximum drawdown figure: the largest drawdown on the curve. */
  function MaxDrawdown(curve: seq<RiskEngine.EquityPoint>): (m: real)
    requires |curve| > 0
    ensures forall i :: 0 <= i < |curve| ==> curve[i].drawdownPct <= m
    ensures exists i :: 0 <= i < |curve| && curve[i].drawdownPct == m
    decreases |curve|
  {
    if |curve| == 1 then curve[0].drawdownPct
    else
      var rest := MaxDrawdown(curve[..|curve| - 1]);
      var last := curve[|curve| - 1].drawdownPct;
      assert forall i :: 0 <= i < |curve| - 1 ==> curve[..|curve| - 1][i] == curve[i];
      if last > rest then last else rest
  }

  /** On the audit's equity curve, the total P&L figure is the sum of the
      audit's P&L column. */
  lemma TotalPnlIsSum(events: seq<Event>, predict: Predictor, initial: real)
    requires |events| > 0
    ensures RiskEngine.RunCfoAudit(events, predict, initial).Ok?
    ensures var l := RiskEngine.RunCfoAudit(events, predict, initial).value;
      TotalPnl(l.equity) == Sum(RiskEngine.PnlColumn(l.audit))
  {
    RiskEngine.RunPnlTotal(events, predict, initial);
  }

  /** On the audit's equity curve, whatever the prices and the start, the
      maximum drawdown figure is never negative. */
  lemma MaxDrawdownNonNegative(events: seq<Event>, predict: Predictor, initial: real)
    requires |events| > 0
    ensures RiskEngine.RunCfoAudit(events, predict, initial).Ok?
    ensures 0.0 <= MaxDrawdown(RiskEngine.RunCfoAudit(events, predict, initial).value.equity)
  {
    var c := RiskEngine.RunCfoAudit(events, predict, initial).value.equity;
    RiskEngine.RunDrawdownNonNegative(events, predict, initial);
    assert c[0].drawdownPct <= MaxDrawdown(c);
  }

  /** On the audit's equity curve, with positive odds and a non-negative
      start, the maximum drawdown figure lies between 0 and 1. */
  lemma MaxDrawdownBounded(events: seq<Event>, predict: Predictor, initial: real)
    requires |events| > 0 && initial >= 0.0 && PositiveOdds(events)
    ensures RiskEngine.RunCfoAudit(events, predict, initial).Ok?
    ensures 0.0 <= MaxDrawdown(RiskEngine.RunCfoAudit(events, predict, initial).value.equity) <= 1.0
  {
    var c := RiskEngine.RunCfoAudit(events, predict, initial).value.equity;
    RiskEngine.RunDrawdownBounds(events, predict, initial);
    var m := MaxDrawdown(c);
    var i :| 0 <= i < |c| && c[i].drawdownPct == m;
  }
}
