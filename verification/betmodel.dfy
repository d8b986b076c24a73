/**
 * The parts of `BetModel` in src/model.py that do not depend on the trained
 * classifier: the answer when no model is loaded, the fallback answer when
 * the classifier path raises, the market difference computed on the model
 * path, and the reasons `explain_prediction` gives for a prediction.
 */
module BetModel {
  import opened Common

  /** The state of the inference engine for one call of `predict_match`:
      no model loaded; a model loaded but the classifier path raised (an
      unseen team); or the classifier's three class probabilities. */
  datatype Inference = NoModel | Raised | Classified(h: real, d: real, a: real)

  /** The implied-probability gap between home and away, `1/odds_h - 1/odds_a`. */
  function MarketDiff(oddsH: real, oddsA: real): (m: real)
    requires oddsH != 0.0 && oddsA != 0.0
    ensures oddsH > 0.0 && oddsA > 0.0 ==> (m > 0.0 <==> oddsH < oddsA)
    ensures oddsH > 0.0 && oddsA > 0.0 ==> (m == 0.0 <==> oddsH == oddsA)
  {
    MarketDiffSign(oddsH, oddsA);
    1.0 / oddsH - 1.0 / oddsA
  }

  /** For positive odds, the shorter price has the larger implied
      probability. */
  lemma MarketDiffSign(oddsH: real, oddsA: real)
    requires oddsH != 0.0 && oddsA != 0.0
    ensures oddsH > 0.0 && oddsA > 0.0 ==> (1.0 / oddsH - 1.0 / oddsA > 0.0 <==> oddsH < oddsA)
    ensures oddsH > 0.0 && oddsA > 0.0 ==> (1.0 / oddsH - 1.0 / oddsA == 0.0 <==> oddsH == oddsA)
  {
    if oddsH > 0.0 && oddsA > 0.0 {
      assert 1.0 / oddsH - 1.0 / oddsA == (oddsA - oddsH) / (oddsH * oddsA);
    }
  }

  /** `predict_match(home, away, odds_h, odds_a)`. Both odds must be non-zero
      on every path that reaches the divisions; the no-model path returns
      before them. With no model every probability is zero. The fallback
      gives no draw and no market difference, a proper probability to each
      side priced above 1, and the larger one to the shorter price. The
      classifier's probabilities pass through unchanged, next to a market
      difference whose sign names the market favourite. */
  function PredictMatch(inf: Inference, oddsH: real, oddsA: real): (r: Probs)
    requires inf != NoModel ==> oddsH != 0.0 && oddsA != 0.0
    ensures inf == NoModel ==> r.h == 0.0 && r.d == 0.0 && r.a == 0.0 && r.mktDiff == 0.0
    ensures inf == Raised ==> r.d == 0.0 && r.mktDiff == 0.0
    ensures inf == Raised && oddsH > 1.0 ==> 0.0 < r.h < 1.0
    ensures inf == Raised && oddsA > 1.0 ==> 0.0 < r.a < 1.0
    ensures inf == Raised && oddsH > 0.0 && oddsA > 0.0 ==>
      (r.h > r.a <==> oddsH < oddsA) && (r.h == r.a <==> oddsH == oddsA)
    ensures inf.Classified? ==> r.h == inf.h && r.d == inf.d && r.a == inf.a
    ensures inf.Classified? && oddsH > 0.0 && oddsA > 0.0 ==>
      (r.mktDiff > 0.0 <==> oddsH < oddsA) && (r.mktDiff == 0.0 <==> oddsH == oddsA)
    ensures inf.Classified? && oddsH > 1.0 && oddsA > 1.0 ==> -1.0 < r.mktDiff < 1.0
  {
    match inf
    case NoModel => Probs(0.0, 0.0, 0.0, 0.0)
    case Raised =>
      MarketDiffSign(oddsH, oddsA);
      Probs(1.0 / oddsH, 0.0, 1.0 / oddsA, 0.0)
    case Classified(h, d, a) =>
      UnitShare(oddsH);
      UnitShare(oddsA);
      Probs(h, d, a, MarketDiff(oddsH, oddsA))
  }

  /** A decimal price above 1 implies a probability strictly between 0 and 1. */
  lemma UnitShare(odds: real)
    requires odds != 0.0
    ensures odds > 1.0 ==> 0.0 < 1.0 / odds < 1.0
  {
  }

  /** The fallback answer is not normalised: with odds 2.0 and 2.0 its
      probabilities already sum to one and leave nothing for the draw, and
      with odds 1.5 and 2.5 they sum to more than one. */
  lemma FallbackNotNormalised()
    ensures var r := PredictMatch(Raised, 2.0, 2.0); r.h + r.d + r.a == 1.0
    ensures var r := PredictMatch(Raised, 1.5, 2.5); r.h + r.d + r.a > 1.0
  {
    assert PredictMatch(Raised, 1.5, 2.5) == Probs(1.0 / 1.5, 0.0, 1.0 / 2.5, 0.0);
  }

  /** The reasons `explain_prediction` can give. */
  datatype Reason = Consensus | Upset | Balanced | StrongSignal | Risk

  /** The market reason: the home side is the favourite, the market bets
      against it, or the odds are balanced. */
  predicate IsMarketReason(r: Reason) {
    r == Consensus || r == Upset || r == Balanced
  }

  /** Threshold on the market difference for a market call. */
  const MarketThreshold: real := 0.15
  /** Home probability above which the model confirms the favourite. */
  const StrongThreshold: real := 0.60
  /** Home probability below which the model is sceptical of the home side. */
  const RiskThreshold: real := 0.40

  /** `explain_prediction(probs, mkt_diff)`: one market reason, then at most
      one reason about the model's home probability. */
  function ExplainPrediction(probs: Probs, mktDiff: real): (rs: seq<Reason>)
    ensures 1 <= |rs| <= 2
    ensures IsMarketReason(rs[0])
    ensures rs[0] == Consensus <==> mktDiff > MarketThreshold
    ensures rs[0] == Upset <==> mktDiff < -MarketThreshold
    ensures rs[0] == Balanced <==> -MarketThreshold <= mktDiff <= MarketThreshold
    ensures |rs| == 2 <==> probs.h > StrongThreshold || probs.h < RiskThreshold
    ensures |rs| == 2 ==> (rs[1] == StrongSignal <==> probs.h > StrongThreshold)
    ensures |rs| == 2 ==> (rs[1] == Risk <==> probs.h < RiskThreshold)
  {
    var market :=
      if mktDiff > MarketThreshold then Consensus
      else if mktDiff < -MarketThreshold then Upset
      else Balanced;
    if probs.h > StrongThreshold then [market, StrongSignal]
    else if probs.h < RiskThreshold then [market, Risk]
    else [market]
  }

  /** The reasons never repeat and the model reason never is a market one. */
  lemma ExplainDistinct(probs: Probs, mktDiff: real)
    ensures var rs := ExplainPrediction(probs, mktDiff);
      |rs| == 2 ==> !IsMarketReason(rs[1]) && rs[0] != rs[1]
  {
  }

  /** With no model loaded the explanation is "balanced" followed by
      "risk": a zero home probability is below the risk threshold. */
  lemma ExplainNoModel(oddsH: real, oddsA: real)
    ensures var p := PredictMatch(NoModel, oddsH, oddsA);
      ExplainPrediction(p, p.mktDiff) == [Balanced, Risk]
  {
  }

  /** On the fallback path the market difference passed along is zero, so
      the market reason is always "balanced", whatever the odds. */
  lemma ExplainFallbackBalanced(oddsH: real, oddsA: real)
    requires oddsH != 0.0 && oddsA != 0.0
    ensures var p := PredictMatch(Raised, oddsH, oddsA);
      ExplainPrediction(p, p.mktDiff)[0] == Balanced
  {
  }
}
