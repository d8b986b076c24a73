/**
 * The stake-sizing rule of `RiskManager.calculate_stake`: validation, the
 * expected-value gate, full Kelly, fractional scaling, the hard cap with a
 * clamp at zero, and the conversion to money with two-decimal rounding.
 */
module Finance {
  import opened Common

  /** Which branch of the rule produced the decision. */
  datatype Reason = InvalidProbability | InvalidOdds | NonPositiveEv | Approved

  /** The returned record: rounded stake in money, rounded stake as a
      percentage of the bankroll, the reason, and the expected value. */
  datatype StakeDecision = StakeDecision(stakeVal: real, stakePct: real, reason: Reason, ev: real)

  /** Probability strictly inside (0, 1) and odds strictly above 1. */
  predicate ValidQuote(p: real, odds: real) {
    0.0 < p < 1.0 && odds > 1.0
  }

  /** Expected return per unit staked. */
  function Ev(p: real, odds: real): (ev: real) {
    p * odds - 1.0
  }

  /** Full Kelly `(b*p - q) / b` with net odds `b = odds - 1` and `q = 1 - p`. */
  function KellyFull(p: real, odds: real): (k: real)
    requires odds > 1.0
    ensures k == Ev(p, odds) / (odds - 1.0)
    ensures k > 0.0 <==> Ev(p, odds) > 0.0
  {
    var b := odds - 1.0;
    var q := 1.0 - p;
    assert b * p - q == Ev(p, odds);
    (b * p - q) / b
  }

  /** The unrounded fraction of the bankroll the rule stakes: zero on every
      rejected path, otherwise the capped fractional Kelly clamped at zero. */
  function FinalFraction(p: real, odds: real, fraction: real, maxCap: real): (f: real)
    ensures 0.0 <= f
    ensures maxCap >= 0.0 ==> f <= maxCap
    ensures f > 0.0 ==> ValidQuote(p, odds) && Ev(p, odds) > 0.0
    ensures ValidQuote(p, odds) && Ev(p, odds) > 0.0 && Min(KellyFull(p, odds) * fraction, maxCap) >= 0.0 ==>
      f == Min(KellyFull(p, odds) * fraction, maxCap)
  {
    if !ValidQuote(p, odds) || Ev(p, odds) <= 0.0 then 0.0
    else Max(0.0, Min(KellyFull(p, odds) * fraction, maxCap))
  }

  /** `calculate_stake(probability, odds, bankroll, fraction, max_cap)`. */
  function CalculateStake(p: real, odds: real, bankroll: real, fraction: real, maxCap: real): (d: StakeDecision)
    ensures (p <= 0.0 || p >= 1.0) ==> d == StakeDecision(0.0, 0.0, InvalidProbability, 0.0)
    ensures 0.0 < p < 1.0 && odds <= 1.0 ==> d == StakeDecision(0.0, 0.0, InvalidOdds, 0.0)
    ensures ValidQuote(p, odds) ==> d.ev == p * odds - 1.0
    ensures ValidQuote(p, odds) && d.ev <= 0.0 ==> d == StakeDecision(0.0, 0.0, NonPositiveEv, d.ev)
    ensures d.reason == Approved <==> ValidQuote(p, odds) && p * odds - 1.0 > 0.0
    ensures d.reason == Approved ==>
      && d.stakeVal == Round2(bankroll * FinalFraction(p, odds, fraction, maxCap))
      && d.stakePct == Round2(FinalFraction(p, odds, fraction, maxCap) * 100.0)
    ensures d.reason != Approved ==> d.stakeVal == 0.0 && d.stakePct == 0.0
  {
    if p <= 0.0 || p >= 1.0 then StakeDecision(0.0, 0.0, InvalidProbability, 0.0)
    else if odds <= 1.0 then StakeDecision(0.0, 0.0, InvalidOdds, 0.0)
    else
      var ev := p * odds - 1.0;
      if ev <= 0.0 then StakeDecision(0.0, 0.0, NonPositiveEv, ev)
      else
        StakeDecision(
          Round2(bankroll * FinalFraction(p, odds, fraction, maxCap)),
          Round2(FinalFraction(p, odds, fraction, maxCap) * 100.0),
          Approved, ev)
  }

  /** A product of a non-negative factor and a bounded fraction stays under
      the same bound scaled by the factor. */
  lemma ScaledBelow(x: real, f: real, cap: real)
    requires x >= 0.0 && 0.0 <= f <= cap
    ensures 0.0 <= x * f <= x * cap
  {
  }

  /** Rounding a value under a bound keeps it under the bound plus half a cent. */
  lemma RoundedBelow(y: real, z: real)
    requires y <= z
    ensures Round2(y) <= z + 1.0 / 200.0
  {
  }

  /** Rounding a non-negative share of a non-negative amount stays within
      the capped share plus half a cent. */
  lemma RoundedShareWithinCap(amount: real, f: real, cap: real)
    requires amount >= 0.0 && 0.0 <= f <= cap
    ensures 0.0 <= Round2(amount * f) <= amount * cap + 1.0 / 200.0
  {
    ScaledBelow(amount, f, cap);
    RoundedBelow(amount * f, amount * cap);
  }

  /** A valid quote with positive EV is approved, and the money stake, the
      rounded bankroll share, stays under `max_cap` of the bankroll up to the
      half-cent of rounding. */
  lemma ApprovedStakeWithinCap(p: real, odds: real, bankroll: real, fraction: real, maxCap: real)
    requires bankroll >= 0.0 && maxCap >= 0.0
    requires ValidQuote(p, odds) && Ev(p, odds) > 0.0
    ensures CalculateStake(p, odds, bankroll, fraction, maxCap).reason == Approved
    ensures 0.0 <= CalculateStake(p, odds, bankroll, fraction, maxCap).stakeVal <= bankroll * maxCap + 1.0 / 200.0
  {
    RoundedShareWithinCap(bankroll, FinalFraction(p, odds, fraction, maxCap), maxCap);
  }

  /** The money stake is never negative and never more than `max_cap` of the
      bankroll, up to the half-cent of rounding. */
  lemma StakeWithinCap(p: real, odds: real, bankroll: real, fraction: real, maxCap: real)
    requires bankroll >= 0.0 && maxCap >= 0.0
    ensures 0.0 <= CalculateStake(p, odds, bankroll, fraction, maxCap).stakeVal <= bankroll * maxCap + 1.0 / 200.0
  {
    if CalculateStake(p, odds, bankroll, fraction, maxCap).reason == Approved {
      ApprovedStakeWithinCap(p, odds, bankroll, fraction, maxCap);
    } else {
      ScaledBelow(bankroll, 0.0, maxCap);
    }
  }

  /** The reported percentage is never negative and never more than
      `max_cap * 100`, up to rounding. */
  lemma PercentWithinCap(p: real, odds: real, bankroll: real, fraction: real, maxCap: real)
    requires maxCap >= 0.0
    ensures 0.0 <= CalculateStake(p, odds, bankroll, fraction, maxCap).stakePct <= maxCap * 100.0 + 1.0 / 200.0
  {
    RoundedBelow(FinalFraction(p, odds, fraction, maxCap) * 100.0, maxCap * 100.0);
  }

  /** A positive money stake only comes out of an approved, valid quote. */
  lemma PositiveStakeIsApproved(p: real, odds: real, bankroll: real, fraction: real, maxCap: real)
    ensures CalculateStake(p, odds, bankroll, fraction, maxCap).stakeVal > 0.0 ==>
      && CalculateStake(p, odds, bankroll, fraction, maxCap).reason == Approved
      && ValidQuote(p, odds) && p * odds > 1.0
  {
  }

  /** A positive money stake is less than twice `max_cap` of the bankroll:
      rounding adds at most half a cent, and a share that rounds to a
      positive amount is itself above half a cent. */
  lemma PositiveStakeUnderDouble(p: real, odds: real, bankroll: real, fraction: real, maxCap: real)
    requires bankroll > 0.0 && maxCap >= 0.0
    ensures CalculateStake(p, odds, bankroll, fraction, maxCap).stakeVal > 0.0 ==>
      CalculateStake(p, odds, bankroll, fraction, maxCap).stakeVal < 2.0 * (bankroll * maxCap)
  {
    if CalculateStake(p, odds, bankroll, fraction, maxCap).stakeVal > 0.0 {
      assert CalculateStake(p, odds, bankroll, fraction, maxCap).stakeVal
          == Round2(bankroll * FinalFraction(p, odds, fraction, maxCap)) by {
        PositiveStakeIsApproved(p, odds, bankroll, fraction, maxCap);
      }
      assert bankroll * FinalFraction(p, odds, fraction, maxCap) <= bankroll * maxCap by {
        ScaledBelow(bankroll, FinalFraction(p, odds, fraction, maxCap), maxCap);
      }
      RoundedUnderDouble(bankroll * FinalFraction(p, odds, fraction, maxCap), bankroll * maxCap);
    }
  }

  /** A positive rounding of a value under `z` is under twice `z`. */
  lemma RoundedUnderDouble(y: real, z: real)
    requires Round2(y) > 0.0 && y <= z
    ensures Round2(y) < 2.0 * z
  {
  }

  /** Full Kelly grows with the probability when the odds are fixed. */
  lemma KellyMonotone(p1: real, p2: real, odds: real)
    requires odds > 1.0 && p1 <= p2
    ensures KellyFull(p1, odds) <= KellyFull(p2, odds)
  {
    var b := odds - 1.0;
    assert Ev(p1, odds) <= Ev(p2, odds) by {
      assert Ev(p2, odds) - Ev(p1, odds) == (p2 - p1) * odds;
    }
    DivideMonotone(Ev(p1, odds), Ev(p2, odds), b);
  }

  lemma DivideMonotone(x: real, y: real, b: real)
    requires x <= y && b > 0.0
    ensures x / b <= y / b
  {
    assert y / b - x / b == (y - x) / b;
  }

  /** With odds, Kelly multiplier and cap fixed, a higher probability never
      yields a smaller stake fraction. */
  lemma FractionMonotoneInProbability(p1: real, p2: real, odds: real, fraction: real, maxCap: real)
    requires 0.0 < p1 <= p2 < 1.0 && odds > 1.0 && fraction >= 0.0
    ensures FinalFraction(p1, odds, fraction, maxCap) <= FinalFraction(p2, odds, fraction, maxCap)
  {
    if Ev(p1, odds) > 0.0 {
      assert Ev(p1, odds) <= Ev(p2, odds) by {
        assert Ev(p2, odds) - Ev(p1, odds) == (p2 - p1) * odds;
      }
      KellyMonotone(p1, p2, odds);
      ScaleMonotone(KellyFull(p1, odds), KellyFull(p2, odds), fraction);
      assert FinalFraction(p1, odds, fraction, maxCap) == Max(0.0, Min(KellyFull(p1, odds) * fraction, maxCap));
      assert FinalFraction(p2, odds, fraction, maxCap) == Max(0.0, Min(KellyFull(p2, odds) * fraction, maxCap));
    }
  }

  lemma ScaleMonotone(x: real, y: real, c: real)
    requires x <= y && c >= 0.0
    ensures x * c <= y * c
  {
    assert y * c - x * c == (y - x) * c;
  }

  /** When the scaled Kelly reaches the cap, the fraction is exactly the cap. */
  lemma CapBinds(p: real, odds: real, fraction: real, maxCap: real)
    requires ValidQuote(p, odds) && Ev(p, odds) > 0.0 && maxCap >= 0.0
    requires KellyFull(p, odds) * fraction >= maxCap
    ensures FinalFraction(p, odds, fraction, maxCap) == maxCap
  {
  }

  /** p = 0.55 at odds 2.10 on 1000 with quarter Kelly and a 5% cap: full
      Kelly is 0.155/1.1, the quarter is under the cap, and the stake is
      35.23 (3.52% of the bankroll). */
  lemma WorkedExampleApproved()
    ensures CalculateStake(0.55, 2.10, 1000.0, 0.25, 0.05) == StakeDecision(35.23, 3.52, Approved, 0.155)
  {
    assert KellyFull(0.55, 2.10) == 0.155 / 1.1;
    var f := FinalFraction(0.55, 2.10, 0.25, 0.05);
    assert f == 0.155 / 4.4;
    assert 1000.0 * f == 155.0 / 4.4;
    Round2Characterised(1000.0 * f, 3523);
    Round2Characterised(f * 100.0, 352);
  }

  /** p = 0.9 at odds 5.0: quarter Kelly is 0.21875, so the 5% cap binds. */
  lemma WorkedExampleCapped()
    ensures FinalFraction(0.9, 5.0, 0.25, 0.05) == 0.05
    ensures CalculateStake(0.9, 5.0, 1000.0, 0.25, 0.05) == StakeDecision(50.0, 5.0, Approved, 3.5)
  {
    assert KellyFull(0.9, 5.0) == 0.875;
    CapBinds(0.9, 5.0, 0.25, 0.05);
    Round2Characterised(1000.0 * 0.05, 5000);
    Round2Characterised(0.05 * 100.0, 500);
  }

  /** p = 0.40 at odds 2.00 has EV -0.20 and is rejected with no stake. */
  lemma WorkedExampleRejected()
    ensures CalculateStake(0.40, 2.00, 1000.0, 0.25, 0.05) == StakeDecision(0.0, 0.0, NonPositiveEv, -0.2)
  {
  }
}
