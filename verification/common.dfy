/**
 * Shared vocabulary of the BetSight staking core: the historical fixture,
 * the predictor's probability estimate, the outcome tag of a resolved wager,
 * the error of a run over an empty history, and Python's two-decimal
 * rounding. Python floats are modelled as exact reals throughout.
 */
module Common {

  /** One completed fixture of the historical table: kick-off date (a day
      number), the two clubs, the bookmaker's decimal odds for home win,
      draw and away win, and the full-time result label ("H", "D" or "A"). */
  datatype Event = Event(
    date: int,
    home: string,
    away: string,
    oddsH: real,
    oddsD: real,
    oddsA: real,
    ftr: string)

  /** Every row of `events` has positive home odds. */
  ghost predicate PositiveOdds(events: seq<Event>) {
    forall i :: 0 <= i < |events| ==> events[i].oddsH > 0.0
  }

  /** The predictor's answer for one fixture: probabilities for home win,
      draw and away win, plus the market difference it computed. */
  datatype Probs = Probs(h: real, d: real, a: real, mktDiff: real)

  /** The predictor is an opaque oracle, passed to the simulators. */
  type Predictor = Event -> Probs

  /** How a wager resolved: won, lost, or no wager placed. */
  datatype Tag = Win | Loss | Skip

  /** A run over a history with no rows fails when it reads the first date. */
  datatype RunError = EmptyHistory

  datatype Result<T> = Ok(value: T) | Err(error: RunError)

  /** Profit or loss of one wager and how it is tagged. */
  datatype Resolution = Resolution(pnl: real, outcome: Tag)

  /** Settles a home-win wager of `stake` at decimal odds `oddsH` against
      the full-time result: a win pays the net odds, any other result
      forfeits the stake, and no positive stake means no wager. */
  function Settle(stake: real, oddsH: real, ftr: string): (res: Resolution) {
    if stake > 0.0 then
      if ftr == "H" then Resolution(stake * (oddsH - 1.0), Win)
      else Resolution(-stake, Loss)
    else Resolution(0.0, Skip)
  }

  /** The "Home vs Away" label written into every ledger row. */
  function MatchLabel(e: Event): (name: string) {
    e.home + " vs " + e.away
  }

  function Min(a: real, b: real): (m: real) {
    if a <= b then a else b
  }

  function Max(a: real, b: real): (m: real) {
    if a >= b then a else b
  }

  /** The sum of a column of amounts, added from the front. */
  function Sum(xs: seq<real>): (s: real)
    decreases |xs|
  {
    if |xs| == 0 then 0.0 else Sum(xs[..|xs| - 1]) + xs[|xs| - 1]
  }

  /** `x` rounded to `digits` decimal places, ties to even: each place
      scales `x` by ten, and at no places left the value moves by steps of
      two, which keep the parity, into [0, 2), where the nearest integer is
      read off. */
  function RoundTo(x: real, digits: nat): (r: real)
    decreases digits, if x >= 0.0 then x.Floor else 1 - x.Floor
  {
    if digits > 0 then RoundTo(x * 10.0, digits - 1) / 10.0
    else if x >= 2.0 then RoundTo(x - 2.0, 0) + 2.0
    else if x < 0.0 then RoundTo(x + 2.0, 0) - 2.0
    else if x <= 0.5 then 0.0
    else if x < 1.5 then 1.0
    else 2.0
  }

  /** `k` is an integer nearest to `y`, and the even one on a tie. */
  predicate IsNearestEven(y: real, k: int) {
    || (k as real - 0.5 < y < k as real + 0.5)
    || ((y == k as real - 0.5 || y == k as real + 0.5) && k % 2 == 0)
  }

  /** At most one integer is nearest to `y` with ties to even. */
  lemma NearestEvenUnique(y: real, k1: int, k2: int)
    requires IsNearestEven(y, k1) && IsNearestEven(y, k2)
    ensures k1 == k2
  {
  }

  /** Rounding to no places gives a whole number: the integer nearest to
      `y`, the even one on a tie. */
  lemma {:induction false} RoundToNearestEven(y: real)
    ensures RoundTo(y, 0) == RoundTo(y, 0).Floor as real
    ensures IsNearestEven(y, RoundTo(y, 0).Floor)
    decreases if y >= 0.0 then y.Floor else 1 - y.Floor
  {
    if y >= 2.0 {
      RoundToNearestEven(y - 2.0);
      var k := RoundTo(y - 2.0, 0).Floor;
      assert RoundTo(y, 0) == (k + 2) as real;
      assert (k + 2) % 2 == k % 2;
    } else if y < 0.0 {
      RoundToNearestEven(y + 2.0);
      var k := RoundTo(y + 2.0, 0).Floor;
      assert RoundTo(y, 0) == (k - 2) as real;
      assert (k - 2) % 2 == k % 2;
    }
  }

  /** `RoundTo(y, 0)` is `k` exactly when `k` is the integer nearest to
      `y`, the even one on a tie. */
  lemma RoundToCharacterised(y: real, k: int)
    ensures RoundTo(y, 0) == k as real <==> IsNearestEven(y, k)
  {
    RoundToNearestEven(y);
    if IsNearestEven(y, k) {
      NearestEvenUnique(y, k, RoundTo(y, 0).Floor);
    }
  }

  /** Python's `round(x, 2)`: the nearest multiple of 0.01, ties to the even
      hundredth. Applied to the exact real, not to a binary float. */
  function Round2(x: real): (r: real)
    ensures x - 1.0 / 200.0 <= r <= x + 1.0 / 200.0
    ensures x >= 0.0 ==> r >= 0.0
    ensures x <= 0.0 ==> r <= 0.0
    ensures 0.0 <= x <= 1.0 / 200.0 ==> r == 0.0
    ensures r > 0.0 ==> x > 1.0 / 200.0
  {
    Round2Hundredths(x);
    RoundToNearestEven(x * 100.0);
    RoundTo(x, 2)
  }

  /** Rounding to two places is rounding a hundred times the value to no
      places, divided back. */
  lemma Round2Hundredths(x: real)
    ensures RoundTo(x, 2) == RoundTo(x * 100.0, 0) / 100.0
  {
    assert RoundTo(x * 10.0, 1) == RoundTo(x * 10.0 * 10.0, 0) / 10.0;
    assert x * 10.0 * 10.0 == x * 100.0;
  }

  /** `Round2(x)` is `k` hundredths exactly when `k` is the integer nearest
      to `100 * x`, the even one on a tie. */
  lemma Round2Characterised(x: real, k: int)
    ensures Round2(x) == k as real / 100.0 <==> IsNearestEven(x * 100.0, k)
  {
    Round2Hundredths(x);
    RoundToCharacterised(x * 100.0, k);
  }
}
