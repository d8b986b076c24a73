# BetSight staking core in Dafny

This project models the staking and backtest engine of BetSight, a
football-betting assistant. It proves properties of that model. The core is
made of five parts:

- **Stake rule.** `RiskManager.calculate_stake` works in four steps. It
  validates the quote. It gates on expected value. It sizes the stake as a
  fraction of full Kelly under a hard cap, clamped at zero. It reports the
  stake in money and as a percentage, both rounded to two decimals.
- **CFO audit.** `Backtester.run_cfo_audit` in `src/risk_engine.py` sorts the
  history by date and keeps the last 100 rows. It replays them with an
  inline quarter-Kelly rule: net odds floored at 0.01 and a 5% cap. It
  tracks a compounding bankroll, a high-water mark and the drawdown from it.
- **Walk-forward run.** `Backtester.run_walk_forward_simulation` in
  `src/backtest.py` keeps the last 50 rows. It sizes every wager with
  `calculate_stake` on the current balance.
- **Predictor branches.** The model covers the branches of
  `BetModel.predict_match` that do not touch the classifier: no model is
  loaded, or the classifier path raises for an unseen club. It also covers
  the market difference and the reasons `explain_prediction` gives.
- **Dashboard rules.** The traffic light and the two headline figures of
  `app.py`: total P&L and maximum drawdown.

Python floats are modelled as exact `real`s. `round(x, 2)` is modelled as
rounding the exact real to the nearest hundredth, with ties going to the
even hundredth.

The predictor is a parameter of type `Event -> Probs`. Both simulators take
it as given. The trained classifier is not modelled.

A run over an empty history fails in the source, where it reads the first
row's date. Here that run returns `Err(EmptyHistory)`.

Modules follow the source files:

| Module | Contents |
|---|---|
| `Common` | shared records and rounding |
| `Chrono` | sort by date, then keep the last N rows |
| `Finance` | `src/finance.py` |
| `RiskEngine` | `src/risk_engine.py` |
| `Backtest` | `src/backtest.py` |
| `BetModel` | `src/model.py` |
| `App` | `app.py` |
| `Scenarios` | how the parts combine: the two stake rules side by side, and whole runs under the no-model and fallback predictors |

Three facts about the code shape the model:

- **Worked example.** `calculate_stake(0.55, 2.10, 1000, 0.25, 0.05)` stakes
  35.23. Full Kelly is 0.155 / 1.1, so quarter Kelly is about 3.52% of the
  bankroll, under the 5% cap.
- **Fallback probabilities.** The fallback of `predict_match` returns the raw
  implied probabilities `1/odds_h` and `1/odds_a`, with a zero draw. It does
  not normalise them, so they can sum to more than one.
- **Result record.** `calculate_stake` returns a record with `stake_val`,
  `stake_pct`, a reason string and the EV. It has no `approved` flag. Here
  the reason is an enumeration, and the `Approved` reason plays that role.

## Model

| member | source | states |
|---|---|---|
| Common.Round2 | src/finance.py:59-60 | the two-decimal rounding moves a value by at most half a cent, keeps its sign, and sends every value in [0, 0.005] to zero |
| Common.Round2Characterised | src/finance.py:59-60 | `round(x, 2)` is k hundredths exactly when k is the integer nearest to 100x, the even one on a tie |
| Common.RoundToCharacterised | src/finance.py:59-60 | rounding to no places yields k exactly when k is the nearest integer, ties to even |
| Chrono.SortByDate | src/risk_engine.py:17 | the history ordered by date: dates never decrease and the length is kept (row preservation is `Chrono.SortPermutes`) |
| Chrono.SortPermutes | src/risk_engine.py:17 | sorting keeps every row as often as it occurs (multiset equality) |
| Chrono.Tail | src/risk_engine.py:19 | `tail(n)` has min(len, n) rows, and they are the last rows of the input, in order |
| Chrono.TailOfSorted | src/risk_engine.py:17-19 | the window cut from a sorted history is sorted, is a sub-multiset of it, and no row left out is later than a row kept |
| Finance.CalculateStake | src/finance.py:8-63 | invalid probability, invalid odds and non-positive EV each return a zero stake with their own reason, checked in that order; approval happens exactly when the quote is valid and p·odds > 1; an approved stake is the rounded bankroll share and percentage |
| Finance.KellyFull | src/finance.py:41-45 | `(b*p - q)/b` equals EV divided by the net odds, and it is positive exactly when the EV is |
| Finance.FinalFraction | src/finance.py:48-53 | the staked fraction is never negative, never above the cap, positive only on an approved quote, and equal to the capped fractional Kelly whenever that is not negative |
| Finance.StakeWithinCap | src/finance.py:52-59 | the money stake is never negative and never more than `max_cap` of the bankroll, plus half a cent of rounding |
| Finance.ApprovedStakeWithinCap | src/finance.py:52-59 | a valid quote with positive EV is approved, and its rounded stake lies within [0, bankroll·max_cap + 0.005] |
| Finance.PercentWithinCap | src/finance.py:52-60 | the reported percentage lies within [0, 100·max_cap + 0.005] |
| Finance.PositiveStakeIsApproved | src/finance.py:23-36 | a positive money stake only comes from an approved decision on a valid quote with p·odds > 1 |
| Finance.PositiveStakeUnderDouble | src/finance.py:52-59 | a positive money stake is below twice `max_cap` of a positive bankroll |
| Finance.KellyMonotone | src/finance.py:41-45 | at fixed odds, full Kelly never decreases as the probability rises |
| Finance.FractionMonotoneInProbability | src/finance.py:30-53 | at fixed odds, multiplier and cap, a higher probability never gives a smaller staked fraction |
| Finance.CapBinds | src/finance.py:48-53 | when the scaled Kelly reaches the cap, the staked fraction is exactly the cap |
| Finance.WorkedExampleApproved | src/finance.py:8-63 | p = 0.55 at odds 2.10 on 1000 stakes 35.23 (3.52%) with EV 0.155 |
| Finance.WorkedExampleCapped | src/finance.py:48-63 | p = 0.9 at odds 5.0 hits the 5% cap: a stake of 50.00 |
| Finance.WorkedExampleRejected | src/finance.py:30-38 | p = 0.40 at odds 2.00 has EV -0.2 and is rejected with no stake |
| RiskEngine.NetOdds | src/risk_engine.py:39-40 | net odds are always positive: `odds_h - 1` when that is positive, otherwise 0.01 |
| RiskEngine.StakePct | src/risk_engine.py:44-52 | the audit's share lies in [0, 0.05]; it is zero exactly when Kelly is not positive, and otherwise is the quarter Kelly capped at 5% |
| RiskEngine.AuditFold | src/risk_engine.py:28-97 | one audit record and one equity point per row, each point carrying its record's date, bankroll and drawdown |
| RiskEngine.RunCfoAudit | src/risk_engine.py:12-99 | an error exactly on an empty history; otherwise min(n, 100) records in date order, and an equity curve one point longer that starts at the initial bankroll with zero drawdown and then mirrors the records |
| RiskEngine.AuditFoldSteps | src/risk_engine.py:28-91 | record i is the loop body applied to row i, with the bankroll the previous record left and the high-water mark over the previous records |
| RiskEngine.AuditStepFollows | src/risk_engine.py:34-67 | one iteration settles its row: a capped quarter-Kelly share of the current bankroll, a home win pays the net odds, any other result loses the stake, no stake means a skip |
| RiskEngine.AuditFoldFollows | src/risk_engine.py:28-91 | every record of the loop settles its own row from the bankroll the previous record left |
| RiskEngine.AuditFoldDrawdown | src/risk_engine.py:69-76 | each record's drawdown is measured from the high-water mark reached once its own bankroll counts |
| RiskEngine.PeakOverSnoc | src/risk_engine.py:70-71 | one more record raises the high-water mark to that record's bankroll if it is higher |
| RiskEngine.PeakMonotone | src/risk_engine.py:70-71 | the high-water mark never falls, and after each record it is at least that record's bankroll |
| RiskEngine.DrawdownPctBounds | src/risk_engine.py:73-76 | measured from a mark at or above the bankroll, the drawdown is never negative, is zero at the mark, and is at most 1 while the bankroll is not negative |
| RiskEngine.StepBankFloor | src/risk_engine.py:52-67 | with positive odds, one row costs at most 5% of a non-negative bankroll |
| RiskEngine.StepGrowth | src/risk_engine.py:55-67 | a row multiplies a positive bankroll by its growth factor, which is at least 0.95 when the odds are positive |
| RiskEngine.CompoundingAt | src/risk_engine.py:55-67 | before row k the bankroll is the start times the product of the growth factors so far, and it stays positive |
| RiskEngine.BankrollFloor | src/risk_engine.py:55-67 | with positive odds and a non-negative start, no row loses more than 5% and the bankroll never goes negative |
| RiskEngine.PnlTelescopes | src/risk_engine.py:56-67 | the bankroll before row k is the start plus the P&L of the rows before it |
| RiskEngine.RunAuditLog | src/risk_engine.py:17-28 | the audit log is the loop over the window, with the bankroll and the high-water mark both starting at the initial value |
| RiskEngine.WindowIsLatest | src/risk_engine.py:17-19 | the replayed rows are the last min(n, 100) rows of the date-sorted history: sorted, drawn from the history, none later left out |
| RiskEngine.RunFollowsWindow | src/risk_engine.py:12-99 | every record of a run settles its window row from the bankroll the previous record left |
| RiskEngine.FoldDrawdownNonNegative | src/risk_engine.py:69-76 | whatever the prices, the start and the opening mark, no record of the loop has a negative drawdown |
| RiskEngine.RunDrawdownNonNegative | src/risk_engine.py:12-99 | whatever the prices and the start, no drawdown in the log or on the curve is negative |
| RiskEngine.RunDrawdownBounds | src/risk_engine.py:69-97 | with positive odds and a non-negative start, every drawdown in the log and on the curve lies in [0, 1] |
| RiskEngine.RunCompounds | src/risk_engine.py:55-67 | the final bankroll is the initial one times the window's growth factors, and stays positive |
| RiskEngine.RunPnlTotal | src/risk_engine.py:56-89 | the final bankroll is the initial one plus the sum of the P&L column |
| Backtest.WalkFold | src/backtest.py:30-83 | one history row and one balance point per window row; each row is dated like its fixture and each point carries its row's date and bankroll |
| Backtest.RunWalkForward | src/backtest.py:12-85 | an error exactly on an empty history; otherwise min(n, 50) rows in date order, and a balance curve one point longer that starts at the initial bankroll and then mirrors the rows |
| Backtest.WalkStepFollowsRow | src/backtest.py:39-68 | one iteration stakes what `calculate_stake` approves on the current balance at quarter Kelly with a 5% cap, and settles it on the home result |
| Backtest.WalkFoldFollows | src/backtest.py:30-83 | every row of the loop settles its fixture from the balance the previous row left |
| Backtest.WalkStepFloor | src/backtest.py:45-68 | on a positive balance, at any price, a stake is at most 5% of the balance plus half a cent, and the row keeps more than 90% of the balance, because a positive stake is only placed at odds above 1 |
| Backtest.WalkBankPositiveAt | src/backtest.py:53-68 | from a positive start, at any prices, the balance before every row stays positive |
| Backtest.WalkBalancesPositive | src/backtest.py:53-68 | from a positive start, at any prices, the balance after every row is positive |
| Backtest.WalkPnlTelescopes | src/backtest.py:56-68 | the balance before row k is the start plus the P&L of the rows before it |
| Backtest.RunWalkFollowsWindow | src/backtest.py:12-85 | every row of a run settles its window row from the balance the previous row left |
| Backtest.WalkWindowIsLatest | src/backtest.py:18-22 | the replayed rows are the last min(n, 50) rows of the date-sorted history: sorted, drawn from the history, none later left out |
| Backtest.RunWalkBalancePositive | src/backtest.py:53-83 | from a positive start, at any prices, every history balance and every curve point is positive, and every stake is at most 5% of the balance before it plus half a cent |
| Backtest.RunWalkPnlTotal | src/backtest.py:56-80 | the final balance is the initial one plus the sum of the P&L column |
| BetModel.MarketDiff | src/model.py:33-35 | for positive odds, the market difference is positive exactly when the home price is the shorter, and zero exactly when the prices are equal |
| BetModel.MarketDiffSign | src/model.py:33-35 | the sign of `1/odds_h - 1/odds_a` follows the order of the two prices |
| BetModel.PredictMatch | src/model.py:20-51 | with no model, every probability is zero. On the fallback: no draw and no market difference; each side priced above 1 gets a probability strictly between 0 and 1; the home side gets the larger probability exactly when its price is the shorter, and an equal one exactly on equal prices. On the classifier path: its probabilities pass through unchanged; the market difference is positive exactly when home is the shorter price, zero exactly on equal prices, and strictly between -1 and 1 when both prices are above 1 |
| BetModel.FallbackNotNormalised | src/model.py:49-51 | the fallback probabilities need not sum to one: at odds 1.5 and 2.5 they sum to more than one |
| BetModel.ExplainPrediction | src/model.py:53-70 | one market reason chosen by ±0.15 thresholds on the market difference, then a model reason exactly when the home probability is above 0.60 (strong signal) or below 0.40 (risk) |
| BetModel.ExplainDistinct | src/model.py:58-68 | the second reason is never a market reason and never repeats the first |
| BetModel.ExplainNoModel | src/model.py:22 | with no model loaded the explanation is "balanced" followed by "risk" |
| BetModel.ExplainFallbackBalanced | src/model.py:49-63 | on the fallback path the market reason is always "balanced" |
| App.TrafficLight | app.py:78-87 | green exactly when EV > 0.05 and the home probability > 0.55; yellow exactly when EV > 0 and not green; red exactly when EV ≤ 0 |
| App.RedExactlyWhenRejected | app.py:75-87 | fed with the stake rule's decision, the light is red exactly when no stake is approved, and green only on an approved stake |
| App.LightMonotone | app.py:78-87 | a higher EV and a higher home probability never give a worse light |
| App.TotalPnl | app.py:128 | the total P&L figure is the sum of the bankroll moves between consecutive points of the curve |
| App.MovesTelescope | app.py:128 | the moves between consecutive points of a curve add up to its last bankroll minus its first |
| App.TotalPnlIsSum | app.py:128 | on the audit's curve, the total P&L figure is the sum of the audit's P&L column |
| App.MaxDrawdown | app.py:129 | the figure is at least every drawdown on the curve and equal to one of them |
| App.MaxDrawdownNonNegative | app.py:129 | on the audit's curve, whatever the prices and the start, the maximum drawdown is never negative |
| App.MaxDrawdownBounded | app.py:129 | on the audit's curve, with positive odds and a non-negative start, the maximum drawdown lies in [0, 1] |
| Scenarios.AuditRuleMatchesStakeRule | src/risk_engine.py:39-52 | on a valid quote the audit's inline share equals the fraction `calculate_stake` computes at quarter Kelly with a 5% cap |
| Scenarios.RulesDisagreeAtEvenOdds | src/risk_engine.py:39-52 | at home odds of 1.0 or less, `calculate_stake` rejects any valid probability for its odds, while the audit, flooring the net odds at 0.01, stakes something exactly when 101·p > 100 and the full 5% exactly when 101·p ≥ 100.2 |
| Scenarios.RulesDisagreeExample | src/risk_engine.py:39-52 | at home odds 1.0, p = 0.995 is rejected by `calculate_stake` but draws the full 5% audit stake, while p = 0.5 draws no audit stake |
| Scenarios.AuditFlatWhenNoStake | src/risk_engine.py:55-67 | when the inline rule stakes nothing on any row, the audit is all skips and the bankroll never moves |
| Scenarios.WalkFlatWhenNoStake | src/backtest.py:53-68 | when `calculate_stake` approves nothing on any row, the walk-forward history is all skips and the balance never moves |
| Scenarios.NoModelPredictor | src/model.py:22 | with no model loaded every fixture gets all-zero probabilities |
| Scenarios.NoModelStakesNothing | src/risk_engine.py:39-52 | a zero home probability gives no audit stake, whatever the odds |
| Scenarios.NoModelAuditIsFlat | src/risk_engine.py:12-99 | with no model loaded, the audit is all skips at the initial bankroll |
| Scenarios.NoModelWalkIsFlat | src/backtest.py:12-85 | with no model loaded, the walk-forward run is all skips at the initial balance |
| Scenarios.FallbackFailsGate | src/finance.py:23-32 | the fallback home probability never passes validation and the EV gate together |
| Scenarios.FallbackNeverApproved | src/finance.py:23-38 | on the fallback path `calculate_stake` never approves and stakes nothing |
| Scenarios.FallbackAuditStake | src/risk_engine.py:39-52 | on the fallback path the audit stakes nothing above odds 1, and the full 5% for odds in (0, 1] |
| Scenarios.FallbackWalkIsFlat | src/backtest.py:12-85 | when the predictor falls back on every row, the walk-forward run is all skips at the initial balance |
| Scenarios.EvenOddsFallbackScenario | src/risk_engine.py:12-99 | one fixture at home odds 1.0 with the fallback answer, lost at home: the audit loses 50 of 1000 with a 5% drawdown, while the walk-forward run skips it |

## Left out

- The Streamlit page, its CSS, the CSV input and the plots (`plot_dashboard`, `plot_equity_curve`): these are presentation only.
- `src/data_loader.py` and `train_model.py`: loading data and training the model are I/O and machine learning.
- The classifier path of `predict_match`, meaning the label encoder and `predict_proba`. The classifier's three probabilities are an input to `BetModel.PredictMatch`.
- The predictor type `Common.Predictor` takes the whole `Event`, date and full-time result included. The source passes the predictor only the two clubs and the two prices (`src/risk_engine.py:34`). So the model allows predictors the source cannot express, such as one that reads the result. Every lemma holds for any predictor, so it also holds for those the source allows.
- Unparseable dates. The loader coerces them to pandas' missing date (NaT), which sorts last and can land in the replayed window. `Common.Event.date` is an integer, so such rows are not modelled.
- IEEE-754 rounding of the float arithmetic. Every computation uses exact reals.
- Common.Round2: rounds the exact real. Python rounds the binary float, so on a decimal tie the result can differ from the float's.
- Chrono.SortByDate: a stable insertion sort. pandas' default `sort_values` does not promise an order among rows with equal dates, so that order is left unmodelled.
- `src/backtest.py:39-41` calls `predict_match` with five arguments, but `src/model.py:20` takes four. As written, the walk-forward run raises on its first row. The model passes the predictor as a function of the fixture, as the four-argument call at `src/risk_engine.py:34` does.
- `app.py:27` calls `ai.train_model(df)`, but the `BetModel` class of `src/model.py` has no `train_model`. As written, start-up fails on any non-empty history. The model does not depend on that call.
- `app.py:7` imports `Backtester` from `src/backtest.py`, but `app.py:119` calls `run_cfo_audit`, which that class lacks. The model connects the dashboard figures to `run_cfo_audit` of `src/risk_engine.py`.
- BetModel.PredictMatch: requires non-zero odds on the fallback and classifier paths, where Python would raise `ZeroDivisionError`. A zero price inside the `try` block would in fact be caught and fall into the fallback, which divides again and raises.
- BetModel.MarketDiff: requires non-zero odds for the same reason.
- Backtest.WalkStepFloor: states a 90% floor per row, weaker than the 95% of the audit. The rounding of the stake to cents can add half a cent to the 5% cap, and a share that rounds up to a positive stake may exceed 5% of a very small balance.
- Scenarios.FallbackAuditStake: holds in exact arithmetic, where `b·(1/odds) - (1 - 1/odds)` cancels to zero above odds 1. In binary floating point it can leave a Kelly value of about 1e-16, and the audit then logs a tiny Win or Loss instead of a Skip.
- Scenarios.AuditRuleMatchesStakeRule: holds in exact arithmetic. In floating point the inline Kelly and `calculate_stake`'s EV gate can round differently on a fair price, so the two rules can disagree on such a row.
- The audit's bankroll floor, compounding positivity and the upper drawdown bound of 1 (`RiskEngine.StepBankFloor`, `RiskEngine.CompoundingAt`, `RiskEngine.BankrollFloor`, `RiskEngine.RunCompounds`, `RiskEngine.RunDrawdownBounds`, `App.MaxDrawdownBounded`) assume positive home odds on every row. The 0.01 floor on the net odds lets the audit stake at a price of 1 or less, where a home win pays `stake * (odds_h - 1)`, which is not positive. The source does not check the historical odds. The walk-forward bounds and the lower drawdown bound of 0 hold at any price.
