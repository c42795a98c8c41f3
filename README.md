# Monte Carlo effort forecast: triangular sampling and the experiment loop

The forecast script estimates the total effort of a project by Monte Carlo
simulation. Every line item has a low and a high estimate. One experiment
draws a value for every item from the script's `TriangularDistribution`
sampler and sums the draws into one outcome. Despite its name, that sampler
does not follow a triangular density: for distinct bounds and a mode strictly
between 0 and 1, as with the script's 0.6, it never returns values in a band
around the peak (see below). The script repeats this `experiment_count` times.

This project models the two parts of the script with arithmetic content:

- `Triangular` (`triangular.dfy`): the strategy `TriangularDistribution`.
  Its only field is `mode` (line 12), the fraction of the way from `low` to
  `high` at which the triangle peaks. The datatype constructor plays the part
  of `__init__`. `Pick` is the method `pick` (lines 15-17), with the uniform
  draw passed in as `value`. The peak is `Peak(low, high, mode)`, that is
  `low + (high - low) * mode`. Every product of the model goes through the
  helper `Scale`, which is plain multiplication: as one named term it lets
  the solver match each product against the facts of the small `Scale*`
  lemmas, which it does not do reliably for a bare product such as
  `mode * (high - low)`.
- `Experiment` (`experiment.dfy`): the outcome list of line 31. `Picks` is the
  inner list of one experiment and `Sum` is Python's `sum`, a left-to-right
  addition starting from 0. `Outcomes` is the outer list over
  `range(experiment_count)`. `Forecast` fixes the mode to 0.6, as line 29 does.
  The random draws arrive as a table holding one row of draws per experiment
  and one draw per bound row.

The code reuses one draw `value` for two jobs. It chooses the leg with
`value < mode`, then scales the same `value` into that leg. For distinct
bounds `low < high` and a mode strictly between 0 and 1 (as with the
script's 0.6), this leaves a gap. On the left leg the draw lies below `mode`,
so the sample stays strictly below `GapLow = low + mode * (peak - low)`. On
the right leg the draw is at least `mode`, so the sample is never below
`GapHigh = peak + mode * (high - peak)`. So, under those conditions, no
sample lies in the band `[GapLow, GapHigh)`, and the peak lies strictly
inside that band. `PickSkipsPeak` proves this. With `mode = 0.6` and bounds
`[0, 10]` the band is `[3.6, 8.4)` and the peak is 6. When `low == high`
the band is empty and every sample is `low`. With mode 0 or 1 one leg gets
no draws and the band is empty too; with mode 0, draw 0 returns the peak
itself. `InImage` and `DrawFor` give the
exact set of values `pick` can return, for every mode in [0, 1] and
`low < high`.

The comment above `pick` (line 14) gives a spreadsheet formula that uses three
independent draws. The code uses one draw, and it validates neither the mode
nor the bounds. The model follows the code. Its lemmas state the
preconditions `low <= high`, `0 <= mode <= 1` and `0 <= value < 1` wherever
they need them.

## Model

| member | source | states |
|---|---|---|
| Triangular.Peak | forecast.py:16 | the peak `low + (high - low) * mode`; it is `low` for mode 0, `high` for mode 1, and `low` when the bounds are equal |
| Triangular.Pick | forecast.py:15-17 | the sample `value*(peak-low)+low` when `value < mode`, else `value*(high-peak)+peak`; it is `low` when the bounds are equal, and for draw 0 it is `low` (positive mode) or the peak (mode 0 or below) |
| Triangular.PeakInRange | forecast.py:16 | for `low <= high` and `mode` in [0, 1], the peak lies in [low, high]; it is strictly inside on the side of a non-extreme mode; mode 0 gives `low` and mode 1 gives `high` |
| Triangular.PickLeg | forecast.py:15-17 | a draw below `mode` gives a sample in [low, peak] (left leg); any other draw gives a sample in [peak, high] (right leg) |
| Triangular.PickInRange | forecast.py:15-17 | for `low <= high`, `mode` in [0, 1] and a draw in [0, 1), the sample lies in [low, high] |
| Triangular.PickDegenerate | forecast.py:16-17 | when `low == high`, the sample is exactly `low` for every draw and every mode |
| Triangular.GapAroundPeak | forecast.py:16-17 | the unreachable band [GapLow, GapHigh) lies within [low, high] and contains the peak, strictly inside when the mode is strictly between 0 and 1 and the bounds differ |
| Triangular.PickSkipsPeak | forecast.py:16-17 | for a mode strictly between 0 and 1 and distinct bounds, no draw gives a sample in [GapLow, GapHigh); in particular the sample is never the peak |
| Triangular.PickStrictlyIncreasing | forecast.py:16-17 | for distinct bounds and `mode` in [0, 1], a larger draw always gives a strictly larger sample, across the change of leg as well |
| Triangular.ImageOfPick | forecast.py:16-17 | every sample lies in `InImage`: on the left leg below GapLow, or on the right leg from GapHigh up to `high` |
| Triangular.DrawFor | forecast.py:16-17 | for every value in `InImage`, it returns a draw in [0, 1) that makes `pick` return exactly that value (the inverse of `pick`) |
| Triangular.DrawForPick | forecast.py:16-17 | `InImage` is exactly the set of samples, and `DrawFor` recovers the draw from its sample (the round trip draw to sample to draw) |
| Experiment.Sum | forecast.py:31 | Python's `sum`, a left fold from 0: the empty list sums to 0, and a one-item list sums to its item |
| Experiment.Picks | forecast.py:31 | the inner list `[td.pick(low, high) for each row]`, row `j` using draw `j`: exactly one pick per row |
| Experiment.Outcome | forecast.py:31 | one outcome, the `sum` of one experiment's picks: 0 for no rows, and for a single row exactly that row's pick |
| Experiment.Forecast | forecast.py:29-31 | the outcome list of the script, whose strategy has mode 0.6: one entry per iteration, all 0 for an empty bound table |
| Experiment.Outcomes | forecast.py:31 | the outcome list has one entry per iteration of `range(experiment_count)`: `experiment_count` entries, or none for a negative count |
| Experiment.SumAppend | forecast.py:31 | `sum` of a concatenation is the sum of the parts' sums |
| Experiment.SumMonotone | forecast.py:31 | `sum` is monotone: item-wise smaller lists have a smaller sum |
| Experiment.OutcomeBounds | forecast.py:31 | each outcome lies between the sum of the rows' low bounds and the sum of their high bounds |
| Experiment.OutcomesBounds | forecast.py:31 | every entry of the outcome list lies between the two bound sums |
| Experiment.ForecastBounds | forecast.py:29-31 | with the script's mode 0.6, the list has one outcome per iteration, each between the two bound sums |
| Experiment.EmptyRowsZero | forecast.py:31 | with an empty bound table, every outcome is 0, the sum of an empty list |
| Experiment.DegenerateRowsExact | forecast.py:31 | when every row has equal bounds, the outcome is exactly the sum of the low bounds, whatever the draws |
| Experiment.OutcomeSplit | forecast.py:31 | splitting the rows and their draws in two splits the outcome into the two partial outcomes |
| Experiment.OutcomeMonotone | forecast.py:31 | a draw row that is larger, entry by entry, gives a larger or equal outcome |

## Left out

- Reading `services.xlsx` with pandas and keeping the two bound columns (forecast.py:25-28): file I/O and a foreign library. The model starts from the rows of bounds.
- The command-line options and the `print` calls (forecast.py:20-24, 26, 30, 35): command-line handling and presentation.
- The 2.5% and 97.5% percentiles from `describe` (forecast.py:32-34): they depend on the interpolation default of a foreign library that is not shown.
- The global random generator: every draw is a parameter, assumed to lie in [0, 1). Pseudo-randomness and the shape of the distribution are not modelled.
- Floating point: `float(...)` conversions and IEEE rounding (forecast.py:12, 16) are modelled as exact `real` arithmetic. Values such as NaN or infinity from the spreadsheet have no counterpart.
- No member states that `pick` leaves `mode` unchanged (forecast.py:10-12, 15-17). `TriangularDistribution` is an immutable value and `Pick` is a function, so this holds by construction.
