# Coin toss experiment: a Dafny model

This project models the experiment engine of a small Streamlit app that tosses a fair coin n times
(`app.py`). The app has two parts.

- **The running-mean producer** (`toss_coin`). It walks the n outcomes once and keeps two counters:
  outcomes seen and heads (ones) seen. After each outcome it adds the running mean, heads / outcomes,
  to a live chart. It returns the last mean, or `None` when nothing was drawn.
- **The session state and the run handler.** The session holds an experiment counter that starts at 0
  and a results table with columns `no`, `iterations` and `mean`. Each press of Run does four things.
  It bumps the counter and runs the producer. It then appends one row (new counter, trial count,
  returned mean) to the table and re-numbers the table's row index.

The model has three modules:

- `Wrappers` (`wrappers.dfy`): `Option`.
- `CoinToss` (`coin_toss.dfy`): the producer.
  - `TossCoin` is the loop itself, as a method.
  - `CountOnes`, `SampleAt`, `Samples` and `FinalMean` are the pure functions that specify it.
  - The lemmas state what the samples mean.
- `ExperimentLog` (`experiment_log.dfy`): the results table and the session.
  - The table is a `Frame`: row index labels plus rows of `Record(no, iterations, mean)`.
  - `SessionState`, `Step` and `Replay` give the session's behaviour as values.
  - The `Session` class has the two session keys as fields (`experimentNo`, `results`). It has a
    `Run` method proved against `Step`.
  - `Interrupt` is a run stopped by a rerun of the script after the counter bump and before the
    append.
  - `ThreeRuns` is a small client with no counterpart in `app.py`. It runs a fresh session three
    times (10, 20 and 30 trials) and asserts the rows are numbered 1, 2, 3 with those trial counts.

Modelling choices:

- The random draw becomes a parameter: `outcomes: seq<int>`, the values the Bernoulli draw
  returned. The trial count is `|outcomes|`.
- The source tests `outcome == 1`, so the model counts the elements equal to 1 whatever the others
  are. Only the lemmas that need 0/1 outcomes require them (`IsBinary`).
- The chart rows the producer adds are returned as the output sequence `emitted`.
- Division is exact, on `real`.
- The code has no check that the trial count is at least 1; only the slider's range 1..1000 keeps
  the count positive. With no outcomes the producer returns `None` and the row records `None` as
  its mean; the model does the same.
- The counter starts at 0 and is bumped before use, so the first row's `no` is 1.

## Model

| member | source | states |
|---|---|---|
| `CoinToss.CountOnes` | app.py:41-44 | The head count of a prefix never exceeds the prefix's length. |
| `CoinToss.SampleAt` | app.py:45 | Every running mean lies in [0, 1]. |
| `CoinToss.Samples` | app.py:41-46 | Exactly one sample per outcome, in outcome order. The k-th sample is the heads among the first k outcomes divided by k, and lies in [0, 1]. |
| `CoinToss.FinalMean` | app.py:37-49 | The returned value is None exactly when there are no outcomes. Otherwise it is the last sample, in [0, 1]. |
| `CoinToss.PrefixStep` | app.py:41-46 | One more outcome adds one to the head count iff it is 1, and appends exactly one sample. |
| `CoinToss.TossCoin` | app.py:25-49 | The loop emits exactly `Samples(outcomes)` and returns `FinalMean(outcomes)`. The result is None iff nothing was emitted, and otherwise equals the last emitted sample. The invariants keep the outcome counter equal to the position and the head counter equal to the number of ones so far. |
| `CoinToss.CountOnesAll` | app.py:43-44 | The head count equals the number of outcomes iff every outcome is 1. |
| `CoinToss.CountOnesNone` | app.py:43-44 | The head count is 0 iff no outcome is 1. |
| `CoinToss.FirstSample` | app.py:42-45 | The first sample is 1 if the first outcome is 1 and 0 otherwise; for a 0/1 outcome it equals the outcome. |
| `CoinToss.SampleRecurrence` | app.py:42-45 | Each running mean is the previous mean times k, plus the new outcome's contribution, divided by k + 1. |
| `CoinToss.SampleExtremes` | app.py:45 | A running mean is 0 iff no head was drawn so far, and 1 iff only heads were drawn. |
| `CoinToss.NoHeadsGiveZeroSamples` | app.py:43-45 | If no outcome is 1, every sample is 0. |
| `CoinToss.OnlyHeadsGiveOneSamples` | app.py:43-45 | If every outcome is 1, every sample is 1. |
| `CoinToss.ZeroMeanMeansNoHeads` | app.py:43-45 | A final mean of 0 implies no outcome is 1. |
| `CoinToss.OneMeanMeansOnlyHeads` | app.py:43-45 | A final mean of 1 implies every outcome is 1. |
| `CoinToss.AllTailsIffAllSamplesZero` | app.py:43-45 | For 0/1 outcomes, all samples are 0 iff all outcomes are 0. |
| `CoinToss.AllHeadsIffAllSamplesOne` | app.py:43-45 | All samples are 1 iff all outcomes are 1. |
| `ExperimentLog.EmptyFrame` | app.py:18-19 | The initial table has no rows and an empty (hence 0..len-1) index. |
| `ExperimentLog.SingleRowFrame` | app.py:60-63 | The one-row table built for a run holds exactly that row, labelled 0. |
| `ExperimentLog.Concat` | app.py:58-65 | Stacking keeps the top table's rows then the bottom table's rows, in order, and every row keeps its label. |
| `ExperimentLog.ConcatRepeatsLabels` | app.py:58-67 | Stacking two non-empty, freshly numbered tables repeats label 0, so the result is not numbered 0..len-1 until its index is reset. |
| `ExperimentLog.ResetIndex` | app.py:66-67 | Re-indexing labels the rows 0..len-1 and leaves every row and the row order unchanged. |
| `ExperimentLog.Initial` | app.py:15-19 | A fresh session has counter 0 and no rows, with the index 0..len-1. |
| `ExperimentLog.Step` | app.py:56-67 | From any state, a run bumps the counter by exactly 1 and appends exactly one row (bumped counter, trial count, producer's result) after the unchanged earlier rows, and the index becomes 0..len-1. |
| `ExperimentLog.InterruptedRunSkipsNumber` | app.py:56-67 | If a run is stopped after the counter bump (line 56) and before the append (lines 58-67), the next completed run's row is numbered two above the previous row, and the counter stays one ahead of the table. |
| `ExperimentLog.InitialNumbered` | app.py:15-19 | A fresh session has counter 0 and an empty table, which satisfies the session invariant. |
| `ExperimentLog.StepAppendsOneRow` | app.py:56-67 | A run keeps the invariant: the counter equals the row count, row k is numbered k + 1 and the index is 0..len-1. It appends exactly one row at the end, numbered with the new counter and carrying the trial count and the producer's result. Earlier rows are unchanged. |
| `ExperimentLog.ReplayLog` | app.py:54-67 | After m runs from a fresh session the counter is m. The table holds m rows, and the k-th row is (k + 1, trial count of run k, final mean of run k). |
| `ExperimentLog.ReplayPrefix` | app.py:58-65 | Append-only: the rows after the first j runs are a prefix of the rows after all of them. |
| `ExperimentLog.Session.constructor` | app.py:15-19 | Session start: counter 0, empty table, invariant established. |
| `ExperimentLog.Session.Snapshot` | app.py:69 | The table shown holds one row per run so far, numbered 1..counter in order, whenever the session invariant holds. |
| `ExperimentLog.Session.Run` | app.py:54-67 | The counter goes up by exactly 1. The table becomes the old table plus one row (new counter, trial count, producer's result) and stays labelled 0..len-1. The session invariant is kept. The chart rows emitted are `Samples(outcomes)`. |

## Left out

- The Streamlit interface is not modelled: the header, the chart seeded with 0.5, the slider, the
  Run button and `st.write` (app.py:21-23, 51-52, 55, 69). The chart's `add_rows` is modelled only as
  appending to the `emitted` output sequence. The slider's 1..1000 range is not imposed, since the
  code itself accepts any count.
- `time.sleep(0.05)` (app.py:47) is pacing for display only and has no effect on any value.
- `scipy.stats.bernoulli.rvs` (app.py:35) is a foreign random source. The model takes its result as
  a parameter and says nothing about the distribution, the fixed p = 0.5 or independence between
  runs.
- Floating-point division is not modelled: means are exact rationals (`real`), so rounding of
  the IEEE doubles the app computes is not captured.
- Of the pandas DataFrame only rows and index labels are modelled. Column dtypes and the NaN stored
  for a missing mean (here `None`) are not modelled.
- A run can be interrupted. The counter is bumped (app.py:56) before the slow loop, which makes one
  Streamlit call and one 0.05 s pause per sample. If the user moves the slider or presses Run during
  that loop, Streamlit reruns the script, the loop stops, and no row is appended (app.py:58-67).
  The counter then stays one ahead of the table and the next row's `no` skips a number.
  - Only the effect of such a stop is modelled (`Interrupt`, `InterruptedRunSkipsNumber`); the
    rerun itself and the partial chart rows are not.
  - The session invariant `Numbered` holds only while every run completes, and so do `ReplayLog`
    and "after m runs the counter is m". `Step` and `Session.Run` do not assume the invariant.
- Streamlit's session persistence and rerun of the whole script are modelled only as the initial
  state established by the `Session` constructor.
