# Forecast runner: a Dafny model of the trend-forecast job

This project models the forecast job of `forecast_trends.py`. The job reads
recent "meme" documents from a document store and gives each one a virality
score. It writes that score back to the document and records an alert when
the score spikes or passes a threshold. It then stores a ranked snapshot of
the top-scoring memes.

The four stages and the driver are modelled separately:

- **Window fetch** (`get_trending_memes`). The documents whose `created_utc`
  is strictly after `now - hours*3600`, in stream order, each with its store
  id attached. A failed query gives the empty list.
- **Virality score** (`score_virality`). The value
  `(upvotes*ratio + comments*2) / max(age_hours, 0.1)`, rounded to two
  decimals. A missing, null or zero `created_utc` scores 0. Missing fields
  default to 0 upvotes, ratio 1.0 and 0 comments.
- **Forecast update** (`update_meme_forecast`, `push_alert`). A spike (a rise
  of at least half over a positive previous score) takes precedence over a
  threshold alert (a score above 75), so at most one alert is appended. The
  new score is then written back whatever the alert outcome. A failed alert
  write is swallowed and does not stop the score write.
- **Snapshot** (`snapshot_top_forecasts`). An empty batch writes nothing.
  Otherwise the batch is sorted stably by descending score and cut to the
  first `top_n`. Each meme is projected to its id, its display title (`title`,
  else `name`, else `"untitled"`), its score and its pass-through fields.
  One snapshot record is appended.
- **Driver** (`__main__`). Fetch the 6-hour window, update every fetched meme
  in turn, then snapshot the top 5 of the same batch.

Layout, one module per file:

- `wrappers.dfy`: `Option`.
- `memes.dfy`: the document fields (`Fields`) and the fetched record (`Meme`).
  `Field<T>` tells a missing key from an explicit null where the code treats
  them differently.
- `virality.dfy`: rounding and the score.
- `alerting.dfy`: the previous score and the alert decision.
- `ranking.dfy`: a generic stable descending insertion sort and Python's
  `s[:n]`. It proves that any stable descending order of a sequence equals
  this sort, so the sort agrees with Python's `sorted(..., reverse=True)`.
- `snapshots.dfy`: the projection and the snapshot record.
- `pipeline.dfy`: each stage as a function from store contents to store
  contents (`StoreState`), plus the job as a whole.
- `store.dfy`: class `Store`, whose methods update the collections in place.
  Each method is proved equal to the matching step of `pipeline.dfy`.

Behaviours of the code that the model keeps:

- `update_meme_forecast` reads the previous score with
  `meme.get("forecastScore", 0)`. A stored null makes `prev_score > 0`
  raise inside the `try` (forecast_trends.py:56-57), so neither the alert
  nor the score is written, although the function otherwise writes the
  score whatever the alert outcome (forecast_trends.py:60-65). The model
  does the same (`Pipeline.ForecastStep`).
- Updating an id that is not in the store fails (the store's update raises
  not-found). Any alert for it has already been pushed.
- `top_n` is used as a Python slice bound. A negative `top_n` keeps all but
  the last `-top_n` memes (`Snapshots.SnapshotNegativeTopN`).
- The range query and the falsy check differ. A document with
  `created_utc == 0` is fetched whenever the cutoff is negative, yet it
  scores 0.

## Model

| member | source | states |
|---|---|---|
| Virality.RoundHalfEven | forecast_trends.py:40 | the rounded integer is within one half of its input |
| Virality.RoundHalfEvenMonotone | forecast_trends.py:40 | rounding to the nearest integer (ties to even) never reverses order |
| Virality.Round2 | forecast_trends.py:40 | `round(x, 2)` lies within 0.005 of `x` |
| Virality.Round2Monotone | forecast_trends.py:40 | `round(x, 2)` is order-preserving |
| Virality.Round2OfHundredths | forecast_trends.py:40 | a whole number of hundredths is left unchanged by rounding |
| Virality.ElapsedHours | forecast_trends.py:36-37 | the divisor is never below 0.1 hours, never below the true age, and equals the true age once the post is at least 6 minutes old |
| Virality.Score | forecast_trends.py:27-40 | a missing, null or zero `created_utc` scores exactly 0; otherwise the score is within 0.005 of engagement per hour of age |
| Virality.EngagementNonNegative | forecast_trends.py:28-30 | non-negative counts and ratio (with defaults 0, 1.0, 0) give non-negative weighted engagement |
| Virality.ScoreNonNegative | forecast_trends.py:27-40 | with non-negative engagement inputs the score is non-negative, for any `now` |
| Virality.ScoreDecaysWithAge | forecast_trends.py:36-39 | with equal engagement, an older post never scores higher than a newer one |
| Virality.ScoreOfFreshPost | forecast_trends.py:36-39 | a post stamped now or in the future is divided by the 0.1-hour floor: ten times its engagement, rounded; the divisor is the 0.1-hour floor, so there is no division by zero |
| Virality.ScoreOneHourExample | forecast_trends.py:28-40 | 100 upvotes at ratio 1.0 with 10 comments, one hour old, scores 120 |
| Alerting.PreviousScoreDecision | forecast_trends.py:56-63 | a missing or non-positive previous score never allows a spike, so only a score above 75 alerts; a positive one with a rise by half is a spike; a null one raises and no decision is made |
| Alerting.Decide | forecast_trends.py:56-63 | a spike alert carries the previous and new score; a threshold alert carries a new score above 75 |
| Alerting.SpikeIsRiseByHalf | forecast_trends.py:57 | the guarded relative-rise test equals "previous score positive and new score at least 1.5 times it" |
| Alerting.DecideCases | forecast_trends.py:57-63 | spike iff rise by half; threshold iff no spike and score above 75; no alert iff neither; never both |
| Alerting.NoSpikeWithoutPositivePrevious | forecast_trends.py:57-58 | without a positive previous score only the threshold alert can fire |
| Alerting.AlertMonotoneInScore | forecast_trends.py:57-63 | raising the new score never removes an alert |
| Alerting.SpikeExample | forecast_trends.py:57-61 | previous 40 and new 70 is a spike |
| Alerting.ThresholdExample | forecast_trends.py:57-63 | previous 0 and new 80 is a threshold alert, not a spike |
| Ranking.Insert | forecast_trends.py:74 | inserting keeps the multiset of elements and keeps a descending sequence descending |
| Ranking.SortDesc | forecast_trends.py:74 | the sorted batch is in descending key order and is a permutation of the input |
| Ranking.SortDescStable | forecast_trends.py:74 | for every key, the elements carrying it keep their input order |
| Ranking.SortDescIsStableDescending | forecast_trends.py:74 | the sort result is a stable descending order of its input |
| Ranking.StableDescendingOrderUnique | forecast_trends.py:74 | two descending sequences with the same per-key subsequences are equal |
| Ranking.SortDescIsTheStableSort | forecast_trends.py:74 | every stable descending order of the input is the sort result, so it matches `sorted(..., reverse=True)` |
| Ranking.TopOfSortedIsLargest | forecast_trends.py:74-75 | the kept prefix is drawn from the input, and no element left out has a larger key than a kept one |
| Ranking.TopKeepsTieOrder | forecast_trends.py:74-75 | among kept elements of equal key, the kept ones are the first of that key in input order |
| Snapshots.DisplayTitle | forecast_trends.py:83 | the title is `title` if non-empty, else `name` if non-empty, else "untitled"; it is never empty |
| Snapshots.ProjectPassesThrough | forecast_trends.py:81-89 | an entry copies the id, `image_url` and `link`; a stored `lulzScore` or `vibeShift` is copied, a missing one becomes 0 and a null one stays null; the score is the score at snapshot time |
| Snapshots.BuildSnapshot | forecast_trends.py:69-92 | no snapshot exactly for an empty batch; a snapshot carries the given timestamp |
| Snapshots.SnapshotSize | forecast_trends.py:70-75 | a non-empty batch gives `min(top_n, len(batch))` entries |
| Snapshots.SnapshotNegativeTopN | forecast_trends.py:74-75 | a negative `top_n` keeps all ranked memes but the last `-top_n` (none when that reaches past the start), as a prefix of the ranking |
| Snapshots.SnapshotOfSevenHoldsFive | forecast_trends.py:69-75 | seven memes with the default top 5 give five entries |
| Snapshots.SnapshotRanked | forecast_trends.py:74-91 | entry `i` projects the `i`-th ranked meme, and entry scores never increase |
| Snapshots.SnapshotHoldsHighestScores | forecast_trends.py:74-75 | the snapshot memes come from the batch, and no meme left out scores higher than a kept one |
| Snapshots.SnapshotTiesInFetchOrder | forecast_trends.py:74-75 | memes of equal score appear in fetch order, and they are the first of that score |
| Pipeline.WindowMembers | forecast_trends.py:11-20 | a record is fetched iff it is a stored document with that id, those fields and `created_utc` after the cutoff |
| Pipeline.WindowIdsDistinct | forecast_trends.py:15-20 | the fetched ids are distinct and all stored |
| Pipeline.FetchedAreRecent | forecast_trends.py:11-25 | every fetched record has `created_utc > now - hours*3600` and its own store id; a failed fetch returns the empty list |
| Pipeline.FetchIsComplete | forecast_trends.py:11-22 | a successful fetch returns every stored document inside the window |
| Pipeline.PushAlertStep | forecast_trends.py:42-51 | one alert is appended, or nothing when the write fails; nothing else changes |
| Pipeline.WriteScore | forecast_trends.py:65 | the partial update changes only that document's `forecastScore`, and only if the document exists and the write succeeds |
| Pipeline.ForecastStep | forecast_trends.py:53-67 | the score is written whatever the alert outcome; other documents and fields are unchanged; at most one alert is appended, with the decided reason; a null previous score changes nothing |
| Pipeline.AlertFailureIsolated | forecast_trends.py:42-65 | a failed alert write leaves the score write-back unchanged |
| Pipeline.UpdateAllFrame | forecast_trends.py:102-104 | updating a batch keeps the ids, stream order and snapshots, and only appends alerts, at most one per meme |
| Pipeline.UpdateAllScores | forecast_trends.py:102-104 | after the loop, each written meme holds its own fresh score, every other field is unchanged, and documents outside the batch are untouched |
| Pipeline.SnapshotStep | forecast_trends.py:69-98 | an empty batch or a failed write changes nothing; otherwise exactly the built snapshot is appended |
| Pipeline.JobScores | forecast_trends.py:100-104 | after a run, each fetched meme whose write succeeds holds its fresh score, and documents outside the window are untouched |
| Pipeline.JobAppends | forecast_trends.py:100-105 | a run keeps the store well formed, only appends alerts (at most one per fetched meme), and adds one snapshot exactly when the window is non-empty and the write succeeds |
| ForecastStore.Store.TrendingMemes | forecast_trends.py:8-25 | the streaming loop returns the window fetch, and each record is a stored document after the cutoff |
| ForecastStore.Store.PushAlert | forecast_trends.py:42-51 | the store changes exactly as `Pipeline.PushAlertStep` says |
| ForecastStore.Store.UpdateMemeForecast | forecast_trends.py:53-67 | the store changes exactly as `Pipeline.ForecastStep` says, and stays well formed |
| ForecastStore.Store.SnapshotTopForecasts | forecast_trends.py:69-98 | the store changes exactly as `Pipeline.SnapshotStep` says |
| ForecastStore.Store.RunJob | forecast_trends.py:100-105 | the store changes exactly as `Pipeline.JobStep` says, and stays well formed |

## Left out

- `firebase_admin_setup.py` is not part of this model. It reads credentials and starts the store client.
- The store client is replaced by an in-memory store: a map of documents, their stream order, and two append-only sequences. Each failing store call is a boolean input (`Pipeline.Faults` for the job). Retries, latency and concurrent runs are not modelled.
- Pipeline.FetchTrending: a failure anywhere in the query or the stream is one flag, and its result is always the empty list. Where in the stream the failure happened is not modelled.
- The wall clock is the parameter `now`. The source reads the clock again at each score, so one run scores at slightly different instants; the model uses one instant per run. ISO timestamps are an opaque string parameter, and every record of one run carries the same one.
- Floating point is modelled as exact real arithmetic. Virality.Round2: `round(x, 2)` is rounding half to even on the exact value `x * 100`. The binary representation of floats is not modelled.
- Logging, and the wording of alert reasons, are not modelled. A reason is the datatype `Alerting.Reason` (spike with the previous and new score, or threshold with the score).
- Null or non-numeric values in `upvotes`, `upvote_ratio` or `comments` are not modelled. In the source they raise an uncaught TypeError at forecast_trends.py:39 when `created_utc` is truthy; the score is computed outside any `try`, at lines 74 and 103. Here those fields are either missing or numbers.
- Values of other JSON types in any field are not modelled. The pass-through fields `lulzScore` and `vibeShift` are numbers or null here; `image_url` and `link` are strings or null.
