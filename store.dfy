/**
 * The forecast job against a store object whose collections the job's
 * calls update in place. Each method is proved against the matching step
 * of module Pipeline; failures of store calls are passed in as flags.
 */
module ForecastStore {
  import opened Wrappers
  import opened Memes
  import opened Virality
  import opened Alerting
  import opened Snapshots
  import opened Pipeline

  class Store {
    var memes: map<string, Fields>
    var order: seq<string>            // the order in which a query streams documents
    var alerts: seq<Alert>
    var snapshots: seq<SnapshotRecord>

    function State(): StoreState
      reads this
    {
      StoreState(memes, order, alerts, snapshots)
    }

    predicate Valid()
      reads this
    {
      WellFormed(State())
    }

    constructor (docs: map<string, Fields>, streamOrder: seq<string>)
      requires WellFormed(StoreState(docs, streamOrder, [], []))
      ensures Valid() && State() == StoreState(docs, streamOrder, [], [])
    {
      memes, order := docs, streamOrder;
      alerts, snapshots := [], [];
    }

    /**
     * `get_trending_memes(hours)` at `now`: streams the documents created
     * after the cutoff, attaching each id; a failing query yields nothing.
     */
    method TrendingMemes(now: real, hours: int, fails: bool) returns (result: seq<Meme>)
      requires Valid()
      ensures result == FetchTrending(State(), now, hours, fails)
      ensures forall m :: m in result ==>
                m.id in memes && memes[m.id] == m.fields && InWindow(m.fields, Cutoff(now, hours))
    {
      var cutoff := now - (hours * 3600) as real;
      var fetched := [];
      for i := 0 to |order|
        invariant fetched == Window(order[..i], memes, cutoff)
      {
        var id := order[i];
        if InWindow(memes[id], cutoff) {
          fetched := fetched + [Meme(id, memes[id])];
        }
        assert order[..i + 1][..i] == order[..i];
      }
      assert order[..|order|] == order;
      FetchedAreRecent(State(), now, hours, fails);
      if fails {
        result := [];
      } else {
        result := fetched;
      }
    }

    /** `push_alert`: appends one alert; a failed write is swallowed. */
    method PushAlert(memeId: string, reason: Reason, timestamp: string, fails: bool)
      modifies this
      ensures State() == PushAlertStep(old(State()), memeId, reason, timestamp, fails)
    {
      if !fails {
        alerts := alerts + [Alert(timestamp, memeId, reason)];
      }
    }

    /**
     * `update_meme_forecast`: decides the alert against the previous score
     * held in `meme`, pushes it, then writes the new score back.
     */
    method UpdateMemeForecast(memeId: string, score: real, meme: Fields, timestamp: string,
                              alertFails: bool, updateFails: bool)
      modifies this
      ensures State() == ForecastStep(old(State()), memeId, score, meme, timestamp, alertFails, updateFails)
      ensures old(Valid()) ==> Valid()
    {
      var prev := PreviousScore(meme.forecastScore);
      if prev.None? {
        return;   // `None > 0` raises; the handler only logs
      }
      var decision := Decide(prev.value, score);
      if decision.Some? {
        PushAlert(memeId, decision.value, timestamp, alertFails);
      }
      if !updateFails && memeId in memes {
        memes := memes[memeId := memes[memeId].(forecastScore := Present(score))];
      }
    }

    /** `snapshot_top_forecasts`: appends one ranked snapshot unless the batch is empty or the write fails. */
    method SnapshotTopForecasts(batch: seq<Meme>, topN: int, now: real, timestamp: string, fails: bool)
      modifies this
      ensures State() == SnapshotStep(old(State()), batch, topN, now, timestamp, fails)
      ensures old(Valid()) ==> Valid()
    {
      if batch == [] {
        return;
      }
      var record := BuildSnapshot(batch, topN, now, timestamp);
      if !fails {
        snapshots := snapshots + [record.value];
      }
    }

    /** The `__main__` job: fetch, score and update each meme in turn, then snapshot the batch. */
    method RunJob(now: real, timestamp: string, faults: Faults)
      requires Valid()
      modifies this
      ensures Valid()
      ensures State() == JobStep(old(State()), now, timestamp, faults)
    {
      var batch := TrendingMemes(now, DefaultWindowHours, faults.fetchFails);
      ghost var start := State();
      for i := 0 to |batch|
        invariant State() == UpdateAll(start, batch[..i], now, timestamp, faults.alertFails, faults.updateFails)
      {
        var m := batch[i];
        var score := Score(m.fields, now);
        UpdateMemeForecast(m.id, score, m.fields, timestamp, m.id in faults.alertFails, m.id in faults.updateFails);
        assert batch[..i + 1][..i] == batch[..i];
      }
      assert batch[..|batch|] == batch;
      SnapshotTopForecasts(batch, DefaultTopN, now, timestamp, faults.snapshotFails);
      JobAppends(start, now, timestamp, faults);
    }
  }
}
