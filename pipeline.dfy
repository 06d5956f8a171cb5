/**
 * What each stage of the forecast job does to the store, as functions of
 * the store's contents: the window fetch, the per-meme forecast update
 * (alert, then score write-back), the snapshot append, and the whole job.
 * Store failures are inputs: a failed call changes nothing it would have
 * written and is not seen by the calls that follow it.
 */
module Pipeline {
  import opened Wrappers
  import opened Memes
  import opened Virality
  import opened Alerting
  import opened Snapshots

  const DefaultWindowHours: int := 6

  /** The three collections: `memes` (by id, with its stream order), `alerts`, `trending_snapshots`. */
  datatype StoreState = StoreState(
    memes: map<string, Fields>,
    order: seq<string>,
    alerts: seq<Alert>,
    snapshots: seq<SnapshotRecord>)

  /** Every document of `memes` is streamed exactly once. */
  predicate WellFormed(s: StoreState) {
    && (forall i, j :: 0 <= i < j < |s.order| ==> s.order[i] != s.order[j])
    && (forall i :: 0 <= i < |s.order| ==> s.order[i] in s.memes)
    && (forall id :: id in s.memes ==> id in s.order)
  }

  /** Which store calls fail during one run of the job. */
  datatype Faults = Faults(
    fetchFails: bool,
    alertFails: set<string>,    // memes whose alert write fails
    updateFails: set<string>,   // memes whose score update fails
    snapshotFails: bool)

  /** `now - hours * 3600`. */
  function Cutoff(now: real, hours: int): real {
    now - (hours * 3600) as real
  }

  /** The range condition `created_utc > cutoff` (documents without a number there never match). */
  predicate InWindow(f: Fields, cutoff: real) {
    f.createdUtc.Some? && f.createdUtc.value > cutoff
  }

  /** The documents listed in `order` that match the range query, in that order, with their ids attached. */
  function Window(order: seq<string>, memes: map<string, Fields>, cutoff: real): seq<Meme>
    requires forall i :: 0 <= i < |order| ==> order[i] in memes
  {
    if order == [] then []
    else
      var id := order[|order| - 1];
      var rest := Window(order[..|order| - 1], memes, cutoff);
      if InWindow(memes[id], cutoff) then rest + [Meme(id, memes[id])] else rest
  }

  /** `get_trending_memes(hours)` at `now`: the window, or nothing when the query fails. */
  function FetchTrending(s: StoreState, now: real, hours: int, fails: bool): seq<Meme>
    requires WellFormed(s)
  {
    if fails then [] else Window(s.order, s.memes, Cutoff(now, hours))
  }

  /** The ids of a batch, in batch order. */
  function Ids(batch: seq<Meme>): (r: seq<string>)
    ensures |r| == |batch| && forall i :: 0 <= i < |batch| ==> r[i] == batch[i].id
  {
    seq(|batch|, i requires 0 <= i < |batch| => batch[i].id)
  }

  predicate Distinct(ids: seq<string>) {
    forall i, j :: 0 <= i < j < |ids| ==> ids[i] != ids[j]
  }

  /** The fetch returns exactly the stored documents inside the window, each with its own id. */
  lemma {:induction false} WindowMembers(order: seq<string>, memes: map<string, Fields>, cutoff: real, m: Meme)
    requires forall i :: 0 <= i < |order| ==> order[i] in memes
    ensures m in Window(order, memes, cutoff) <==>
              m.id in order && m.id in memes && m.fields == memes[m.id] && InWindow(m.fields, cutoff)
  {
    if order != [] {
      var init := order[..|order| - 1];
      WindowMembers(init, memes, cutoff, m);
      assert order == init + [order[|order| - 1]];
    }
  }

  /** The fetched ids are a subsequence of the stream order, so they are distinct when it is. */
  lemma {:induction false} WindowIdsDistinct(order: seq<string>, memes: map<string, Fields>, cutoff: real)
    requires forall i :: 0 <= i < |order| ==> order[i] in memes
    requires Distinct(order)
    ensures Distinct(Ids(Window(order, memes, cutoff)))
    ensures forall m :: m in Window(order, memes, cutoff) ==> m.id in memes
  {
    if order != [] {
      var init := order[..|order| - 1];
      var id := order[|order| - 1];
      WindowIdsDistinct(init, memes, cutoff);
      var rest := Window(init, memes, cutoff);
      forall m | m in rest ensures m.id != id {
        WindowMembers(init, memes, cutoff, m);
      }
      assert forall i :: 0 <= i < |rest| ==> rest[i] in rest;
    }
  }

  /** Every fetched record lies strictly inside the window, and a failed fetch yields nothing. */
  lemma FetchedAreRecent(s: StoreState, now: real, hours: int, fails: bool)
    requires WellFormed(s)
    ensures fails ==> FetchTrending(s, now, hours, fails) == []
    ensures forall m :: m in FetchTrending(s, now, hours, fails) ==>
              m.fields.createdUtc.Some? && m.fields.createdUtc.value > now - (hours * 3600) as real &&
              m.id in s.memes && s.memes[m.id] == m.fields
  {
    forall m | m in FetchTrending(s, now, hours, fails)
      ensures m.fields.createdUtc.Some? && m.fields.createdUtc.value > now - (hours * 3600) as real
      ensures m.id in s.memes && s.memes[m.id] == m.fields
    {
      WindowMembers(s.order, s.memes, Cutoff(now, hours), m);
    }
  }

  /** Every stored document inside the window is fetched when the query succeeds. */
  lemma FetchIsComplete(s: StoreState, now: real, hours: int, id: string)
    requires WellFormed(s) && id in s.memes && InWindow(s.memes[id], Cutoff(now, hours))
    ensures Meme(id, s.memes[id]) in FetchTrending(s, now, hours, false)
  {
    WindowMembers(s.order, s.memes, Cutoff(now, hours), Meme(id, s.memes[id]));
  }

  /** `push_alert`: appends one alert, or nothing when the write fails. */
  function PushAlertStep(s: StoreState, id: string, reason: Reason, timestamp: string, fails: bool): (r: StoreState)
    ensures r.memes == s.memes && r.order == s.order && r.snapshots == s.snapshots
    ensures r.alerts == if fails then s.alerts else s.alerts + [Alert(timestamp, id, reason)]
  {
    if fails then s else s.(alerts := s.alerts + [Alert(timestamp, id, reason)])
  }

  /** The partial update `{"forecastScore": score}`; an unknown id is not found and nothing is written. */
  function WriteScore(memes: map<string, Fields>, id: string, score: real, fails: bool): (r: map<string, Fields>)
    ensures r.Keys == memes.Keys
    ensures forall other :: other in memes && other != id ==> r[other] == memes[other]
    ensures id in memes ==> r[id] == if fails then memes[id] else memes[id].(forecastScore := Present(score))
  {
    if fails || id !in memes then memes else memes[id := memes[id].(forecastScore := Present(score))]
  }

  /**
   * `update_meme_forecast(id, score, meme)`: the alert decision against the
   * previous score read from `meme`, at most one alert, then the score
   * write-back. A null previous score raises before anything is written.
   */
  function ForecastStep(s: StoreState, id: string, score: real, meme: Fields, timestamp: string,
                        alertFails: bool, updateFails: bool): (r: StoreState)
    ensures r.order == s.order && r.snapshots == s.snapshots && r.memes.Keys == s.memes.Keys
    ensures meme.forecastScore == Null ==> r == s
    // the score is written back whatever the alert outcome
    ensures meme.forecastScore != Null && !updateFails && id in s.memes ==>
              r.memes[id] == s.memes[id].(forecastScore := Present(score))
    ensures forall other :: other in s.memes && (other != id || updateFails || meme.forecastScore == Null) ==>
              r.memes[other] == s.memes[other]
    // at most one alert, carrying the decided reason
    ensures |s.alerts| <= |r.alerts| <= |s.alerts| + 1 && r.alerts[..|s.alerts|] == s.alerts
    ensures |r.alerts| == |s.alerts| + 1 <==>
              meme.forecastScore != Null && !alertFails && Decide(PreviousScore(meme.forecastScore).value, score).Some?
    ensures |r.alerts| == |s.alerts| + 1 ==>
              r.alerts[|s.alerts|] == Alert(timestamp, id, Decide(PreviousScore(meme.forecastScore).value, score).value)
  {
    match PreviousScore(meme.forecastScore)
    case None => s
    case Some(prev) =>
      var alerted := match Decide(prev, score)
        case None => s
        case Some(reason) => PushAlertStep(s, id, reason, timestamp, alertFails);
      alerted.(memes := WriteScore(alerted.memes, id, score, updateFails))
  }

  /** A failed alert write leaves the score write-back exactly as it would otherwise be. */
  lemma AlertFailureIsolated(s: StoreState, id: string, score: real, meme: Fields, timestamp: string, updateFails: bool)
    ensures ForecastStep(s, id, score, meme, timestamp, true, updateFails).memes
         == ForecastStep(s, id, score, meme, timestamp, false, updateFails).memes
  {
  }

  /** One `update_meme_forecast` per batch meme, in batch order, each with its own score. */
  function UpdateAll(s: StoreState, batch: seq<Meme>, now: real, timestamp: string,
                     alertFails: set<string>, updateFails: set<string>): StoreState
  {
    if batch == [] then s
    else
      var m := batch[|batch| - 1];
      var before := UpdateAll(s, batch[..|batch| - 1], now, timestamp, alertFails, updateFails);
      ForecastStep(before, m.id, Score(m.fields, now), m.fields, timestamp, m.id in alertFails, m.id in updateFails)
  }

  /** Whether the job writes a meme's score: its previous score can be read and its update succeeds. */
  predicate ScoreWritten(m: Meme, updateFails: set<string>) {
    m.fields.forecastScore != Null && m.id !in updateFails
  }

  /** The stored fields `f` of batch meme `m` after its update: the fresh score when written, else unchanged. */
  function Refreshed(f: Fields, m: Meme, now: real, updateFails: set<string>): Fields {
    if ScoreWritten(m, updateFails) then f.(forecastScore := Present(Score(m.fields, now))) else f
  }

  /** Updating a batch touches neither the stream order nor the snapshots, keeps the ids, and only appends alerts, at most one per meme. */
  lemma {:induction false} UpdateAllFrame(s: StoreState, batch: seq<Meme>, now: real, timestamp: string,
                                          alertFails: set<string>, updateFails: set<string>)
    ensures var r := UpdateAll(s, batch, now, timestamp, alertFails, updateFails);
            && r.order == s.order && r.snapshots == s.snapshots && r.memes.Keys == s.memes.Keys
            && |s.alerts| <= |r.alerts| <= |s.alerts| + |batch| && r.alerts[..|s.alerts|] == s.alerts
  {
    if batch != [] {
      var n := |batch| - 1;
      UpdateAllFrame(s, batch[..n], now, timestamp, alertFails, updateFails);
      var before := UpdateAll(s, batch[..n], now, timestamp, alertFails, updateFails);
      var r := UpdateAll(s, batch, now, timestamp, alertFails, updateFails);
      assert r.alerts[..|before.alerts|] == before.alerts;
      assert r.alerts[..|s.alerts|] == r.alerts[..|before.alerts|][..|s.alerts|];
    }
  }

  /**
   * After updating a batch of distinct stored memes, each meme whose write
   * succeeded carries its own fresh score and nothing else of it changed,
   * and every document outside the batch is untouched.
   */
  lemma {:induction false} UpdateAllScores(s: StoreState, batch: seq<Meme>, now: real, timestamp: string,
                                           alertFails: set<string>, updateFails: set<string>)
    requires Distinct(Ids(batch))
    requires forall i :: 0 <= i < |batch| ==> batch[i].id in s.memes
    ensures var r := UpdateAll(s, batch, now, timestamp, alertFails, updateFails);
            && r.memes.Keys == s.memes.Keys
            && (forall i :: 0 <= i < |batch| ==>
                  r.memes[batch[i].id] == Refreshed(s.memes[batch[i].id], batch[i], now, updateFails))
            && (forall id :: id in s.memes && id !in Ids(batch) ==> r.memes[id] == s.memes[id])
  {
    if batch != [] {
      var n := |batch| - 1;
      var init := batch[..n];
      var m := batch[n];
      assert Ids(init) == Ids(batch)[..n];
      UpdateAllScores(s, init, now, timestamp, alertFails, updateFails);
      var before := UpdateAll(s, init, now, timestamp, alertFails, updateFails);
      var r := UpdateAll(s, batch, now, timestamp, alertFails, updateFails);
      assert r == ForecastStep(before, m.id, Score(m.fields, now), m.fields, timestamp, m.id in alertFails, m.id in updateFails);
      assert m.id !in Ids(init) by {
        forall i | 0 <= i < n ensures Ids(init)[i] != m.id {
          assert Ids(batch)[i] != Ids(batch)[n];
        }
      }
      assert before.memes[m.id] == s.memes[m.id];
      assert r.memes[m.id] == Refreshed(s.memes[m.id], m, now, updateFails);
      forall i | 0 <= i < n
        ensures r.memes[batch[i].id] == Refreshed(s.memes[batch[i].id], batch[i], now, updateFails)
      {
        assert batch[i] == init[i];
        assert Ids(batch)[i] != Ids(batch)[n];
      }
      forall id | id in s.memes && id !in Ids(batch) ensures r.memes[id] == s.memes[id] {
        assert id != Ids(batch)[n];
        assert id !in Ids(init) by {
          forall i | 0 <= i < n ensures Ids(init)[i] != id {
            assert Ids(init)[i] == Ids(batch)[i];
          }
        }
      }
    }
  }

  /** `snapshot_top_forecasts`: nothing for an empty batch, else one snapshot unless the write fails. */
  function SnapshotStep(s: StoreState, batch: seq<Meme>, topN: int, now: real, timestamp: string, fails: bool): (r: StoreState)
    ensures r.memes == s.memes && r.order == s.order && r.alerts == s.alerts
    ensures batch == [] || fails ==> r == s
    ensures batch != [] && !fails ==> r.snapshots == s.snapshots + [BuildSnapshot(batch, topN, now, timestamp).value]
  {
    match BuildSnapshot(batch, topN, now, timestamp)
    case None => s
    case Some(record) => if fails then s else s.(snapshots := s.snapshots + [record])
  }

  /** The `__main__` job: fetch the 6-hour window, update every fetched meme, snapshot the top 5. */
  function JobStep(s: StoreState, now: real, timestamp: string, faults: Faults): StoreState
    requires WellFormed(s)
  {
    var batch := FetchTrending(s, now, DefaultWindowHours, faults.fetchFails);
    var updated := UpdateAll(s, batch, now, timestamp, faults.alertFails, faults.updateFails);
    SnapshotStep(updated, batch, DefaultTopN, now, timestamp, faults.snapshotFails)
  }

  /**
   * One run of the job: every meme of the window whose write succeeds ends
   * with its fresh score (nothing else of it changes), and documents
   * outside the window are untouched.
   */
  lemma JobScores(s: StoreState, now: real, timestamp: string, faults: Faults)
    requires WellFormed(s)
    ensures var r := JobStep(s, now, timestamp, faults);
            var batch := FetchTrending(s, now, DefaultWindowHours, faults.fetchFails);
            && (forall m :: m in batch ==>
                  m.id in s.memes && m.id in r.memes &&
                  r.memes[m.id] == Refreshed(s.memes[m.id], m, now, faults.updateFails))
            && (forall id :: id in s.memes && id !in Ids(batch) ==> id in r.memes && r.memes[id] == s.memes[id])
  {
    var batch := FetchTrending(s, now, DefaultWindowHours, faults.fetchFails);
    BatchIsDistinctAndStored(s, now, faults.fetchFails);
    UpdateAllScores(s, batch, now, timestamp, faults.alertFails, faults.updateFails);
    var updated := UpdateAll(s, batch, now, timestamp, faults.alertFails, faults.updateFails);
    assert JobStep(s, now, timestamp, faults) == SnapshotStep(updated, batch, DefaultTopN, now, timestamp, faults.snapshotFails);
    forall m | m in batch
      ensures m.id in s.memes && updated.memes[m.id] == Refreshed(s.memes[m.id], m, now, faults.updateFails)
    {
      var i :| 0 <= i < |batch| && batch[i] == m;
    }
  }

  lemma BatchIsDistinctAndStored(s: StoreState, now: real, fails: bool)
    requires WellFormed(s)
    ensures var batch := FetchTrending(s, now, DefaultWindowHours, fails);
            Distinct(Ids(batch)) && forall i :: 0 <= i < |batch| ==> batch[i].id in s.memes
  {
    var batch := FetchTrending(s, now, DefaultWindowHours, fails);
    if !fails {
      WindowIdsDistinct(s.order, s.memes, Cutoff(now, DefaultWindowHours));
      assert forall i :: 0 <= i < |batch| ==> batch[i] in batch;
    }
  }

  /**
   * One run of the job keeps the store well formed, only appends alerts
   * (at most one per fetched meme), and adds at most one snapshot: exactly
   * one when the window is non-empty and the snapshot write succeeds.
   */
  lemma JobAppends(s: StoreState, now: real, timestamp: string, faults: Faults)
    requires WellFormed(s)
    ensures var r := JobStep(s, now, timestamp, faults);
            var batch := FetchTrending(s, now, DefaultWindowHours, faults.fetchFails);
            && WellFormed(r)
            && |s.alerts| <= |r.alerts| <= |s.alerts| + |batch| && r.alerts[..|s.alerts|] == s.alerts
            && |s.snapshots| <= |r.snapshots| <= |s.snapshots| + 1
            && (|r.snapshots| == |s.snapshots| + 1 <==> batch != [] && !faults.snapshotFails)
  {
    var batch := FetchTrending(s, now, DefaultWindowHours, faults.fetchFails);
    UpdateAllFrame(s, batch, now, timestamp, faults.alertFails, faults.updateFails);
  }
}
