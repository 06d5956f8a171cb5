/**
 * The record built by `snapshot_top_forecasts`: the batch ranked by
 * descending virality score (ties in fetch order), cut to the first
 * `top_n`, each meme projected to the fields a snapshot keeps.
 */
module Snapshots {
  import opened Wrappers
  import opened Memes
  import opened Virality
  import opened Ranking

  const DefaultTopN: int := 5
  const Untitled: string := "untitled"

  /** One ranked meme inside a snapshot. */
  datatype Entry = Entry(
    id: string,
    title: string,
    forecastScore: real,
    lulzScore: Option<real>,
    vibeShift: Option<real>,
    imageUrl: Option<string>,
    link: Option<string>)

  /** A record of the `trending_snapshots` collection. */
  datatype SnapshotRecord = SnapshotRecord(timestamp: string, memes: seq<Entry>)

  /** Python truthiness of an optional string: missing, null and "" are false. */
  predicate IsNonEmpty(s: Option<string>) {
    s.Some? && s.value != ""
  }

  /** `title or name or "untitled"`. */
  function DisplayTitle(f: Fields): (t: string)
    ensures t != ""
    ensures t == Untitled || Some(t) == f.title || Some(t) == f.name
    ensures IsNonEmpty(f.title) ==> t == f.title.value
    ensures !IsNonEmpty(f.title) && IsNonEmpty(f.name) ==> t == f.name.value
  {
    if IsNonEmpty(f.title) then f.title.value
    else if IsNonEmpty(f.name) then f.name.value
    else Untitled
  }

  /** `m.get(key, 0)` for a pass-through number: a missing key gives 0, a null stays null. */
  function NumberOrZero(f: Field<real>): (r: Option<real>)
    ensures f.Present? ==> r == Some(f.value)
    ensures f == Absent ==> r == Some(0.0)
    ensures r == None <==> f == Null
  {
    match f
    case Absent => Some(0.0)
    case Null => None
    case Present(v) => Some(v)
  }

  /** The ranking key: the meme's virality score at `now`. */
  function ScoreAt(now: real): Meme -> real {
    (m: Meme) => Score(m.fields, now)
  }

  /** The snapshot entry of one meme, with its score recomputed at `now`. */
  function Project(m: Meme, now: real): Entry {
    Entry(m.id, DisplayTitle(m.fields), Score(m.fields, now),
          NumberOrZero(m.fields.lulzScore), NumberOrZero(m.fields.vibeShift),
          m.fields.imageUrl, m.fields.link)
  }

  /** `sorted(memes, key=score_virality, reverse=True)[:top_n]`. */
  function TopMemes(batch: seq<Meme>, topN: int, now: real): seq<Meme> {
    PrefixSlice(SortDesc(batch, ScoreAt(now)), topN)
  }

  /** The snapshot to write, or `None` for an empty batch (nothing is written). */
  function BuildSnapshot(batch: seq<Meme>, topN: int, now: real, timestamp: string): (r: Option<SnapshotRecord>)
    ensures r.None? <==> batch == []
    ensures r.Some? ==> r.value.timestamp == timestamp
  {
    if batch == [] then None
    else
      var top := TopMemes(batch, topN, now);
      Some(SnapshotRecord(timestamp, seq(|top|, i requires 0 <= i < |top| => Project(top[i], now))))
  }

  /** A non-empty batch gives `min(top_n, len(batch))` entries (for a non-negative `top_n`). */
  lemma SnapshotSize(batch: seq<Meme>, topN: int, now: real, timestamp: string)
    requires batch != [] && topN >= 0
    ensures BuildSnapshot(batch, topN, now, timestamp).Some?
    ensures |BuildSnapshot(batch, topN, now, timestamp).value.memes| == if topN <= |batch| then topN else |batch|
  {
    assert |SortDesc(batch, ScoreAt(now))| == |batch| by {
      assert |multiset(SortDesc(batch, ScoreAt(now)))| == |multiset(batch)|;
    }
  }

  /** A negative `top_n` keeps all ranked memes but the last `-top_n`, and none when it reaches past the start. */
  lemma SnapshotNegativeTopN(batch: seq<Meme>, topN: int, now: real, timestamp: string)
    requires batch != [] && topN < 0
    ensures var entries := BuildSnapshot(batch, topN, now, timestamp).value.memes;
            |entries| == (if |batch| + topN >= 0 then |batch| + topN else 0) &&
            TopMemes(batch, topN, now) + SortDesc(batch, ScoreAt(now))[|entries|..] == SortDesc(batch, ScoreAt(now))
  {
    var sorted := SortDesc(batch, ScoreAt(now));
    assert |sorted| == |batch| by {
      assert |multiset(sorted)| == |multiset(batch)|;
    }
    var top := TopMemes(batch, topN, now);
    assert |top| == SliceEnd(|sorted|, topN) && top == sorted[..|top|];
    var entries := BuildSnapshot(batch, topN, now, timestamp).value.memes;
    assert |entries| == |top|;
    assert top + sorted[|top|..] == sorted;
  }

  /**
   * A snapshot entry copies the meme's id, links and pass-through numbers:
   * a stored number is copied as it is, a missing one becomes 0, a null
   * one stays null; its score is the score at snapshot time.
   */
  lemma ProjectPassesThrough(m: Meme, now: real)
    ensures var e := Project(m, now);
            && e.id == m.id && e.imageUrl == m.fields.imageUrl && e.link == m.fields.link
            && e.forecastScore == Score(m.fields, now)
            && (m.fields.lulzScore.Present? ==> e.lulzScore == Some(m.fields.lulzScore.value))
            && (m.fields.vibeShift.Present? ==> e.vibeShift == Some(m.fields.vibeShift.value))
            && (m.fields.lulzScore == Absent ==> e.lulzScore == Some(0.0))
            && (m.fields.vibeShift == Absent ==> e.vibeShift == Some(0.0))
            && (e.lulzScore == None <==> m.fields.lulzScore == Null)
            && (e.vibeShift == None <==> m.fields.vibeShift == Null)
  {
  }

  /** Seven memes with the default top 5: exactly five entries. */
  lemma SnapshotOfSevenHoldsFive(batch: seq<Meme>, now: real, timestamp: string)
    requires |batch| == 7
    ensures BuildSnapshot(batch, DefaultTopN, now, timestamp).Some?
    ensures |BuildSnapshot(batch, DefaultTopN, now, timestamp).value.memes| == 5
  {
    SnapshotSize(batch, DefaultTopN, now, timestamp);
  }

  /** Entry `i` is the projection of the `i`-th meme of the ranking; scores do not increase. */
  lemma SnapshotRanked(batch: seq<Meme>, topN: int, now: real, timestamp: string)
    requires batch != []
    ensures var entries := BuildSnapshot(batch, topN, now, timestamp).value.memes;
            var top := TopMemes(batch, topN, now);
            |entries| == |top| &&
            (forall i :: 0 <= i < |entries| ==> entries[i] == Project(top[i], now)) &&
            forall i, j :: 0 <= i < j < |entries| ==> entries[i].forecastScore >= entries[j].forecastScore
  {
    var sorted := SortDesc(batch, ScoreAt(now));
    var top := TopMemes(batch, topN, now);
    assert forall i :: 0 <= i < |top| ==> top[i] == sorted[i];
  }

  /**
   * The snapshot holds the highest scores: its memes are drawn from the
   * batch, and every meme left out scores no higher than any meme kept.
   */
  lemma SnapshotHoldsHighestScores(batch: seq<Meme>, topN: int, now: real)
    ensures var top := TopMemes(batch, topN, now);
            multiset(top) <= multiset(batch) &&
            forall x, y :: x in top && y in multiset(batch) - multiset(top) ==>
              Score(x.fields, now) >= Score(y.fields, now)
  {
    var top := TopMemes(batch, topN, now);
    TopOfSortedIsLargest(batch, ScoreAt(now), topN);
    forall x, y | x in top && y in multiset(batch) - multiset(top)
      ensures Score(x.fields, now) >= Score(y.fields, now)
    {
      assert ScoreAt(now)(x) >= ScoreAt(now)(y);
    }
  }

  /**
   * Ties keep fetch order: for every score, the snapshot's memes with that
   * score are the first memes with that score in the batch, in batch order.
   */
  lemma SnapshotTiesInFetchOrder(batch: seq<Meme>, topN: int, now: real, score: real)
    ensures WithKey(TopMemes(batch, topN, now), ScoreAt(now), score) <= WithKey(batch, ScoreAt(now), score)
  {
    TopKeepsTieOrder(batch, ScoreAt(now), topN, score);
  }
}
