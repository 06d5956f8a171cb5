/**
 * The virality score of `score_virality`: engagement per hour since the
 * post was created, with the age floored at a tenth of an hour and the
 * result rounded to two decimals.
 */
module Virality {
  import opened Wrappers
  import opened Memes

  const SecondsPerHour: real := 3600.0
  /** The smallest age, in hours, a score is divided by. */
  const MinElapsedHours: real := 0.1
  /** A comment weighs as much as two fully approved upvotes. */
  const CommentWeight: real := 2.0

  /** Python truthiness of the creation timestamp: missing, null and 0 are all false. */
  predicate HasTimestamp(created: Option<real>) {
    created.Some? && created.value != 0.0
  }

  /** Round half to even: the integer nearest to `y`, the even one on a tie. */
  function RoundHalfEven(y: real): (n: int)
    ensures y - 0.5 <= n as real <= y + 0.5
  {
    var f := y.Floor;
    var d := y - f as real;
    if d < 0.5 then f
    else if d > 0.5 then f + 1
    else if f % 2 == 0 then f else f + 1
  }

  lemma RoundHalfEvenMonotone(x: real, y: real)
    requires x <= y
    ensures RoundHalfEven(x) <= RoundHalfEven(y)
  {
    var fx, fy := x.Floor, y.Floor;
    assert fx <= fy;
    assert RoundHalfEven(x) <= fx + 1;
    assert fy <= RoundHalfEven(y);
    if fx == fy {
      var dx, dy := x - fx as real, y - fy as real;
      assert dx <= dy;
    }
  }

  /** `round(x, 2)`: `x` rounded to a whole number of hundredths. */
  function Round2(x: real): (r: real)
    ensures x - 0.005 <= r <= x + 0.005
  {
    RoundHalfEven(x * 100.0) as real / 100.0
  }

  lemma Round2Monotone(x: real, y: real)
    requires x <= y
    ensures Round2(x) <= Round2(y)
  {
    RoundHalfEvenMonotone(x * 100.0, y * 100.0);
  }

  /** A value that already is a whole number of hundredths is left unchanged. */
  lemma Round2OfHundredths(k: int)
    ensures Round2(k as real / 100.0) == k as real / 100.0
  {
    assert (k as real / 100.0) * 100.0 == k as real;
    assert (k as real).Floor == k;
  }

  /** Hours since `created` at time `now`, never less than `MinElapsedHours`. */
  function ElapsedHours(now: real, created: real): (h: real)
    ensures h >= MinElapsedHours
    ensures h >= (now - created) / SecondsPerHour
    ensures now - created >= MinElapsedHours * SecondsPerHour ==> h == (now - created) / SecondsPerHour
  {
    var hours := (now - created) / SecondsPerHour;
    if hours >= MinElapsedHours then hours else MinElapsedHours
  }

  /** `upvotes * upvote_ratio + comments * 2`, with the defaults 0, 1.0 and 0. */
  function Engagement(f: Fields): real {
    f.upvotes.GetOr(0) as real * f.upvoteRatio.GetOr(1.0) + f.comments.GetOr(0) as real * CommentWeight
  }

  /** The engagement inputs are not negative (the counts and the ratio, where present). */
  predicate NonNegativeEngagement(f: Fields) {
    f.upvotes.GetOr(0) >= 0 && f.upvoteRatio.GetOr(1.0) >= 0.0 && f.comments.GetOr(0) >= 0
  }

  /** `score_virality(meme)` evaluated at the instant `now`. */
  function Score(f: Fields, now: real): (r: real)
    ensures !HasTimestamp(f.createdUtc) ==> r == 0.0
    ensures HasTimestamp(f.createdUtc) ==>
      var rate := Engagement(f) / ElapsedHours(now, f.createdUtc.value);
      rate - 0.005 <= r <= rate + 0.005
  {
    if !HasTimestamp(f.createdUtc) then 0.0
    else Round2(Engagement(f) / ElapsedHours(now, f.createdUtc.value))
  }

  lemma EngagementNonNegative(f: Fields)
    requires NonNegativeEngagement(f)
    ensures Engagement(f) >= 0.0
  {
    var u, ratio, c := f.upvotes.GetOr(0) as real, f.upvoteRatio.GetOr(1.0), f.comments.GetOr(0) as real;
    assert u * ratio >= 0.0;
  }

  /** Dividing a non-negative amount by a larger positive divisor gives no more. */
  lemma DivideByLarger(a: real, small: real, large: real)
    requires a >= 0.0 && 0.0 < small <= large
    ensures 0.0 <= a / large <= a / small
  {
    var q1, q2 := a / large, a / small;
    assert q1 * large == a && q2 * small == a;
    assert q1 * large <= q2 * large by {
      assert q2 * large >= q2 * small;
    }
  }

  /** With non-negative engagement inputs the score is non-negative. */
  lemma ScoreNonNegative(f: Fields, now: real)
    requires NonNegativeEngagement(f)
    ensures Score(f, now) >= 0.0
  {
    if HasTimestamp(f.createdUtc) {
      var h := ElapsedHours(now, f.createdUtc.value);
      EngagementNonNegative(f);
      DivideByLarger(Engagement(f), h, h);
      Round2Monotone(0.0, Engagement(f) / h);
      Round2OfHundredths(0);
    }
  }

  /**
   * The score decays with age: of two posts with the same engagement, the
   * older one (earlier, still truthy, timestamp) scores no higher.
   */
  lemma ScoreDecaysWithAge(f: Fields, older: real, newer: real, now: real)
    requires NonNegativeEngagement(f)
    requires older != 0.0 && newer != 0.0 && older <= newer
    ensures Score(f.(createdUtc := Some(older)), now) <= Score(f.(createdUtc := Some(newer)), now)
  {
    var fo, fn := f.(createdUtc := Some(older)), f.(createdUtc := Some(newer));
    assert Engagement(fo) == Engagement(fn) == Engagement(f);
    var ho, hn := ElapsedHours(now, older), ElapsedHours(now, newer);
    EngagementNonNegative(f);
    DivideByLarger(Engagement(f), hn, ho);
    Round2Monotone(Engagement(f) / ho, Engagement(f) / hn);
  }

  /**
   * A post created at `now` (or stamped in the future) is divided by the
   * floor of a tenth of an hour: its score is ten times its engagement.
   */
  lemma ScoreOfFreshPost(f: Fields, now: real)
    requires HasTimestamp(f.createdUtc) && f.createdUtc.value >= now
    ensures Score(f, now) == Round2(Engagement(f) * 10.0)
  {
    assert ElapsedHours(now, f.createdUtc.value) == MinElapsedHours;
  }

  /** 100 upvotes at ratio 1.0 and 10 comments, one hour old, score 120. */
  lemma ScoreOneHourExample(f: Fields, now: real)
    requires f.upvotes == Some(100) && f.upvoteRatio == Some(1.0) && f.comments == Some(10)
    requires f.createdUtc == Some(now - 3600.0) && now != 3600.0
    ensures Score(f, now) == 120.0
  {
    assert Engagement(f) == 120.0;
    assert ElapsedHours(now, now - 3600.0) == 1.0;
    Round2OfHundredths(12000);
  }
}
