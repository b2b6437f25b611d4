/** The display arithmetic shared by the browser pages: the funded
    percentage of a campaign and the "time ago" label. The current time is
    a parameter instead of Date.now(). */
module Format {
  import opened JsValues

  /** Math.round: the nearest integer, halves rounded up. */
  function Round(x: real): (r: int)
    ensures r as real - 0.5 <= x < r as real + 0.5
  {
    (x + 0.5).Floor
  }

  /** format.percent(raised, goal), on the values Number() gives for them. */
  function Percent(raised: JsNumber, goal: JsNumber): (r: JsNumber)
    ensures !NumberTruthy(goal) ==> r == Finite(0.0)
    ensures NumberTruthy(goal) && raised.NaN? ==> r.NaN?
    ensures raised.Finite? ==> r.Finite? && 0.0 <= r.value <= 100.0 && r.value == r.value.Floor as real
  {
    if !NumberTruthy(goal) then Finite(0.0)
    else if raised.NaN? then NaN
    else Finite(Max(0, Min(100, Round(raised.value / goal.value * 100.0))) as real)
  }

  /** For every non-zero goal, the percentage is the exact ratio times 100
      rounded to the nearest integer and clamped to 0..100: below one half
      it shows 0, from 99.5 up it shows 100, and in between it is within
      one half of the ratio (a property of this model's exact arithmetic,
      not of double-precision division). */
  lemma PercentIsNearest(raised: real, goal: real)
    requires goal != 0.0
    ensures var x := raised / goal * 100.0;
      var p := Percent(Finite(raised), Finite(goal)).value;
      && (x < 0.5 ==> p == 0.0)
      && (x >= 99.5 ==> p == 100.0)
      && (0.5 <= x < 99.5 ==> p - 0.5 <= x < p + 0.5)
  {
  }

  /** For a positive goal, reaching the goal shows 100 and nothing raised
      (or a negative total) shows 0. */
  lemma PercentSaturates(raised: real, goal: real)
    requires goal > 0.0
    ensures raised >= goal ==> Percent(Finite(raised), Finite(goal)) == Finite(100.0)
    ensures raised <= 0.0 ==> Percent(Finite(raised), Finite(goal)) == Finite(0.0)
  {
    if raised >= goal {
      assert raised / goal >= 1.0;
    }
    if raised <= 0.0 {
      assert raised / goal <= 0.0;
    }
  }

  /** For a positive goal, the percentage never drops when more is raised. */
  lemma PercentMonotone(a: real, b: real, goal: real)
    requires goal > 0.0 && a <= b
    ensures Percent(Finite(a), Finite(goal)).value <= Percent(Finite(b), Finite(goal)).value
  {
    assert a / goal <= b / goal by {
      assert b / goal - a / goal == (b - a) / goal;
    }
    var x, y := a / goal * 100.0, b / goal * 100.0;
    assert x <= y;
    assert Round(x) <= Round(y);
  }

  const MinuteMs: int := 60000
  const HourMs: int := 3600000
  const DayMs: int := 86400000

  /** A label "<count><unit> ago". */
  datatype Ago = Ago(count: int, unit: string)

  /** The unit and count format.timeAgo picks for an elapsed time. Only the
      year bucket can show a zero count. */
  function Bucket(elapsedMs: nat): (a: Ago)
    ensures a.unit in {"m", "h", "d", "w", "mo", "y"}
    ensures a.count >= 0 && (a.unit != "y" ==> a.count >= 1)
  {
    var mins := elapsedMs / MinuteMs;
    if mins < 60 then Ago(if mins == 0 then 1 else mins, "m")
    else
      var hours := mins / 60;
      if hours < 24 then Ago(hours, "h")
      else
        var days := hours / 24;
        if days < 7 then Ago(days, "d")
        else
          var weeks := days / 7;
          if weeks < 5 then Ago(weeks, "w")
          else
            var months := days / 30;
            if months < 12 then Ago(months, "mo")
            else Ago(days / 365, "y")
  }

  function Render(a: Ago): string {
    Decimal(a.count) + a.unit + " ago"
  }

  /** format.timeAgo(input) at time `now`; `date` is the parsed timestamp of
      the input, None when the date is invalid. */
  function TimeAgo(date: Option<int>, now: int): (r: string)
    ensures date.None? <==> r == ""
  {
    if date.None? then "" else Render(Bucket(Max(now - date.value, 0)))
  }

  /** The unit is chosen by the first threshold the elapsed time is under:
      an hour, a day, 7 days, 5 weeks, 12 thirty-day months; beyond that the
      count is whole 365-day years. Minutes are never shown as 0. */
  lemma BucketThresholds(elapsedMs: nat)
    ensures var b := Bucket(elapsedMs); var days := elapsedMs / DayMs;
      && (b.unit == "m" <==> elapsedMs < HourMs)
      && (b.unit == "m" ==> b.count == Max(1, elapsedMs / MinuteMs))
      && (b.unit == "h" <==> HourMs <= elapsedMs < DayMs)
      && (b.unit == "h" ==> b.count == elapsedMs / HourMs)
      && (b.unit == "d" <==> 1 <= days < 7)
      && (b.unit == "d" ==> b.count == days)
      && (b.unit == "w" <==> 7 <= days < 35)
      && (b.unit == "w" ==> b.count == days / 7)
      && (b.unit == "mo" <==> 35 <= days < 360)
      && (b.unit == "mo" ==> b.count == days / 30)
      && (b.unit == "y" <==> 360 <= days)
      && (b.unit == "y" ==> b.count == days / 365)
  {
    var mins := elapsedMs / MinuteMs;
    var hours := mins / 60;
    assert hours == elapsedMs / HourMs;
    assert hours / 24 == elapsedMs / DayMs;
  }

  /** A date in the future counts as no time elapsed: "1m ago". */
  lemma FutureIsJustNow(date: int, now: int)
    requires date >= now
    ensures TimeAgo(Some(date), now) == "1m ago"
  {
    assert Bucket(0) == Ago(1, "m");
    assert Decimal(1) == "1";
  }

  /** The count shown is 0 exactly when 360 to 364 days have passed: the
      month bucket ends at 360 days but years are counted in 365 days. */
  lemma ZeroOnlyJustBeforeAYear(elapsedMs: nat)
    ensures Bucket(elapsedMs).count == 0 <==> 360 <= elapsedMs / DayMs < 365
  {
    BucketThresholds(elapsedMs);
  }

  /** 360 days ago is labelled "0y ago". */
  lemma ZeroYearsShown(now: int)
    ensures TimeAgo(Some(now - 360 * DayMs), now) == "0y ago"
  {
    BucketThresholds(360 * DayMs);
    assert Decimal(0) == "0";
  }

  /** The bucketing with whole years counted as at least one. */
  function BucketIntended(elapsedMs: nat): (a: Ago)
    ensures a.count >= 1
    ensures a.unit == Bucket(elapsedMs).unit
  {
    var b := Bucket(elapsedMs);
    if b.unit == "y" then Ago(Max(1, b.count), "y") else b
  }

  /** The corrected labelling never shows a zero count and differs from
      format.timeAgo only in the 360 to 364 day window. */
  lemma IntendedDiffersOnlyInYearGap(elapsedMs: nat)
    ensures BucketIntended(elapsedMs) != Bucket(elapsedMs) <==> 360 <= elapsedMs / DayMs < 365
  {
    BucketThresholds(elapsedMs);
    ZeroOnlyJustBeforeAYear(elapsedMs);
  }
}
