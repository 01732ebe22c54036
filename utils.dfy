/** The duration humaniser `time_since` (backend/core/utils.py). */
module Utils {
  import opened Base

  const SecondsPerDay: int := 86400
  const SecondsPerHour: int := 3600
  const SecondsPerMinute: int := 60

  /** A Python `timedelta` at whole-second precision, normalised as Python
      normalises it: any number of days and 0 <= seconds < 86400. */
  datatype Delta = Delta(days: int, seconds: nat)

  predicate Normal(d: Delta) {
    d.seconds < SecondsPerDay
  }

  /** `timedelta(seconds=total)`: days are floored, so the seconds part is
      never negative. */
  function FromSeconds(total: int): (d: Delta)
    ensures Normal(d)
    ensures d.days * SecondsPerDay + d.seconds == total
  {
    Delta(total / SecondsPerDay, total % SecondsPerDay)
  }

  /** The unit and count `time_since` reports. */
  datatype Span = Days(n: int) | Hours(n: int) | Minutes(n: int) | Seconds(n: int)

  /** The branch `time_since` takes: the day count when it is positive
      (whatever the rest of the day), else hours when more than an hour
      remains, else minutes when more than a minute remains, else seconds.
      The comparisons are strict. */
  function Humanize(d: Delta): Span {
    if d.days > 0 then Days(d.days)
    else if d.seconds > SecondsPerHour then Hours(d.seconds / SecondsPerHour)
    else if d.seconds > SecondsPerMinute then Minutes(d.seconds / SecondsPerMinute)
    else Seconds(d.seconds)
  }

  /** The text of a span: "{n} days", "{n}hrs", "{n}mins", "{n} seconds". */
  function SpanText(s: Span): string
    requires s.n >= 0
  {
    match s
    case Days(n) => NatToString(n) + " days"
    case Hours(n) => NatToString(n) + "hrs"
    case Minutes(n) => NatToString(n) + "mins"
    case Seconds(n) => NatToString(n) + " seconds"
  }

  /** `time_since(delta)`. */
  function TimeSince(d: Delta): string {
    SpanText(Humanize(d))
  }

  /** The four texts `time_since` produces, by the branch taken. */
  lemma TimeSinceText(d: Delta)
    ensures d.days > 0 ==> TimeSince(d) == NatToString(d.days) + " days"
    ensures d.days <= 0 && d.seconds > 3600 ==> TimeSince(d) == NatToString(d.seconds / 3600) + "hrs"
    ensures d.days <= 0 && 60 < d.seconds <= 3600 ==> TimeSince(d) == NatToString(d.seconds / 60) + "mins"
    ensures d.days <= 0 && d.seconds <= 60 ==> TimeSince(d) == NatToString(d.seconds) + " seconds"
  {
  }

  function UnitSeconds(s: Span): int {
    match s
    case Days(_) => SecondsPerDay
    case Hours(_) => SecondsPerHour
    case Minutes(_) => SecondsPerMinute
    case Seconds(_) => 1
  }

  /** A positive remaining time is reported as the number of whole units it
      holds, in a unit no larger than the time itself: the report rounds down
      and never says more than remains. */
  lemma HumanizeRoundsDown(total: int)
    requires total > 0
    ensures var s := Humanize(FromSeconds(total));
      s.n >= 0 && s.n * UnitSeconds(s) <= total < (s.n + 1) * UnitSeconds(s)
    ensures var s := Humanize(FromSeconds(total));
      (s.Days? <==> total >= SecondsPerDay) &&
      (s.Hours? <==> SecondsPerHour < total < SecondsPerDay) &&
      (s.Minutes? <==> SecondsPerMinute < total <= SecondsPerHour) &&
      (s.Seconds? <==> total <= SecondsPerMinute)
  {
  }

  /** Exactly one hour reads "60mins" and exactly one minute "60 seconds". */
  lemma StrictThresholds()
    ensures Humanize(FromSeconds(3600)) == Minutes(60)
    ensures Humanize(FromSeconds(60)) == Seconds(60)
    ensures Humanize(FromSeconds(3601)) == Hours(1)
    ensures Humanize(FromSeconds(86400)) == Days(1)
  {
  }

  /** Spans ordered by unit, then count. */
  function Rank(s: Span): int {
    match s
    case Seconds(_) => 0
    case Minutes(_) => 1
    case Hours(_) => 2
    case Days(_) => 3
  }

  predicate SpanLe(s: Span, t: Span) {
    Rank(s) < Rank(t) || (Rank(s) == Rank(t) && s.n <= t.n)
  }

  /** Less remaining time never reads as more: as the clock advances, the
      reported rest time does not grow. */
  lemma HumanizeMonotone(a: int, b: int)
    requires 0 <= a <= b
    ensures SpanLe(Humanize(FromSeconds(a)), Humanize(FromSeconds(b)))
  {
    var sa, sb := Humanize(FromSeconds(a)), Humanize(FromSeconds(b));
    if Rank(sa) == Rank(sb) {
      if sa.Days? {
        assert a / SecondsPerDay <= b / SecondsPerDay;
      } else if sa.Hours? {
        assert a / SecondsPerHour <= b / SecondsPerHour;
      } else if sa.Minutes? {
        assert a / SecondsPerMinute <= b / SecondsPerMinute;
      }
    }
  }

  /** Different spans read differently. */
  lemma SpanTextInjective(s: Span, t: Span)
    requires s.n >= 0 && t.n >= 0
    requires SpanText(s) == SpanText(t)
    ensures s == t
  {
    var ds, dt := NatToString(s.n), NatToString(t.n);
    assert SpanText(s) == ds + Suffix(s) && SpanText(t) == dt + Suffix(t);
    LeadingDigitsOf(ds, Suffix(s));
    LeadingDigitsOf(dt, Suffix(t));
    assert ds == SpanText(s)[..|ds|] == SpanText(t)[..|dt|] == dt;
    NatToStringInjective(s.n, t.n);
    assert Suffix(s) == SpanText(s)[|ds|..] == SpanText(t)[|dt|..] == Suffix(t);
  }

  function Suffix(s: Span): (r: string)
    ensures r != [] && !IsDigit(r[0])
  {
    match s
    case Days(_) => " days"
    case Hours(_) => "hrs"
    case Minutes(_) => "mins"
    case Seconds(_) => " seconds"
  }
}
