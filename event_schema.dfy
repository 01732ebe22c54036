/** The event form of the web client (frontend/src/api/schemas/event.ts):
    the validation schema with its three date refinements, and the
    transform that joins the picked dates with the picked times into the
    event's `start_at` and `end_at`.

    Dates are local wall-clock times in milliseconds, counted from a
    midnight; the calendar fields a `Date` exposes come from whole days and
    the time of day. */
module EventSchema {
  import opened Base

  type Millis = int

  const MsPerDay: int := 86400000

  /** The day a time falls on, and the whole seconds since its midnight
      (`getHours`, `getMinutes` and `getSeconds` together; milliseconds are
      dropped). */
  function Day(t: Millis): int {
    t / MsPerDay
  }

  function SecondOfDay(t: Millis): (r: int)
    ensures 0 <= r < 86400
  {
    (t % MsPerDay) / 1000
  }

  function Hours(t: Millis): int { SecondOfDay(t) / 3600 }
  function Minutes(t: Millis): int { SecondOfDay(t) / 60 % 60 }
  function Seconds(t: Millis): int { SecondOfDay(t) % 60 }

  /** `new Date(y, m, d, h, mi, s)` with the date of `date` and the clock
      time of `time`. */
  function Combine(date: Millis, time: Millis): Millis {
    Day(date) * MsPerDay + (Hours(time) * 3600 + Minutes(time) * 60 + Seconds(time)) * 1000
  }

  /** The combined time lies on the date's day at the time's clock time, to
      the second; combining again changes nothing, and only the day of the
      date and the clock time of the time matter. */
  lemma CombineParts(date: Millis, time: Millis)
    ensures Day(Combine(date, time)) == Day(date)
    ensures SecondOfDay(Combine(date, time)) == SecondOfDay(time)
    ensures Combine(date, time) % 1000 == 0
    ensures Combine(Combine(date, time), time) == Combine(date, time)
    ensures Combine(date, Combine(date, time)) == Combine(date, time)
  {
    ClockSeconds(time);
    var c := Combine(date, time);
    SplitDayTime(Day(date), SecondOfDay(time));
    ClockSeconds(c);
  }

  /** Hours, minutes and seconds put back together give the seconds since
      midnight. */
  lemma ClockSeconds(t: Millis)
    ensures Hours(t) * 3600 + Minutes(t) * 60 + Seconds(t) == SecondOfDay(t)
  {
  }

  /** A day and a second of that day, read back. */
  lemma SplitDayTime(d: int, sec: int)
    requires 0 <= sec < 86400
    ensures Day(d * MsPerDay + sec * 1000) == d
    ensures SecondOfDay(d * MsPerDay + sec * 1000) == sec
    ensures (d * MsPerDay + sec * 1000) % 1000 == 0
  {
    var c := d * MsPerDay + sec * 1000;
    DayOfSplit(d, sec * 1000);
    assert c == (d * 86400 + sec) * 1000;
  }

  /** Whole days and a remainder shorter than a day, read back. */
  lemma DayOfSplit(d: int, r: int)
    requires 0 <= r < MsPerDay
    ensures (d * MsPerDay + r) / MsPerDay == d
    ensures (d * MsPerDay + r) % MsPerDay == r
  {
    var c := d * MsPerDay + r;
    var q := c / MsPerDay;
    assert c == q * MsPerDay + c % MsPerDay;
    assert q == d;
  }

  /** A later day always gives a later combined time, whatever the clock
      times; on the same day the clock times decide. */
  lemma CombineOrder(from: Millis, startTime: Millis, to: Millis, endTime: Millis)
    ensures Day(from) < Day(to) ==> Combine(from, startTime) < Combine(to, endTime)
    ensures Day(from) == Day(to) ==>
      (Combine(from, startTime) < Combine(to, endTime) <==> SecondOfDay(startTime) < SecondOfDay(endTime))
  {
    CombineParts(from, startTime);
    CombineParts(to, endTime);
    var a := Combine(from, startTime);
    var b := Combine(to, endTime);
    assert a == Day(from) * MsPerDay + SecondOfDay(startTime) * 1000;
    assert b == Day(to) * MsPerDay + SecondOfDay(endTime) * 1000;
    if Day(from) < Day(to) {
      assert Day(from) * MsPerDay + MsPerDay <= Day(to) * MsPerDay;
    }
  }

  /** One validation message and the field it is reported on. */
  datatype Issue = Issue(path: string, message: string)

  /** What the form holds; a field the user left empty is `None`. */
  datatype DateRange = DateRange(from: Option<Millis>, to: Option<Millis>)

  datatype Form = Form(
    name: Option<string>,
    description: Option<string>,
    date: Option<DateRange>,
    startTime: Option<Millis>,
    endTime: Option<Millis>,
    zooId: Option<string>,
    eventTypeId: Option<string>)

  /** `addDays(new Date(), -1)`. */
  function Yesterday(now: Millis): Millis {
    now - MsPerDay
  }

  const AfterStart: string := "Ending date must be after starting date"
  const StartInFuture: string := "Starting date must be in the future"
  const EndInFuture: string := "Ending date must be in the future"

  /** The issues of a text field: a missing value, or one shorter than the
      minimum. */
  function TextIssues(path: string, value: Option<string>, missing: string, min: nat, short: string): seq<Issue> {
    if value.None? then [Issue(path, missing)]
    else if |value.value| < min then [Issue(path, short)]
    else []
  }

  function RequiredIssues<T>(path: string, value: Option<T>, missing: string): seq<Issue> {
    if value.None? then [Issue(path, missing)] else []
  }

  /** The issues of the date range: its missing parts, or, once both are
      picked, every refinement that fails, in the order they are chained. */
  function DateIssues(date: Option<DateRange>, now: Millis): seq<Issue> {
    if date.None? then [Issue("date", "Required")]
    else if date.value.from.None? || date.value.to.None? then
      RequiredIssues("date.from", date.value.from, "Please select a starting date")
      + RequiredIssues("date.to", date.value.to, "Please select a ending date")
    else
      var from := date.value.from.value;
      var to := date.value.to.value;
      (if from < to then [] else [Issue("date", AfterStart)])
      + (if from > Yesterday(now) then [] else [Issue("date", StartInFuture)])
      + (if to > Yesterday(now) then [] else [Issue("date", EndInFuture)])
  }

  /** `eventSchema`: every issue of every field, in the order of the
      fields. */
  function Validate(f: Form, now: Millis): seq<Issue> {
    TextIssues("name", f.name, "Please enter a name", 3, "Name is too short")
    + TextIssues("description", f.description, "Please enter a description", 10, "Description must be at least 10 characters")
    + DateIssues(f.date, now)
    + RequiredIssues("startTime", f.startTime, "Please select a time")
    + RequiredIssues("endTime", f.endTime, "Please select a time")
    + RequiredIssues("zoo_id", f.zooId, "Please select a zoo")
    + RequiredIssues("event_type_id", f.eventTypeId, "Please select an event type")
  }

  /** A form the schema accepts. */
  predicate Complete(f: Form) {
    && f.name.Some? && f.description.Some? && f.date.Some? && f.date.value.from.Some? && f.date.value.to.Some?
    && f.startTime.Some? && f.endTime.Some? && f.zooId.Some? && f.eventTypeId.Some?
  }

  predicate Acceptable(f: Form, now: Millis) {
    && Complete(f)
    && |f.name.value| >= 3
    && |f.description.value| >= 10
    && f.date.value.from.value < f.date.value.to.value
    && f.date.value.from.value > Yesterday(now)
    && f.date.value.to.value > Yesterday(now)
  }

  /** The schema passes a form exactly when every field is filled in, the
      name has at least 3 and the description at least 10 characters, the
      range ends after it starts and both ends are later than this time
      yesterday. */
  lemma ValidateIff(f: Form, now: Millis)
    ensures Validate(f, now) == [] <==> Acceptable(f, now)
  {
  }

  /** Only the date range reports issues on the path "date". */
  lemma DatePathOnlyFromRange(f: Form, now: Millis, x: Issue)
    requires x.path == "date"
    ensures x in Validate(f, now) <==> x in DateIssues(f.date, now)
  {
    var name := TextIssues("name", f.name, "Please enter a name", 3, "Name is too short");
    var description := TextIssues("description", f.description, "Please enter a description", 10, "Description must be at least 10 characters");
    assert "name"[0] != "date"[0];
    assert x !in name;
    assert x !in description;
    assert x !in RequiredIssues("startTime", f.startTime, "Please select a time");
    assert x !in RequiredIssues("endTime", f.endTime, "Please select a time");
    assert x !in RequiredIssues("zoo_id", f.zooId, "Please select a zoo");
    assert x !in RequiredIssues("event_type_id", f.eventTypeId, "Please select an event type");
  }

  /** Each refinement reports on its own: with both dates picked, every
      failed comparison is among the issues. */
  lemma RefinementsReported(f: Form, now: Millis)
    requires f.date.Some? && f.date.value.from.Some? && f.date.value.to.Some?
    ensures var from := f.date.value.from.value;
      var to := f.date.value.to.value;
      && (Issue("date", AfterStart) in Validate(f, now) <==> !(from < to))
      && (Issue("date", StartInFuture) in Validate(f, now) <==> !(from > Yesterday(now)))
      && (Issue("date", EndInFuture) in Validate(f, now) <==> !(to > Yesterday(now)))
  {
    DatePathOnlyFromRange(f, now, Issue("date", AfterStart));
    DatePathOnlyFromRange(f, now, Issue("date", StartInFuture));
    DatePathOnlyFromRange(f, now, Issue("date", EndInFuture));
    assert AfterStart[0] != StartInFuture[0] && StartInFuture[0] != EndInFuture[0];
    assert |AfterStart| != |EndInFuture|;
  }

  /** The third refinement never fails alone: a range that ends after it
      starts, and starts after this time yesterday, also ends after it. */
  lemma EndRefinementImplied(f: Form, now: Millis)
    requires f.date.Some? && f.date.value.from.Some? && f.date.value.to.Some?
    ensures Issue("date", EndInFuture) in Validate(f, now) ==>
      Issue("date", AfterStart) in Validate(f, now) || Issue("date", StartInFuture) in Validate(f, now)
  {
    RefinementsReported(f, now);
  }

  /** The body `transformEventSchema` sends to the server. */
  datatype EventBody = EventBody(name: string, description: string, zooId: string, eventTypeId: string,
                                 startAt: Millis, endAt: Millis)

  function Transform(f: Form): (b: EventBody)
    requires Complete(f)
    ensures b.name == f.name.value && b.description == f.description.value
    ensures b.zooId == f.zooId.value && b.eventTypeId == f.eventTypeId.value
    ensures Day(b.startAt) == Day(f.date.value.from.value) && SecondOfDay(b.startAt) == SecondOfDay(f.startTime.value)
    ensures Day(b.endAt) == Day(f.date.value.to.value) && SecondOfDay(b.endAt) == SecondOfDay(f.endTime.value)
  {
    CombineParts(f.date.value.from.value, f.startTime.value);
    CombineParts(f.date.value.to.value, f.endTime.value);
    EventBody(f.name.value, f.description.value, f.zooId.value, f.eventTypeId.value,
              Combine(f.date.value.from.value, f.startTime.value), Combine(f.date.value.to.value, f.endTime.value))
  }

  /** What an accepted form guarantees about the times sent: the start
      falls no earlier than yesterday's date, the end no earlier than the
      start's date, and the event ends after it starts when the two dates
      are different days or the end time is later in the day. The start
      and end times themselves are never compared with each other. */
  lemma AcceptedTimes(f: Form, now: Millis)
    requires Acceptable(f, now)
    ensures Day(Transform(f).startAt) >= Day(Yesterday(now))
    ensures Day(Transform(f).startAt) <= Day(Transform(f).endAt)
    ensures Day(f.date.value.from.value) < Day(f.date.value.to.value) ==> Transform(f).startAt < Transform(f).endAt
    ensures Day(f.date.value.from.value) == Day(f.date.value.to.value) ==>
      (Transform(f).startAt < Transform(f).endAt <==> SecondOfDay(f.startTime.value) < SecondOfDay(f.endTime.value))
  {
    var from := f.date.value.from.value;
    var to := f.date.value.to.value;
    CombineOrder(from, f.startTime.value, to, f.endTime.value);
    DayMonotone(Yesterday(now), from);
    DayMonotone(from, to);
  }

  lemma DayMonotone(a: Millis, b: Millis)
    requires a <= b
    ensures Day(a) <= Day(b)
  {
  }
}
