/** Animal availability, the scheduling guards and the status / audit
    writers (backend/db/animals.py). */
module DbAnimals {
  import opened Base
  import opened Models
  import opened Utils
  import opened Session

  // ---------------------------------------------------------------------
  // Derived status (get_animals_status)
  // ---------------------------------------------------------------------

  datatype Availability = Available | Unavailable | CheckedOut

  /** A derived status and the reason shown for it. */
  datatype Verdict = Verdict(status: Availability, description: string)

  const LimitReached: string := "Daily Check-out limit reached"
  const DurationReached: string := "Allowed Check-out duration reached"
  const AvailableNote: string := "Animal is available for check-out"
  const AlreadyOutNote: string := "Animal is already checked out"
  const ByAdmin: string := "By Admin"
  const RestingPrefix: string := "Resting for "
  const InvalidStatus: Failure := Internal("Invalid animal status")

  /** Today's summed duration counts only when it is non-null and non-zero
      (a zero `timedelta` is falsy), and then against the hour quota. */
  predicate DurationQuotaReached(a: AnimalIn, duration: Option<int>) {
    duration.Some? && duration.value != 0 && duration.value >= a.maxDailyCheckoutHours * SecondsPerHour
  }

  /** The mandatory rest after the last check-in has not yet run out. */
  predicate Resting(a: AnimalIn, now: Instant) {
    a.lastCheckinTime.Some? && a.lastCheckinTime.value + a.restTime > now
  }

  function RestLeft(a: AnimalIn, now: Instant): int
    requires a.lastCheckinTime.Some?
  {
    a.lastCheckinTime.value + a.restTime - now
  }

  function RestingNote(a: AnimalIn, now: Instant): string
    requires a.lastCheckinTime.Some?
  {
    RestingPrefix + TimeSince(FromSeconds(RestLeft(a, now)))
  }

  /** The ordered rules of `get_animals_status` for one animal, given the
      number of today's check-ins and their summed duration (None when no
      duration was recorded). The first rule that matches wins. */
  function Classify(a: AnimalIn, count: nat, duration: Option<int>, now: Instant): Result<Verdict> {
    if a.status == Some(CheckedInLabel) then
      if count >= a.maxDailyCheckouts then Ok(Verdict(Unavailable, LimitReached))
      else if DurationQuotaReached(a, duration) then Ok(Verdict(Unavailable, DurationReached))
      else if Resting(a, now) then Ok(Verdict(Unavailable, RestingNote(a, now)))
      else Ok(Verdict(Available, AvailableNote))
    else if a.status == Some(CheckedOutLabel) then Ok(Verdict(CheckedOut, AlreadyOutNote))
    else if a.status == Some(UnavailableLabel) then Ok(Verdict(Unavailable, ByAdmin))
    else Err(InvalidStatus)
  }

  /** Independent statement of when an animal may be checked out. */
  predicate MayCheckOut(a: AnimalIn, count: nat, duration: Option<int>, now: Instant) {
    && a.status == Some(CheckedInLabel)
    && count < a.maxDailyCheckouts
    && (duration.None? || duration.value == 0 || duration.value < a.maxDailyCheckoutHours * 3600)
    && (a.lastCheckinTime.None? || a.lastCheckinTime.value + a.restTime <= now)
  }

  lemma AvailableIff(a: AnimalIn, count: nat, duration: Option<int>, now: Instant)
    ensures Classify(a, count, duration, now) == Ok(Verdict(Available, AvailableNote))
        <==> MayCheckOut(a, count, duration, now)
    ensures Classify(a, count, duration, now).Ok? && Classify(a, count, duration, now).value.status == Available
        <==> MayCheckOut(a, count, duration, now)
  {
    if a.status == Some(CheckedInLabel) && count < a.maxDailyCheckouts
       && !DurationQuotaReached(a, duration) && Resting(a, now) {
      assert RestingNote(a, now)[0] == 'R';
    }
  }

  /** The stored labels other than "checked_in" decide the verdict alone, and
      any other stored value is an error. */
  lemma StoredStatusDecides(a: AnimalIn, count: nat, duration: Option<int>, now: Instant)
    ensures a.status == Some(CheckedOutLabel) ==> Classify(a, count, duration, now) == Ok(Verdict(CheckedOut, AlreadyOutNote))
    ensures a.status == Some(UnavailableLabel) ==> Classify(a, count, duration, now) == Ok(Verdict(Unavailable, ByAdmin))
    ensures Classify(a, count, duration, now).Err?
        <==> a.status !in {Some(CheckedInLabel), Some(CheckedOutLabel), Some(UnavailableLabel)}
  {
  }

  /** Rule 1 comes first: once the daily count is reached, neither today's
      duration nor the rest state matters. */
  lemma CountQuotaFirst(a: AnimalIn, count: nat, d1: Option<int>, d2: Option<int>, now1: Instant, now2: Instant)
    requires a.status == Some(CheckedInLabel) && count >= a.maxDailyCheckouts
    ensures Classify(a, count, d1, now1) == Classify(a, count, d2, now2) == Ok(Verdict(Unavailable, LimitReached))
  {
  }

  /** Rule 2 comes before the rest check. */
  lemma DurationQuotaSecond(a: AnimalIn, count: nat, d: Option<int>, now1: Instant, now2: Instant)
    requires a.status == Some(CheckedInLabel) && count < a.maxDailyCheckouts
    requires DurationQuotaReached(a, d)
    ensures Classify(a, count, d, now1) == Classify(a, count, d, now2) == Ok(Verdict(Unavailable, DurationReached))
  {
  }

  /** A null or zero summed duration never triggers rule 2. */
  lemma NullOrZeroDurationIgnored(a: AnimalIn, count: nat, now: Instant)
    ensures Classify(a, count, None, now) == Classify(a, count, Some(0), now)
    ensures Classify(a, count, None, now).Ok? ==> Classify(a, count, None, now).value.description != DurationReached
  {
    if a.status == Some(CheckedInLabel) && count < a.maxDailyCheckouts && Resting(a, now) {
      assert RestingNote(a, now)[0] == 'R';
    }
  }

  /** Rule 3: with both quotas passed, the animal is resting exactly when it
      was checked in and the rest period has not run out. */
  lemma RestRule(a: AnimalIn, count: nat, d: Option<int>, now: Instant)
    requires a.status == Some(CheckedInLabel) && count < a.maxDailyCheckouts
    requires !DurationQuotaReached(a, d)
    ensures Resting(a, now) ==> Classify(a, count, d, now) == Ok(Verdict(Unavailable, RestingNote(a, now)))
    ensures !Resting(a, now) ==> Classify(a, count, d, now) == Ok(Verdict(Available, AvailableNote))
  {
  }

  /** With today's usage fixed, an available animal stays available as the
      clock advances: the rest period only runs out. */
  lemma AvailabilityPersists(a: AnimalIn, count: nat, d: Option<int>, now: Instant, later: Instant)
    requires now <= later
    requires MayCheckOut(a, count, d, now)
    ensures Classify(a, count, d, later) == Ok(Verdict(Available, AvailableNote))
  {
    AvailableIff(a, count, d, later);
  }

  /** The rest time reported shrinks (never grows) as the clock advances, and
      the rest ends exactly at last check-in plus rest time. */
  lemma RestingCountsDown(a: AnimalIn, now: Instant, later: Instant)
    requires Resting(a, now) && now <= later
    ensures Resting(a, later) ==>
      SpanLe(Humanize(FromSeconds(RestLeft(a, later))), Humanize(FromSeconds(RestLeft(a, now))))
    ensures !Resting(a, a.lastCheckinTime.value + a.restTime)
  {
    if Resting(a, later) {
      HumanizeMonotone(RestLeft(a, later), RestLeft(a, now));
    }
  }

  // ---------------------------------------------------------------------
  // Recognising a resting animal by its description (get_resting_animals)
  // ---------------------------------------------------------------------

  predicate MentionsResting(description: string) {
    Contains(Lower(description), "resting")
  }

  lemma NoRestingWithoutG(s: string)
    requires forall i :: 0 <= i < |s| ==> s[i] != 'g' && s[i] != 'G'
    ensures !MentionsResting(s)
  {
    forall i | 0 <= i <= |s| - 7
      ensures !OccursAt(Lower(s), "resting", i)
    {
      assert Lower(s)[i..i + 7][6] == Lower(s)[i + 6] != 'g';
    }
  }

  /** None of the fixed descriptions contains a "g". */
  lemma FixedNotesDoNotMentionResting()
    ensures !MentionsResting(LimitReached) && !MentionsResting(DurationReached)
    ensures !MentionsResting(AvailableNote) && !MentionsResting(AlreadyOutNote)
    ensures !MentionsResting(ByAdmin)
  {
    NoRestingWithoutG(LimitReached);
    NoRestingWithoutG(DurationReached);
    NoRestingWithoutG(AvailableNote);
    NoRestingWithoutG(AlreadyOutNote);
    NoRestingWithoutG(ByAdmin);
  }

  lemma RestingNoteMentionsResting(a: AnimalIn, now: Instant)
    requires a.lastCheckinTime.Some?
    ensures MentionsResting(RestingNote(a, now))
  {
    var s := RestingNote(a, now);
    assert s[..12] == RestingPrefix;
    assert Lower(s)[0..7] == "resting";
    assert OccursAt(Lower(s), "resting", 0);
  }

  /** A derived description mentions "resting" (in any case) exactly when the
      animal is held back by rule 3. */
  lemma MentionsRestingIff(a: AnimalIn, count: nat, d: Option<int>, now: Instant)
    requires Classify(a, count, d, now).Ok?
    ensures MentionsResting(Classify(a, count, d, now).value.description)
        <==> (a.status == Some(CheckedInLabel) && count < a.maxDailyCheckouts
              && !DurationQuotaReached(a, d) && Resting(a, now))
  {
    if a.status == Some(CheckedInLabel) && count < a.maxDailyCheckouts
       && !DurationQuotaReached(a, d) && Resting(a, now) {
      RestingNoteMentionsResting(a, now);
    } else {
      FixedNotesDoNotMentionResting();
    }
  }

  // ---------------------------------------------------------------------
  // Today's usage and the per-animal report
  // ---------------------------------------------------------------------

  /** A link of this animal checked in on the day `isToday` recognises. */
  predicate CheckedInToday(l: AnimalEvent, animalId: int, isToday: Instant -> bool) {
    l.animalId == animalId && l.checkedIn.Some? && isToday(l.checkedIn.value)
  }

  function TodaysLinks(links: seq<AnimalEvent>, animalId: int, isToday: Instant -> bool): seq<AnimalEvent> {
    Filter(links, l => CheckedInToday(l, animalId, isToday))
  }

  /** SQL SUM over the duration column: null values are skipped, and the sum
      of no values is null. */
  function SumDurations(ls: seq<AnimalEvent>): (r: Option<int>)
    ensures r.None? <==> forall i :: 0 <= i < |ls| ==> ls[i].duration.None?
  {
    if ls == [] then None
    else
      var rest := SumDurations(ls[1..]);
      match ls[0].duration
      case None => rest
      case Some(d) => Some(d + (if rest.Some? then rest.value else 0))
  }

  /** One element of `get_animals_status`' answer. */
  datatype AnimalStatus = AnimalStatus(
    animal: Animal,
    status: Availability,
    description: string,
    dailyEventCount: nat,
    dailyEventDuration: int)

  /** The derived status of one animal from today's links. */
  function DerivedStatus(a: Animal, links: seq<AnimalEvent>, isToday: Instant -> bool, now: Instant): Result<Verdict> {
    var today := TodaysLinks(links, a.id, isToday);
    Classify(a.info, |today|, SumDurations(today), now)
  }

  predicate AvailableNow(a: Animal, links: seq<AnimalEvent>, isToday: Instant -> bool, now: Instant) {
    DerivedStatus(a, links, isToday, now).Ok? && DerivedStatus(a, links, isToday, now).value.status == Available
  }

  function Report(a: Animal, links: seq<AnimalEvent>, isToday: Instant -> bool, now: Instant): Result<AnimalStatus> {
    var today := TodaysLinks(links, a.id, isToday);
    var sum := SumDurations(today);
    match Classify(a.info, |today|, sum, now)
    case Err(f) => Err(f)
    case Ok(v) => Ok(AnimalStatus(a, v.status, v.description, |today|, if sum.Some? then sum.value else 0))
  }

  /** The report for every row; a single invalid stored status fails the
      whole request. */
  function StatusesOf(rows: seq<Animal>, links: seq<AnimalEvent>, isToday: Instant -> bool, now: Instant): (r: Result<seq<AnimalStatus>>)
    ensures r.Ok? <==> forall i :: 0 <= i < |rows| ==> Report(rows[i], links, isToday, now).Ok?
    ensures r.Ok? ==> |r.value| == |rows|
    ensures r.Ok? ==> forall i :: 0 <= i < |rows| ==> r.value[i] == Report(rows[i], links, isToday, now).value
    ensures r.Err? ==> r.failure == InvalidStatus
  {
    if rows == [] then Ok([])
    else
      match Report(rows[0], links, isToday, now)
      case Err(f) => Err(f)
      case Ok(s) =>
        match StatusesOf(rows[1..], links, isToday, now)
        case Err(f) => Err(f)
        case Ok(ss) =>
          assert forall i :: 1 <= i < |rows| ==> rows[i] == rows[1..][i - 1];
          Ok([s] + ss)
  }

  /** Which animals a status query covers: one zoo when `zoo_id` is truthy,
      the listed ids when a list is given. */
  predicate Selected(a: Animal, animalIds: Option<seq<int>>, zooId: Option<int>) {
    && (zooId.Some? && zooId.value != 0 ==> a.info.zooId == zooId.value)
    && (animalIds.Some? ==> a.id in animalIds.value)
  }

  function SelectedRows(t: Tables, animalIds: Option<seq<int>>, zooId: Option<int>): seq<Animal> {
    Filter(t.animals, a => Selected(a, animalIds, zooId))
  }

  /** `get_animals_status`: the derived status of every selected animal, in
      stored order. */
  method GetAnimalsStatus(t: Tables, animalIds: Option<seq<int>>, zooId: Option<int>,
                          isToday: Instant -> bool, now: Instant)
    returns (r: Result<seq<AnimalStatus>>)
    ensures r == StatusesOf(SelectedRows(t, animalIds, zooId), t.links, isToday, now)
  {
    var rows := SelectedRows(t, animalIds, zooId);
    var acc: seq<AnimalStatus> := [];
    var i := 0;
    while i < |rows|
      invariant 0 <= i <= |rows|
      invariant |acc| == i
      invariant forall k :: 0 <= k < i ==>
        Report(rows[k], t.links, isToday, now).Ok? && acc[k] == Report(rows[k], t.links, isToday, now).value
    {
      var rep := Report(rows[i], t.links, isToday, now);
      if rep.Err? {
        return Err(InvalidStatus);
      }
      acc := acc + [rep.value];
      i := i + 1;
    }
    assert StatusesOf(rows, t.links, isToday, now).value == acc;
    r := Ok(acc);
  }

  // ---------------------------------------------------------------------
  // Guards used before check-out and scheduling
  // ---------------------------------------------------------------------

  /** `validate_animals`: every requested id must name an animal (of the zoo,
      when one is given); the count of rows found must equal the count of
      ids requested. */
  predicate InZoo(a: Animal, zooId: Option<int>) {
    zooId.Some? && zooId.value != 0 ==> a.info.zooId == zooId.value
  }

  function ValidateAnimals(animalIds: seq<int>, t: Tables, zooId: Option<int>): Result<seq<Animal>> {
    var rows := Filter(t.animals, (a: Animal) => a.id in animalIds && InZoo(a, zooId));
    if |rows| != |animalIds| then Err(Http(404, "Animal not found")) else Ok(rows)
  }

  function Id(a: Animal): int {
    a.id
  }

  function AnimalIds(animals: seq<Animal>): seq<int> {
    Column(animals, Id)
  }

  /** The ids of the animals of the zoo (of every zoo when none is given). */
  function ZooAnimalIds(t: Tables, zooId: Option<int>): set<int> {
    set a | a in t.animals && InZoo(a, zooId) :: a.id
  }

  /** With unique animal ids, `validate_animals` succeeds exactly when the
      requested ids are pairwise different and each names an animal of the
      zoo: an unknown or a repeated id is refused. */
  lemma ValidateAnimalsIff(animalIds: seq<int>, t: Tables, zooId: Option<int>)
    requires Distinct(AnimalIds(t.animals))
    ensures ValidateAnimals(animalIds, t, zooId).Ok?
        <==> Distinct(animalIds) && forall id :: id in animalIds ==> id in ZooAnimalIds(t, zooId)
  {
    var present := ZooAnimalIds(t, zooId);
    forall a | a in t.animals ensures InZoo(a, zooId) <==> a.id in present {
      if a.id in present {
        var b :| b in t.animals && InZoo(b, zooId) && b.id == a.id;
        var i :| 0 <= i < |t.animals| && t.animals[i] == a;
        var j :| 0 <= j < |t.animals| && t.animals[j] == b;
        assert AnimalIds(t.animals)[i] == AnimalIds(t.animals)[j];
      }
    }
    forall k | k in present ensures k in Elems(AnimalIds(t.animals)) {
      var b :| b in t.animals && InZoo(b, zooId) && b.id == k;
      var j :| 0 <= j < |t.animals| && t.animals[j] == b;
      assert AnimalIds(t.animals)[j] == k;
    }
    KeyedCountCheck(t.animals, Id, (a: Animal) => a.id in animalIds && InZoo(a, zooId), animalIds, present);
    if forall id :: id in animalIds ==> id in present {
      assert Elems(animalIds) <= present;
    }
    if Elems(animalIds) <= present {
      forall id | id in animalIds ensures id in present {
        assert id in Elems(animalIds);
      }
    }
  }

  /** Inclusive overlap of two time windows: touching endpoints count. */
  predicate Overlaps(start1: Instant, end1: Instant, start2: Instant, end2: Instant) {
    start1 <= end2 && end1 >= start2
  }

  lemma OverlapsSymmetric(s1: Instant, e1: Instant, s2: Instant, e2: Instant)
    ensures Overlaps(s1, e1, s2, e2) <==> Overlaps(s2, e2, s1, e1)
  {
  }

  /** A window ending exactly when another begins clashes with it; one ending
      strictly earlier does not. */
  lemma TouchingWindowsClash(s1: Instant, e1: Instant, e2: Instant)
    requires s1 <= e1 <= e2
    ensures Overlaps(s1, e1, e1, e2)
    ensures forall s2 :: e1 < s2 <= e2 ==> !Overlaps(s1, e1, s2, e2)
  {
  }

  /** A stored link of the animal to an event of the same zoo whose window
      overlaps the proposed one, other than the event being edited. */
  predicate LinkClashes(l: AnimalEvent, e: Event, animalId: int, endAt: Instant, startAt: Instant,
                        zooId: int, eventId: Option<int>) {
    && l.animalId == animalId && l.eventId == e.id
    && e.info.zooId == zooId
    && Overlaps(e.info.startAt, e.info.endAt, startAt, endAt)
    && (eventId.Some? && eventId.value != 0 ==> e.id != eventId.value)
  }

  predicate Clashes(a: Animal, animalIds: seq<int>, endAt: Instant, startAt: Instant, zooId: int,
                    t: Tables, eventId: Option<int>) {
    a.id in animalIds &&
    exists i, j | 0 <= i < |t.links| && 0 <= j < |t.events| ::
      LinkClashes(t.links[i], t.events[j], a.id, endAt, startAt, zooId, eventId)
  }

  /** Names of the clashing animals, each once, in stored order. */
  function ClashingNames(rows: seq<Animal>, animalIds: seq<int>, endAt: Instant, startAt: Instant,
                         zooId: int, t: Tables, eventId: Option<int>): (names: seq<string>)
    ensures Distinct(names)
    ensures forall n :: n in names <==>
      exists k :: 0 <= k < |rows| && rows[k].info.name == n && Clashes(rows[k], animalIds, endAt, startAt, zooId, t, eventId)
  {
    if rows == [] then []
    else
      var init := rows[..|rows| - 1];
      var last := rows[|rows| - 1];
      var prev := ClashingNames(init, animalIds, endAt, startAt, zooId, t, eventId);
      assert forall k :: 0 <= k < |init| ==> init[k] == rows[k];
      if Clashes(last, animalIds, endAt, startAt, zooId, t, eventId) && last.info.name !in prev
      then prev + [last.info.name]
      else prev
  }

  function ClashMessage(names: seq<string>): string {
    "Animal" + (if |names| == 1 then "" else "s") + " " + Join(names, ", ")
      + " is already assigned to an event during this time"
  }

  /** `validate_event_clashes` (note: the end of the window comes before its
      start in the parameter list). */
  function ValidateEventClashes(animalIds: seq<int>, endAt: Instant, startAt: Instant, zooId: int,
                                t: Tables, eventId: Option<int>): Outcome {
    var names := ClashingNames(t.animals, animalIds, endAt, startAt, zooId, t, eventId);
    if names == [] then Pass else Fail(Http(400, ClashMessage(names)))
  }

  /** The scheduling guard passes exactly when none of the requested animals
      has a link to an event of the same zoo whose window overlaps the
      proposed one (the edited event excepted), and a refusal is a 400. */
  lemma ClashFreeIff(animalIds: seq<int>, endAt: Instant, startAt: Instant, zooId: int,
                     t: Tables, eventId: Option<int>)
    ensures ValidateEventClashes(animalIds, endAt, startAt, zooId, t, eventId).Pass?
        <==> forall k, i, j :: 0 <= k < |t.animals| && 0 <= i < |t.links| && 0 <= j < |t.events|
               && t.animals[k].id in animalIds
               ==> !LinkClashes(t.links[i], t.events[j], t.animals[k].id, endAt, startAt, zooId, eventId)
    ensures ValidateEventClashes(animalIds, endAt, startAt, zooId, t, eventId).Fail?
        ==> ValidateEventClashes(animalIds, endAt, startAt, zooId, t, eventId).failure.code == 400
  {
    var names := ClashingNames(t.animals, animalIds, endAt, startAt, zooId, t, eventId);
    if names != [] {
      assert names[0] in names;
    } else {
      forall k | 0 <= k < |t.animals|
        ensures !Clashes(t.animals[k], animalIds, endAt, startAt, zooId, t, eventId)
      {
        assert t.animals[k].info.name !in names;
      }
    }
  }

  /** `validate_tiers`: the first animal above the caller's tier refuses the
      request with 401. */
  function ValidateTiers(animals: seq<Animal>, user: User): (o: Outcome)
    ensures o.Pass? <==> forall i :: 0 <= i < |animals| ==> animals[i].info.tier <= user.tier
    ensures o.Fail? ==> o.failure.Http? && o.failure.code == 401
  {
    if animals == [] then Pass
    else if animals[0].info.tier > user.tier then
      Fail(Http(401, "You need to be on tier " + IntToString(animals[0].info.tier) + " to checkout this animal"))
    else
      assert forall i :: 1 <= i < |animals| ==> animals[i] == animals[1..][i - 1];
      ValidateTiers(animals[1..], user)
  }

  /** The first report whose status is not "available". */
  function FirstUnavailable(rs: seq<AnimalStatus>): (r: Option<AnimalStatus>)
    ensures r.None? <==> forall i :: 0 <= i < |rs| ==> rs[i].status == Available
    ensures r.Some? ==> r.value in rs && r.value.status != Available
  {
    if rs == [] then None
    else if rs[0].status != Available then Some(rs[0])
    else
      assert forall i :: 1 <= i < |rs| ==> rs[i] == rs[1..][i - 1];
      FirstUnavailable(rs[1..])
  }

  /** `validate_animals_availability`: every listed animal that exists must
      currently derive "available". Ids naming no animal are not reported. */
  function ValidateAvailability(animalIds: seq<int>, t: Tables, isToday: Instant -> bool, now: Instant): Outcome {
    match StatusesOf(SelectedRows(t, Some(animalIds), None), t.links, isToday, now)
    case Err(f) => Fail(f)
    case Ok(rs) =>
      match FirstUnavailable(rs)
      case Some(s) => Fail(Http(400, s.animal.info.name + " is not available to checkout"))
      case None => Pass
  }

  /** The availability check passes exactly when every stored animal
      among the listed ones is available now. */
  lemma ValidateAvailabilityIff(animalIds: seq<int>, t: Tables, isToday: Instant -> bool, now: Instant)
    ensures ValidateAvailability(animalIds, t, isToday, now).Pass?
        <==> forall k :: 0 <= k < |t.animals| && t.animals[k].id in animalIds
               ==> AvailableNow(t.animals[k], t.links, isToday, now)
  {
    if ValidateAvailability(animalIds, t, isToday, now).Pass? {
      AvailabilityPassed(animalIds, t, isToday, now);
    } else {
      AvailabilityRefused(animalIds, t, isToday, now);
    }
  }

  lemma AvailabilityPassed(animalIds: seq<int>, t: Tables, isToday: Instant -> bool, now: Instant)
    requires ValidateAvailability(animalIds, t, isToday, now).Pass?
    ensures forall k :: 0 <= k < |t.animals| && t.animals[k].id in animalIds
              ==> AvailableNow(t.animals[k], t.links, isToday, now)
  {
    var rows := SelectedRows(t, Some(animalIds), None);
    var r := StatusesOf(rows, t.links, isToday, now);
    forall k | 0 <= k < |t.animals| && t.animals[k].id in animalIds
      ensures AvailableNow(t.animals[k], t.links, isToday, now)
    {
      assert Selected(t.animals[k], Some(animalIds), None);
      assert t.animals[k] in rows;
      var m :| 0 <= m < |rows| && rows[m] == t.animals[k];
      assert r.value[m].status == Available;
    }
  }

  lemma AvailabilityRefused(animalIds: seq<int>, t: Tables, isToday: Instant -> bool, now: Instant)
    requires ValidateAvailability(animalIds, t, isToday, now).Fail?
    ensures exists k :: 0 <= k < |t.animals| && t.animals[k].id in animalIds
              && !AvailableNow(t.animals[k], t.links, isToday, now)
  {
    var rows := SelectedRows(t, Some(animalIds), None);
    var m := UnavailableRow(rows, t.links, isToday, now);
    assert rows[m] in t.animals && Selected(rows[m], Some(animalIds), None);
    var k :| 0 <= k < |t.animals| && t.animals[k] == rows[m];
  }

  /** A refused list holds a row that is not available now. */
  lemma UnavailableRow(rows: seq<Animal>, links: seq<AnimalEvent>, isToday: Instant -> bool, now: Instant) returns (m: nat)
    requires StatusesOf(rows, links, isToday, now).Err? || FirstUnavailable(StatusesOf(rows, links, isToday, now).value).Some?
    ensures m < |rows| && !AvailableNow(rows[m], links, isToday, now)
  {
    var r := StatusesOf(rows, links, isToday, now);
    if r.Ok? {
      var s := FirstUnavailable(r.value).value;
      m :| 0 <= m < |r.value| && r.value[m] == s;
    } else {
      m :| 0 <= m < |rows| && Report(rows[m], links, isToday, now).Err?;
    }
  }

  // ---------------------------------------------------------------------
  // Field-by-field audit of an animal update (log_fields_update, get_action)
  // ---------------------------------------------------------------------

  datatype AnimalField =
    | NameField | SpeciesField | ImageField | MaxDailyCheckoutsField
    | MaxDailyCheckoutHoursField | RestTimeField | DescriptionField | TierField
    | DailyCheckoutCountField | DailyCheckoutDurationField | LastCheckinTimeField
    | CheckedInField | HandlingEnabledField | StatusField | ZooIdField

  /** The fields of `AnimalIn` in the order `model_dump` lists them. */
  const AllFields: seq<AnimalField> := [
    NameField, SpeciesField, ImageField, MaxDailyCheckoutsField,
    MaxDailyCheckoutHoursField, RestTimeField, DescriptionField, TierField,
    DailyCheckoutCountField, DailyCheckoutDurationField, LastCheckinTimeField,
    CheckedInField, HandlingEnabledField, StatusField, ZooIdField]

  function FieldName(f: AnimalField): string {
    match f
    case NameField => "name"
    case SpeciesField => "species"
    case ImageField => "image"
    case MaxDailyCheckoutsField => "max_daily_checkouts"
    case MaxDailyCheckoutHoursField => "max_daily_checkout_hours"
    case RestTimeField => "rest_time"
    case DescriptionField => "description"
    case TierField => "tier"
    case DailyCheckoutCountField => "daily_checkout_count"
    case DailyCheckoutDurationField => "daily_checkout_duration"
    case LastCheckinTimeField => "last_checkin_time"
    case CheckedInField => "checked_in"
    case HandlingEnabledField => "handling_enabled"
    case StatusField => "status"
    case ZooIdField => "zoo_id"
  }

  /** `get_action`: the audit action recorded for a changed field. */
  function GetAction(field: string): AuditAction {
    if field == "max_daily_checkouts" then MaxDailyCheckoutsChanged
    else if field == "max_daily_checkout_hours" then MaxCheckoutHoursChanged
    else if field == "rest_time" then RestTimeChanged
    else if field == "image" then ImageUpdated
    else if field == "tier" then TierChanged
    else if field == "zoo_id" then ZooChanged
    else AnimalUpdated
  }

  /** Six fields have an action of their own; every other field, and every
      unknown name, is recorded as a plain update. */
  lemma GetActionOfField(f: AnimalField)
    ensures GetAction(FieldName(f)) == AnimalUpdated <==>
      f !in {MaxDailyCheckoutsField, MaxDailyCheckoutHoursField, RestTimeField, ImageField, TierField, ZooIdField}
  {
    match f
    case NameField => assert FieldName(f)[0] == 'n';
    case SpeciesField => assert FieldName(f)[0] == 's';
    case DescriptionField => assert FieldName(f)[0] == 'd';
    case DailyCheckoutCountField => assert FieldName(f)[0] == 'd';
    case DailyCheckoutDurationField => assert FieldName(f)[0] == 'd';
    case LastCheckinTimeField => assert FieldName(f)[0] == 'l';
    case CheckedInField => assert FieldName(f)[0] == 'c';
    case HandlingEnabledField => assert FieldName(f)[0] == 'h';
    case StatusField => assert FieldName(f)[0] == 's';
    case _ =>
  }

  function OptText(o: Option<string>): string {
    if o.Some? then o.value else "None"
  }

  function OptIntText(o: Option<int>): string {
    if o.Some? then IntToString(o.value) else "None"
  }

  function BoolText(b: bool): string {
    if b then "True" else "False"
  }

  /** `str()` of a field's value. */
  function FieldText(a: AnimalIn, f: AnimalField): string {
    match f
    case NameField => a.name
    case SpeciesField => a.species
    case ImageField => OptText(a.image)
    case MaxDailyCheckoutsField => IntToString(a.maxDailyCheckouts)
    case MaxDailyCheckoutHoursField => IntToString(a.maxDailyCheckoutHours)
    case RestTimeField => IntToString(a.restTime)
    case DescriptionField => OptText(a.description)
    case TierField => IntToString(a.tier)
    case DailyCheckoutCountField => IntToString(a.dailyCheckoutCount)
    case DailyCheckoutDurationField => IntToString(a.dailyCheckoutDuration)
    case LastCheckinTimeField => OptIntText(a.lastCheckinTime)
    case CheckedInField => BoolText(a.checkedIn)
    case HandlingEnabledField => BoolText(a.handlingEnabled)
    case StatusField => OptText(a.status)
    case ZooIdField => IntToString(a.zooId)
  }

  /** The values (not their texts) of a field differ. */
  predicate FieldDiffers(a: AnimalIn, b: AnimalIn, f: AnimalField) {
    match f
    case NameField => a.name != b.name
    case SpeciesField => a.species != b.species
    case ImageField => a.image != b.image
    case MaxDailyCheckoutsField => a.maxDailyCheckouts != b.maxDailyCheckouts
    case MaxDailyCheckoutHoursField => a.maxDailyCheckoutHours != b.maxDailyCheckoutHours
    case RestTimeField => a.restTime != b.restTime
    case DescriptionField => a.description != b.description
    case TierField => a.tier != b.tier
    case DailyCheckoutCountField => a.dailyCheckoutCount != b.dailyCheckoutCount
    case DailyCheckoutDurationField => a.dailyCheckoutDuration != b.dailyCheckoutDuration
    case LastCheckinTimeField => a.lastCheckinTime != b.lastCheckinTime
    case CheckedInField => a.checkedIn != b.checkedIn
    case HandlingEnabledField => a.handlingEnabled != b.handlingEnabled
    case StatusField => a.status != b.status
    case ZooIdField => a.zooId != b.zooId
  }

  function ActorLabel(actor: Actor): string {
    actor.user.firstName + " " + actor.user.lastName + " (" + actor.role.name + ")"
  }

  /** The audit row for one changed field. */
  function FieldAudit(animal: Animal, updated: AnimalIn, actor: Actor, f: AnimalField, now: Instant): AnimalAudit {
    AnimalAudit(animal.id, Some(FieldName(f)), Some(FieldText(animal.info, f)), Some(FieldText(updated, f)),
                Some(ActorLabel(actor) + " updated an animal with name " + animal.info.name),
                GetAction(FieldName(f)), now, actor.user.id)
  }

  /** The listed fields whose values differ, in list order. */
  function Changed(fields: seq<AnimalField>, a: AnimalIn, b: AnimalIn): seq<AnimalField> {
    Filter(fields, f => FieldDiffers(a, b, f))
  }

  function ChangedFields(a: AnimalIn, b: AnimalIn): seq<AnimalField> {
    Changed(AllFields, a, b)
  }

  /** The audit rows of an update, one per changed field in field order. */
  function FieldAudits(animal: Animal, updated: AnimalIn, actor: Actor, fields: seq<AnimalField>, now: Instant): (r: seq<AnimalAudit>)
    ensures |r| == |fields|
    ensures forall i :: 0 <= i < |fields| ==> r[i] == FieldAudit(animal, updated, actor, fields[i], now)
  {
    seq(|fields|, i requires 0 <= i < |fields| => FieldAudit(animal, updated, actor, fields[i], now))
  }

  /** Every field is listed. */
  lemma AllFieldsComplete(f: AnimalField)
    ensures f in AllFields
  {
    match f
    case NameField => assert AllFields[0] == f;
    case SpeciesField => assert AllFields[1] == f;
    case ImageField => assert AllFields[2] == f;
    case MaxDailyCheckoutsField => assert AllFields[3] == f;
    case MaxDailyCheckoutHoursField => assert AllFields[4] == f;
    case RestTimeField => assert AllFields[5] == f;
    case DescriptionField => assert AllFields[6] == f;
    case TierField => assert AllFields[7] == f;
    case DailyCheckoutCountField => assert AllFields[8] == f;
    case DailyCheckoutDurationField => assert AllFields[9] == f;
    case LastCheckinTimeField => assert AllFields[10] == f;
    case CheckedInField => assert AllFields[11] == f;
    case HandlingEnabledField => assert AllFields[12] == f;
    case StatusField => assert AllFields[13] == f;
    case ZooIdField => assert AllFields[14] == f;
  }

  /** Two records agreeing on every field are equal. */
  lemma SameFieldsSame(a: AnimalIn, b: AnimalIn)
    requires forall f :: !FieldDiffers(a, b, f)
    ensures a == b
  {
    assert !FieldDiffers(a, b, NameField) && !FieldDiffers(a, b, SpeciesField);
    assert !FieldDiffers(a, b, ImageField) && !FieldDiffers(a, b, MaxDailyCheckoutsField);
    assert !FieldDiffers(a, b, MaxDailyCheckoutHoursField) && !FieldDiffers(a, b, RestTimeField);
    assert !FieldDiffers(a, b, DescriptionField) && !FieldDiffers(a, b, TierField);
    assert !FieldDiffers(a, b, DailyCheckoutCountField) && !FieldDiffers(a, b, DailyCheckoutDurationField);
    assert !FieldDiffers(a, b, LastCheckinTimeField) && !FieldDiffers(a, b, CheckedInField);
    assert !FieldDiffers(a, b, HandlingEnabledField) && !FieldDiffers(a, b, StatusField);
    assert !FieldDiffers(a, b, ZooIdField);
  }

  /** A field is audited exactly when its value changes. */
  lemma AuditedIffChanged(a: AnimalIn, b: AnimalIn, f: AnimalField)
    ensures f in ChangedFields(a, b) <==> FieldDiffers(a, b, f)
  {
    AllFieldsComplete(f);
  }

  /** An update that changes nothing logs nothing, and an update that logs
      nothing changes nothing. */
  lemma NoChangeNoAudit(a: AnimalIn, b: AnimalIn)
    ensures ChangedFields(a, b) == [] <==> a == b
  {
    if ChangedFields(a, b) == [] {
      forall f ensures !FieldDiffers(a, b, f) {
        AuditedIffChanged(a, b, f);
      }
      SameFieldsSame(a, b);
    } else {
      var f := ChangedFields(a, b)[0];
      AuditedIffChanged(a, b, f);
    }
  }

  /** `log_fields_update`: appends one audit row per changed field, in
      field order. */
  method LogFieldsUpdate(db: Store, animal: Animal, updated: AnimalIn, actor: Actor, now: Instant)
    modifies db`audits
    ensures db.audits == old(db.audits) + FieldAudits(animal, updated, actor, ChangedFields(animal.info, updated), now)
  {
    LogChangedFields(db, animal, updated, actor, AllFields, now);
  }

  /** The loop of `log_fields_update` over the listed fields. */
  method LogChangedFields(db: Store, animal: Animal, updated: AnimalIn, actor: Actor,
                          fields: seq<AnimalField>, now: Instant)
    modifies db`audits
    ensures db.audits == old(db.audits) + FieldAudits(animal, updated, actor, Changed(fields, animal.info, updated), now)
  {
    ghost var start := db.audits;
    for i := 0 to |fields|
      invariant db.audits == start + FieldAudits(animal, updated, actor, Changed(fields[..i], animal.info, updated), now)
    {
      ghost var done := FieldAudits(animal, updated, actor, Changed(fields[..i], animal.info, updated), now);
      ghost var step := if FieldDiffers(animal.info, updated, fields[i]) then [FieldAudit(animal, updated, actor, fields[i], now)] else [];
      FieldAuditsStep(animal, updated, actor, fields, i, now);
      LogIfChanged(db, animal, updated, actor, fields[i], now);
      AppendAssoc(start, done, step);
    }
    assert fields[..|fields|] == fields;
  }

  /** One step of that loop: the audit row of a field whose value changed. */
  method LogIfChanged(db: Store, animal: Animal, updated: AnimalIn, actor: Actor, f: AnimalField, now: Instant)
    modifies db`audits
    ensures db.audits == old(db.audits)
      + (if FieldDiffers(animal.info, updated, f) then [FieldAudit(animal, updated, actor, f, now)] else [])
  {
    if FieldDiffers(animal.info, updated, f) {
      db.audits := db.audits + [FieldAudit(animal, updated, actor, f, now)];
    }
  }

  lemma FieldAuditsSnoc(animal: Animal, updated: AnimalIn, actor: Actor, fields: seq<AnimalField>, f: AnimalField, now: Instant)
    ensures FieldAudits(animal, updated, actor, fields + [f], now)
         == FieldAudits(animal, updated, actor, fields, now) + [FieldAudit(animal, updated, actor, f, now)]
  {
  }

  /** One more field adds its audit row exactly when its value changed. */
  lemma FieldAuditsStep(animal: Animal, updated: AnimalIn, actor: Actor, fields: seq<AnimalField>, i: nat, now: Instant)
    requires i < |fields|
    ensures FieldAudits(animal, updated, actor, Changed(fields[..i + 1], animal.info, updated), now)
         == FieldAudits(animal, updated, actor, Changed(fields[..i], animal.info, updated), now)
            + (if FieldDiffers(animal.info, updated, fields[i]) then [FieldAudit(animal, updated, actor, fields[i], now)] else [])
  {
    var f := fields[i];
    assert fields[..i + 1] == fields[..i] + [f];
    ChangedSnoc(fields[..i], f, animal.info, updated);
    if FieldDiffers(animal.info, updated, f) {
      FieldAuditsSnoc(animal, updated, actor, Changed(fields[..i], animal.info, updated), f, now);
    }
  }

  lemma ChangedSnoc(fields: seq<AnimalField>, f: AnimalField, a: AnimalIn, b: AnimalIn)
    ensures Changed(fields + [f], a, b) == Changed(fields, a, b) + (if FieldDiffers(a, b, f) then [f] else [])
  {
    FilterSnoc(fields, f, g => FieldDiffers(a, b, g));
  }

  // ---------------------------------------------------------------------
  // Writers: update_animals_status, log_audit, toggle_animal_availability
  // ---------------------------------------------------------------------

  /** The stored row after `update_animals_status` visits it. */
  function WithStatus(a: Animal, status: string, now: Instant): Animal {
    Animal(a.id, a.info.(status := Some(status),
                         lastCheckinTime := if status == CheckedInLabel then Some(now) else a.info.lastCheckinTime))
  }

  function SetStatus(animals: seq<Animal>, animalIds: seq<int>, status: string, now: Instant): (r: seq<Animal>)
    ensures |r| == |animals|
  {
    seq(|animals|, i requires 0 <= i < |animals| =>
      if animals[i].id in animalIds then WithStatus(animals[i], status, now) else animals[i])
  }

  /** Every listed animal gets the new status; the last check-in time is
      stamped only for "checked_in"; no other field and no other animal
      changes. */
  lemma SetStatusEffect(animals: seq<Animal>, animalIds: seq<int>, status: string, now: Instant, i: int)
    requires 0 <= i < |animals|
    ensures var r := SetStatus(animals, animalIds, status, now)[i];
      && r.id == animals[i].id
      && r.info.status == (if animals[i].id in animalIds then Some(status) else animals[i].info.status)
      && r.info.lastCheckinTime ==
           (if animals[i].id in animalIds && status == CheckedInLabel then Some(now) else animals[i].info.lastCheckinTime)
      && r.info.(status := None, lastCheckinTime := None) == animals[i].info.(status := None, lastCheckinTime := None)
  {
  }

  method UpdateAnimalsStatus(animalIds: seq<int>, status: string, db: Store, now: Instant)
    requires status in {CheckedInLabel, CheckedOutLabel, UnavailableLabel}
    modifies db`animals
    ensures db.animals == SetStatus(old(db.animals), animalIds, status, now)
  {
    for i := 0 to |db.animals|
      invariant |db.animals| == |old(db.animals)|
      invariant forall k :: 0 <= k < i ==> db.animals[k] == SetStatus(old(db.animals), animalIds, status, now)[k]
      invariant forall k :: i <= k < |db.animals| ==> db.animals[k] == old(db.animals)[k]
    {
      if db.animals[i].id in animalIds {
        db.animals := db.animals[i := WithStatus(db.animals[i], status, now)];
      }
    }
  }

  /** `log_audit`: appends one audit row. */
  method LogAudit(db: Store, audit: AnimalAudit)
    modifies db`audits
    ensures db.audits == old(db.audits) + [audit]
  {
    db.audits := db.audits + [audit];
  }

  /** Position of the first animal with this id. */
  function FindAnimal(animals: seq<Animal>, id: int): (r: Option<nat>)
    ensures r.Some? ==> r.value < |animals| && animals[r.value].id == id
    ensures r.Some? ==> forall k :: 0 <= k < r.value ==> animals[k].id != id
    ensures r.None? <==> forall k :: 0 <= k < |animals| ==> animals[k].id != id
  {
    FirstIndex(animals, Id, id)
  }

  /** The audit row of the admin override; its old value is always the
      opposite label, whatever the status was. */
  function ToggleAudit(animalId: int, userId: int, status: string, now: Instant): AnimalAudit {
    AnimalAudit(animalId, Some("status"),
                Some(if status == "available" then "unavailable" else "available"),
                Some(status), Some("Admin marked animal as " + status),
                AnimalStatusChanged, now, userId)
  }

  /** `toggle_animal_availability`: "available" stores "checked_in",
      "unavailable" stores "unavailable"; one audit row per call. */
  method ToggleAnimalAvailability(db: Store, animalId: int, userId: int, status: string, now: Instant)
    returns (out: Outcome)
    requires status in {"available", "unavailable"}
    modifies db`animals, db`audits
    ensures FindAnimal(old(db.animals), animalId).None? ==> out == Fail(Http(404, "Animal not found")) && unchanged(db)
    ensures FindAnimal(old(db.animals), animalId).Some? ==>
      var i := FindAnimal(old(db.animals), animalId).value;
      && out == Pass
      && db.animals == old(db.animals)[i := Animal(animalId, old(db.animals)[i].info.(
           status := Some(if status == "available" then CheckedInLabel else UnavailableLabel)))]
      && db.audits == old(db.audits) + [ToggleAudit(animalId, userId, status, now)]
  {
    var found := FindAnimal(db.animals, animalId);
    if found.None? {
      return Fail(Http(404, "Animal not found"));
    }
    var i := found.value;
    var stored := if status == "available" then CheckedInLabel else UnavailableLabel;
    db.animals := db.animals[i := Animal(animalId, db.animals[i].info.(status := Some(stored)))];
    LogAudit(db, ToggleAudit(animalId, userId, status, now));
    out := Pass;
  }

  /** After the override, the derived status is "unavailable / By Admin" or
      follows the ordinary rules of a checked-in animal. */
  lemma ToggleDerivedStatus(a: AnimalIn, count: nat, d: Option<int>, now: Instant)
    ensures Classify(a.(status := Some(UnavailableLabel)), count, d, now) == Ok(Verdict(Unavailable, ByAdmin))
    ensures Classify(a.(status := Some(CheckedInLabel)), count, d, now).Ok?
  {
  }
}
