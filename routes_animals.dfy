/** The animal routes (backend/api/routes/animals.py): the activity feed,
    the details page with its time partition of events, the resting and
    checked-out listings, and the handlers that update or delete an animal
    or edit a health log. */
module RoutesAnimals {
  import opened Base
  import opened Models
  import opened Session
  import opened DbAnimals
  import opened DbPermissions
  import opened DbEvents
  import opened DbUsers

  const AnimalNotFound: Failure := Http(404, "Animal not found")

  // ---------------------------------------------------------------------
  // The activity feed (get_feed)
  // ---------------------------------------------------------------------

  /** The six actions the feed shows. */
  const FeedActions: seq<AuditAction> := [
    CheckedInAction, CheckedOutAction, CommentAdded, CommentUpdated, HealthLogAdded, HealthLogUpdated]

  predicate InFeed(a: AnimalAudit) {
    a.action in FeedActions
  }

  /** Ordered by `changed_at`, newest first. */
  predicate NewestFirst(s: seq<AnimalAudit>) {
    forall i, j :: 0 <= i < j < |s| ==> s[i].changedAt >= s[j].changedAt
  }

  /** Puts one row into a newest-first list. */
  function InsertNewest(x: AnimalAudit, s: seq<AnimalAudit>): (r: seq<AnimalAudit>)
    requires NewestFirst(s)
    ensures NewestFirst(r)
    ensures multiset(r) == multiset(s) + multiset{x}
    ensures r[0] == x || (s != [] && r[0] == s[0])
  {
    if s == [] || x.changedAt >= s[0].changedAt then
      ConsNewest(x, s);
      [x] + s
    else
      var rest := InsertNewest(x, s[1..]);
      assert s == [s[0]] + s[1..];
      ConsNewest(s[0], rest);
      [s[0]] + rest
  }

  /** A row no older than the head of a newest-first list can go first. */
  lemma ConsNewest(y: AnimalAudit, s: seq<AnimalAudit>)
    requires NewestFirst(s) && (s == [] || y.changedAt >= s[0].changedAt)
    ensures NewestFirst([y] + s)
  {
    var r := [y] + s;
    forall i, j | 0 <= i < j < |r| ensures r[i].changedAt >= r[j].changedAt {
      if i == 0 && j > 1 {
        assert s[0].changedAt >= s[j - 1].changedAt;
      }
    }
  }

  /** `ORDER BY changed_at DESC`. Rows with the same time may come in any
      order from the database; this one keeps them in reverse table order. */
  function SortNewest(s: seq<AnimalAudit>): (r: seq<AnimalAudit>)
    ensures NewestFirst(r)
    ensures multiset(r) == multiset(s)
  {
    if s == [] then []
    else
      assert s == [s[0]] + s[1..];
      InsertNewest(s[0], SortNewest(s[1..]))
  }

  /** The audit rows the feed query returns. */
  function Feed(audits: seq<AnimalAudit>): seq<AnimalAudit> {
    SortNewest(Filter(audits, InFeed))
  }

  /** The feed holds every audit row with one of the six actions, each as
      often as it is stored, and nothing else, newest first. */
  lemma FeedExact(audits: seq<AnimalAudit>)
    ensures NewestFirst(Feed(audits))
    ensures multiset(Feed(audits)) == multiset(Filter(audits, InFeed))
    ensures forall a :: a in Feed(audits) <==> a in audits && InFeed(a)
  {
    var f := Filter(audits, InFeed);
    forall a ensures a in Feed(audits) <==> a in audits && InFeed(a) {
      calc {
        a in Feed(audits);
        a in multiset(Feed(audits));
        a in multiset(f);
        a in f;
      }
      if a in audits && InFeed(a) {
        var i :| 0 <= i < |audits| && audits[i] == a;
      }
    }
  }

  /** One feed entry. The action stands for its display text, and the
      author's first and last name are joined by a space. */
  datatype FeedEvent = FeedEvent(name: string, action: AuditAction, image: Option<string>, loggedAt: Instant, loggedBy: string)

  /** The entry of one audit row; its animal and author are joined in (the
      foreign keys guarantee both exist). */
  function FeedItem(t: Tables, a: AnimalAudit): FeedEvent {
    var animal := FindAnimal(t.animals, a.animalId);
    var user := UserById(t.users, a.changedBy);
    FeedEvent(
      if animal.Some? then t.animals[animal.value].info.name else "",
      a.action,
      if animal.Some? then t.animals[animal.value].info.image else None,
      a.changedAt,
      if user.Some? then user.value.firstName + " " + user.value.lastName else "")
  }

  /** `get_feed`: one entry per row of the feed query, in its order. */
  method GetFeed(t: Tables) returns (r: seq<FeedEvent>)
    ensures |r| == |Feed(t.audits)|
    ensures forall i :: 0 <= i < |r| ==> r[i] == FeedItem(t, Feed(t.audits)[i])
    ensures forall i :: 0 <= i < |r| ==> r[i].action in FeedActions
    ensures forall i, j :: 0 <= i < j < |r| ==> r[i].loggedAt >= r[j].loggedAt
  {
    var feed := Feed(t.audits);
    FeedExact(t.audits);
    r := FeedItems(t, feed);
    forall i | 0 <= i < |r| ensures r[i].action in FeedActions {
      assert feed[i] in feed;
    }
  }

  /** The loop building one entry per audit row. */
  method FeedItems(t: Tables, feed: seq<AnimalAudit>) returns (r: seq<FeedEvent>)
    ensures |r| == |feed|
    ensures forall i :: 0 <= i < |feed| ==> r[i] == FeedItem(t, feed[i])
    ensures forall i :: 0 <= i < |feed| ==> r[i].action == feed[i].action && r[i].loggedAt == feed[i].changedAt
  {
    r := [];
    for i := 0 to |feed|
      invariant |r| == i
      invariant forall k :: 0 <= k < i ==> r[k] == FeedItem(t, feed[k])
    {
      r := r + [FeedItem(t, feed[i])];
    }
  }

  // ---------------------------------------------------------------------
  // The details page (get_animal_details)
  // ---------------------------------------------------------------------

  /** The events the animal has a link to, in stored order. */
  predicate HasLink(links: seq<AnimalEvent>, animalId: int, e: Event) {
    exists k :: 0 <= k < |links| && links[k].animalId == animalId && links[k].eventId == e.id
  }

  function EventsOfAnimal(t: Tables, animalId: int): seq<Event> {
    Filter(t.events, (e: Event) => HasLink(t.links, animalId, e))
  }

  /** The three branches of the partition, tried in the order the code
      tries them: current (`IsLive`), past, upcoming. */
  predicate IsPast(d: EventDetails, now: Instant) {
    !IsLive(d, now) && d.event.info.endAt < now
  }

  predicate IsUpcoming(d: EventDetails, now: Instant) {
    !IsLive(d, now) && !(d.event.info.endAt < now) && d.event.info.startAt > now
  }

  /** Every entry satisfies exactly one branch: past means ended before
      now, and upcoming means not started and not ended, which for an event
      that does not end before it starts is the same as not started. */
  lemma TimePartition(d: EventDetails, now: Instant)
    ensures IsLive(d, now) || IsPast(d, now) || IsUpcoming(d, now)
    ensures !(IsLive(d, now) && IsPast(d, now)) && !(IsLive(d, now) && IsUpcoming(d, now))
    ensures !(IsPast(d, now) && IsUpcoming(d, now))
    ensures IsPast(d, now) <==> d.event.info.endAt < now
    ensures IsUpcoming(d, now) <==> now < d.event.info.startAt && now <= d.event.info.endAt
    ensures d.event.info.startAt <= d.event.info.endAt ==> (IsUpcoming(d, now) <==> now < d.event.info.startAt)
  {
  }

  /** The loop that appends each entry to the first list whose test it
      passes. */
  method SplitByTime(ds: seq<EventDetails>, now: Instant)
    returns (current: seq<EventDetails>, past: seq<EventDetails>, upcoming: seq<EventDetails>)
    ensures current == Filter(ds, (d: EventDetails) => IsLive(d, now))
    ensures past == Filter(ds, (d: EventDetails) => IsPast(d, now))
    ensures upcoming == Filter(ds, (d: EventDetails) => IsUpcoming(d, now))
  {
    current, past, upcoming := [], [], [];
    for i := 0 to |ds|
      invariant current == Filter(ds[..i], (d: EventDetails) => IsLive(d, now))
      invariant past == Filter(ds[..i], (d: EventDetails) => IsPast(d, now))
      invariant upcoming == Filter(ds[..i], (d: EventDetails) => IsUpcoming(d, now))
    {
      FilterPrefixStep(ds, i, (d: EventDetails) => IsLive(d, now));
      FilterPrefixStep(ds, i, (d: EventDetails) => IsPast(d, now));
      FilterPrefixStep(ds, i, (d: EventDetails) => IsUpcoming(d, now));
      var e := ds[i].event.info;
      if e.startAt <= now <= e.endAt {
        current := current + [ds[i]];
      } else if e.endAt < now {
        past := past + [ds[i]];
      } else if e.startAt > now {
        upcoming := upcoming + [ds[i]];
      }
    }
    assert ds[..|ds|] == ds;
  }

  /** No entry is lost or listed twice by the partition. */
  lemma SplitByTimeCovers(ds: seq<EventDetails>, now: Instant)
    ensures |Filter(ds, (d: EventDetails) => IsLive(d, now))| + |Filter(ds, (d: EventDetails) => IsPast(d, now))|
          + |Filter(ds, (d: EventDetails) => IsUpcoming(d, now))| == |ds|
  {
    forall d: EventDetails ensures
      || (IsLive(d, now) && !IsPast(d, now) && !IsUpcoming(d, now))
      || (!IsLive(d, now) && IsPast(d, now) && !IsUpcoming(d, now))
      || (!IsLive(d, now) && !IsPast(d, now) && IsUpcoming(d, now))
    {
      TimePartition(d, now);
    }
    FilterSplit3(ds, (d: EventDetails) => IsLive(d, now), (d: EventDetails) => IsPast(d, now),
                 (d: EventDetails) => IsUpcoming(d, now));
  }

  /** The answer of the details page. Durations are in seconds. */
  datatype AnimalWithEvents = AnimalWithEvents(
    animal: Animal,
    currentEvents: seq<EventDetails>,
    pastEvents: seq<EventDetails>,
    upcomingEvents: seq<EventDetails>,
    dailyCheckoutCount: nat,
    dailyCheckoutDuration: int,
    eventActivity: int)

  /** The links of the listed events, of every animal. */
  function LinksOfEvents(links: seq<AnimalEvent>, events: seq<Event>): seq<AnimalEvent> {
    Filter(links, (l: AnimalEvent) => exists k :: 0 <= k < |events| && events[k].id == l.eventId)
  }

  /** A sum of no durations is zero. */
  function OrZero(d: Option<int>): int {
    if d.Some? then d.value else 0
  }

  /** `get_animal_details`. The activity total sums the durations of the
      links of the animal's events, whichever animal they belong to. */
  method GetAnimalDetails(t: Tables, animalId: int, isToday: Instant -> bool, now: Instant)
    returns (r: Result<AnimalWithEvents>)
    ensures r.Err? <==> FindAnimal(t.animals, animalId).None?
    ensures r.Err? ==> r.failure == AnimalNotFound
    ensures r.Ok? ==>
      var ds := DetailsList(t, EventsOfAnimal(t, animalId));
      var today := TodaysLinks(t.links, animalId, isToday);
      && r.value.animal == t.animals[FindAnimal(t.animals, animalId).value]
      && r.value.currentEvents == Filter(ds, (d: EventDetails) => IsLive(d, now))
      && r.value.pastEvents == Filter(ds, (d: EventDetails) => IsPast(d, now))
      && r.value.upcomingEvents == Filter(ds, (d: EventDetails) => IsUpcoming(d, now))
      && r.value.dailyCheckoutCount == |today|
      && r.value.dailyCheckoutDuration == OrZero(SumDurations(today))
      && r.value.eventActivity == OrZero(SumDurations(LinksOfEvents(t.links, EventsOfAnimal(t, animalId))))
  {
    var found := FindAnimal(t.animals, animalId);
    if found.None? {
      return Err(AnimalNotFound);
    }
    var events := EventsOfAnimal(t, animalId);
    var ds := GetEventsDetails(t, events);
    assert ds == DetailsList(t, events);
    var current, past, upcoming := SplitByTime(ds, now);
    var today := TodaysLinks(t.links, animalId, isToday);
    r := Ok(AnimalWithEvents(t.animals[found.value], current, past, upcoming, |today|,
                             OrZero(SumDurations(today)), OrZero(SumDurations(LinksOfEvents(t.links, events)))));
  }

  /** Every event the animal is linked to shows up in exactly one of the
      three lists, and no other event does. */
  lemma DetailsPageLists(t: Tables, animalId: int, now: Instant, e: Event)
    ensures var ds := DetailsList(t, EventsOfAnimal(t, animalId));
      ((DetailsOf(t, e) in Filter(ds, (d: EventDetails) => IsLive(d, now))
        || DetailsOf(t, e) in Filter(ds, (d: EventDetails) => IsPast(d, now))
        || DetailsOf(t, e) in Filter(ds, (d: EventDetails) => IsUpcoming(d, now)))
       <==> e in t.events && HasLink(t.links, animalId, e))
  {
    var evs := EventsOfAnimal(t, animalId);
    var ds := DetailsList(t, evs);
    var d := DetailsOf(t, e);
    TimePartition(d, now);
    if e in t.events && HasLink(t.links, animalId, e) {
      var j :| 0 <= j < |t.events| && t.events[j] == e;
      assert e in evs;
      var i :| 0 <= i < |evs| && evs[i] == e;
      assert ds[i] == d;
    }
    if d in ds {
      var i :| 0 <= i < |ds| && ds[i] == d;
      assert evs[i] in evs;
      assert evs[i] == e;
    }
  }

  // ---------------------------------------------------------------------
  // Resting and checked-out animals
  // ---------------------------------------------------------------------

  /** `get_resting_animals`: the status of every animal, kept when its
      description mentions "resting" in any letter case. */
  method GetRestingAnimals(t: Tables, isToday: Instant -> bool, now: Instant) returns (r: Result<seq<AnimalStatus>>)
    ensures r.Err? <==> StatusesOf(t.animals, t.links, isToday, now).Err?
    ensures r.Ok? ==> r.value == Filter(StatusesOf(t.animals, t.links, isToday, now).value,
                                        (s: AnimalStatus) => MentionsResting(s.description))
  {
    var statuses := GetAnimalsStatus(t, None, None, isToday, now);
    assert SelectedRows(t, None, None) == t.animals by {
      FilterAll(t.animals, a => Selected(a, None, None));
    }
    if statuses.Err? {
      return Err(statuses.failure);
    }
    r := Ok(Filter(statuses.value, (s: AnimalStatus) => MentionsResting(s.description)));
  }

  /** The resting list holds exactly the animals kept back by the rest
      rule: stored as checked in, under both daily quotas, and checked in
      less than the rest time ago. */
  lemma RestingExact(t: Tables, isToday: Instant -> bool, now: Instant, k: nat)
    requires StatusesOf(t.animals, t.links, isToday, now).Ok? && k < |t.animals|
    ensures var rs := StatusesOf(t.animals, t.links, isToday, now).value;
      var a := t.animals[k];
      var today := TodaysLinks(t.links, a.id, isToday);
      (rs[k] in Filter(rs, (s: AnimalStatus) => MentionsResting(s.description))
       <==> (a.info.status == Some(CheckedInLabel) && |today| < a.info.maxDailyCheckouts
              && !DurationQuotaReached(a.info, SumDurations(today)) && Resting(a.info, now)))
  {
    var rs := StatusesOf(t.animals, t.links, isToday, now).value;
    var a := t.animals[k];
    var today := TodaysLinks(t.links, a.id, isToday);
    assert Report(a, t.links, isToday, now).Ok?;
    MentionsRestingIff(a.info, |today|, SumDurations(today), now);
    assert rs[k].description == Classify(a.info, |today|, SumDurations(today), now).value.description;
  }

  /** A row of the checked-out listing: the animal and its event, if the
      event is found. */
  datatype AnimalWithCurrentEvent = AnimalWithCurrentEvent(animal: Animal, currentEvent: Option<EventDetails>)

  /** The join of animals with their links in the field, one row per such
      link whose animal is stored. */
  function OutRows(animals: seq<Animal>, links: seq<AnimalEvent>): (r: seq<(Animal, AnimalEvent)>)
    ensures forall i :: 0 <= i < |r| ==>
      r[i].0 in animals && r[i].1 in links && InTheField(r[i].1) && r[i].0.id == r[i].1.animalId
    ensures forall i :: 0 <= i < |links| && InTheField(links[i]) && FindAnimal(animals, links[i].animalId).Some? ==>
      (animals[FindAnimal(animals, links[i].animalId).value], links[i]) in r
  {
    if links == [] then []
    else
      var rest := OutRows(animals, links[1..]);
      assert forall i :: 1 <= i < |links| ==> links[i] == links[1..][i - 1];
      var l := links[0];
      var a := FindAnimal(animals, l.animalId);
      if InTheField(l) && a.Some? then [(animals[a.value], l)] + rest else rest
  }

  /** With unique ids, the animal at position `k` is the one its id finds. */
  lemma FindAnimalUnique(animals: seq<Animal>, k: nat)
    requires Distinct(AnimalIds(animals)) && k < |animals|
    ensures FindAnimal(animals, animals[k].id) == Some(k)
  {
    var ids := AnimalIds(animals);
    var r := FindAnimal(animals, animals[k].id);
    assert r.Some?;
  }

  /** An animal (ids being unique) is listed as checked out exactly when
      one of its links is checked out and not yet checked in. */
  lemma CheckedOutIff(animals: seq<Animal>, links: seq<AnimalEvent>, k: nat)
    requires Distinct(AnimalIds(animals)) && k < |animals|
    ensures (exists i :: 0 <= i < |OutRows(animals, links)| && OutRows(animals, links)[i].0 == animals[k])
        <==> exists j :: 0 <= j < |links| && links[j].animalId == animals[k].id && InTheField(links[j])
  {
    if exists j :: 0 <= j < |links| && links[j].animalId == animals[k].id && InTheField(links[j]) {
      var j :| 0 <= j < |links| && links[j].animalId == animals[k].id && InTheField(links[j]);
      OutRowsListsOut(animals, links, k, j);
    }
    if exists i :: 0 <= i < |OutRows(animals, links)| && OutRows(animals, links)[i].0 == animals[k] {
      var i :| 0 <= i < |OutRows(animals, links)| && OutRows(animals, links)[i].0 == animals[k];
      OutRowsFromLinks(animals, links, i);
    }
  }

  lemma OutRowsListsOut(animals: seq<Animal>, links: seq<AnimalEvent>, k: nat, j: nat)
    requires Distinct(AnimalIds(animals)) && k < |animals| && j < |links|
    requires links[j].animalId == animals[k].id && InTheField(links[j])
    ensures exists i :: 0 <= i < |OutRows(animals, links)| && OutRows(animals, links)[i].0 == animals[k]
  {
    var r := OutRows(animals, links);
    FindAnimalUnique(animals, k);
    assert (animals[k], links[j]) in r;
    var i :| 0 <= i < |r| && r[i] == (animals[k], links[j]);
    assert r[i].0 == animals[k];
  }

  lemma OutRowsFromLinks(animals: seq<Animal>, links: seq<AnimalEvent>, i: nat)
    requires i < |OutRows(animals, links)|
    ensures var row := OutRows(animals, links)[i];
      exists j :: 0 <= j < |links| && links[j].animalId == row.0.id && InTheField(links[j])
  {
    var row := OutRows(animals, links)[i];
    var j :| 0 <= j < |links| && links[j] == row.1;
  }

  /** The first entry of an event (`next(...)` over the details). */
  function DetailsFor(ds: seq<EventDetails>, eventId: int): (r: Option<EventDetails>)
    ensures r.Some? ==> r.value in ds && r.value.event.id == eventId
    ensures r.None? <==> forall k :: 0 <= k < |ds| ==> ds[k].event.id != eventId
  {
    if ds == [] then None
    else if ds[0].event.id == eventId then Some(ds[0])
    else
      assert forall k :: 1 <= k < |ds| ==> ds[k] == ds[1..][k - 1];
      DetailsFor(ds[1..], eventId)
  }

  /** The stored events any of the rows' links name. */
  function OutEvents(t: Tables, rows: seq<(Animal, AnimalEvent)>): seq<Event> {
    Filter(t.events, (e: Event) => exists i :: 0 <= i < |rows| && rows[i].1.eventId == e.id)
  }

  /** `get_checked_out_animals`: for each joined row, the animal and the
      details of its link's event. */
  method GetCheckedOutAnimals(t: Tables) returns (r: seq<AnimalWithCurrentEvent>)
    ensures |r| == |OutRows(t.animals, t.links)|
    ensures forall i :: 0 <= i < |r| ==> r[i].animal == OutRows(t.animals, t.links)[i].0
    ensures forall i :: 0 <= i < |r| ==> JoinedEvent(t, OutRows(t.animals, t.links)[i].1.eventId, r[i].currentEvent)
  {
    var rows := OutRows(t.animals, t.links);
    var events := OutEvents(t, rows);
    var ds := GetEventsDetails(t, events);
    r := PairWithEvents(rows, ds);
    forall i | 0 <= i < |r| ensures JoinedEvent(t, rows[i].1.eventId, r[i].currentEvent) {
      DetailsForJoins(t, rows, i, ds);
    }
  }

  /** The loop pairing each joined row with the first loaded entry of its
      event. */
  method PairWithEvents(rows: seq<(Animal, AnimalEvent)>, ds: seq<EventDetails>) returns (r: seq<AnimalWithCurrentEvent>)
    ensures |r| == |rows|
    ensures forall k :: 0 <= k < |rows| ==> r[k] == AnimalWithCurrentEvent(rows[k].0, DetailsFor(ds, rows[k].1.eventId))
  {
    r := [];
    for i := 0 to |rows|
      invariant |r| == i
      invariant forall k :: 0 <= k < i ==> r[k] == AnimalWithCurrentEvent(rows[k].0, DetailsFor(ds, rows[k].1.eventId))
    {
      r := r + [AnimalWithCurrentEvent(rows[i].0, DetailsFor(ds, rows[i].1.eventId))];
    }
  }

  /** The details of an event found among the loaded entries are those of
      a stored event with that id; none is found only when no stored event
      has it. */
  predicate JoinedEvent(t: Tables, eventId: int, found: Option<EventDetails>) {
    && (found.Some? ==> exists e :: e in t.events && e.id == eventId && found.value == DetailsOf(t, e))
    && (found.None? ==> forall e :: e in t.events ==> e.id != eventId)
  }

  lemma DetailsForJoins(t: Tables, rows: seq<(Animal, AnimalEvent)>, i: nat, ds: seq<EventDetails>)
    requires i < |rows|
    requires var events := OutEvents(t, rows);
      |ds| == |events| && forall k :: 0 <= k < |events| ==> ds[k] == DetailsOf(t, events[k])
    ensures JoinedEvent(t, rows[i].1.eventId, DetailsFor(ds, rows[i].1.eventId))
  {
  }

  // ---------------------------------------------------------------------
  // Deleting an animal (delete_animal)
  // ---------------------------------------------------------------------

  /** The audit row `delete_animal` writes before the cascade. */
  function DeletedAudit(animal: Animal, actor: Actor, now: Instant): AnimalAudit {
    AnimalAudit(animal.id, None, None, None,
                Some(ActorLabel(actor) + " deleted an animal with name " + animal.info.name),
                AnimalDeleted, now, actor.user.id)
  }

  /** The loop that deletes the selected rows one by one: what is left is
      the rest, in stored order. */
  method KeepOthers<T>(s: seq<T>, keep: T -> bool) returns (kept: seq<T>)
    ensures kept == Filter(s, keep)
  {
    kept := [];
    for i := 0 to |s|
      invariant kept == Filter(s[..i], keep)
    {
      FilterPrefixStep(s, i, keep);
      if keep(s[i]) {
        kept := kept + [s[i]];
      }
    }
    assert s[..|s|] == s;
  }

  /** The table without the row at `i`. */
  function Without<T>(s: seq<T>, i: nat): (r: seq<T>)
    requires i < |s|
    ensures |r| == |s| - 1
  {
    s[..i] + s[i + 1..]
  }

  /** `delete_animal`: the audit row, then the links, audit rows and health
      logs of the animal, then the animal itself. */
  method DeleteAnimal(db: Store, actor: Actor, animalId: int, now: Instant) returns (out: Outcome)
    modifies db`links, db`audits, db`healthLogs, db`animals
    ensures !HasPermission(actor.role.permissions, "delete_animals") ==> out == Fail(NotAuthorized) && unchanged(db)
    ensures HasPermission(actor.role.permissions, "delete_animals") && FindAnimal(old(db.animals), animalId).None? ==>
      out == Fail(AnimalNotFound) && unchanged(db)
    ensures out.Pass? <==> HasPermission(actor.role.permissions, "delete_animals") && FindAnimal(old(db.animals), animalId).Some?
    ensures out.Pass? ==>
      var i := FindAnimal(old(db.animals), animalId).value;
      && db.links == Filter(old(db.links), (l: AnimalEvent) => l.animalId != animalId)
      && db.audits == Filter(old(db.audits) + [DeletedAudit(old(db.animals)[i], actor, now)], (a: AnimalAudit) => a.animalId != animalId)
      && db.healthLogs == Filter(old(db.healthLogs), (h: HealthLog) => h.animalId != animalId)
      && db.animals == Without(old(db.animals), i)
  {
    if !HasPermission(actor.role.permissions, "delete_animals") {
      return Fail(NotAuthorized);
    }
    var found := FindAnimal(db.animals, animalId);
    if found.None? {
      return Fail(AnimalNotFound);
    }
    var i := found.value;
    LogAudit(db, DeletedAudit(db.animals[i], actor, now));
    db.links := KeepOthers(db.links, (l: AnimalEvent) => l.animalId != animalId);
    db.audits := KeepOthers(db.audits, (a: AnimalAudit) => a.animalId != animalId);
    db.healthLogs := KeepOthers(db.healthLogs, (h: HealthLog) => h.animalId != animalId);
    db.animals := Without(db.animals, i);
    out := Pass;
  }

  /** After the cascade no link, audit row or health log refers to the
      deleted animal and every row about another animal is still there;
      the audit row written first is removed with the rest. */
  lemma CascadeLeavesNoReference(t: Tables, id: int, auditRow: AnimalAudit)
    requires auditRow.animalId == id
    ensures Filter(t.audits + [auditRow], (a: AnimalAudit) => a.animalId != id) == Filter(t.audits, (a: AnimalAudit) => a.animalId != id)
    ensures forall l :: l in Filter(t.links, (l: AnimalEvent) => l.animalId != id) <==> l in t.links && l.animalId != id
    ensures forall a :: a in Filter(t.audits, (a: AnimalAudit) => a.animalId != id) <==> a in t.audits && a.animalId != id
    ensures forall h :: h in Filter(t.healthLogs, (h: HealthLog) => h.animalId != id) <==> h in t.healthLogs && h.animalId != id
  {
    FilterSnoc(t.audits, auditRow, (a: AnimalAudit) => a.animalId != id);
  }

  /** With unique ids, removing the animal's row leaves every other animal
      and no row with its id. */
  lemma WithoutRemovesOnly(animals: seq<Animal>, i: nat)
    requires i < |animals| && Distinct(AnimalIds(animals))
    ensures forall a :: a in Without(animals, i) <==> a in animals && a.id != animals[i].id
  {
    var w := Without(animals, i);
    var ids := AnimalIds(animals);
    forall a ensures a in w <==> a in animals && a.id != animals[i].id {
      if a in w {
        var k :| 0 <= k < |w| && w[k] == a;
        var j := if k < i then k else k + 1;
        assert animals[j] == a;
        assert ids[j] != ids[i];
      }
      if a in animals && a.id != animals[i].id {
        var j :| 0 <= j < |animals| && animals[j] == a;
        if j < i {
          assert w[j] == a;
        } else {
          assert w[j - 1] == a;
        }
      }
    }
  }

  // ---------------------------------------------------------------------
  // Updating an animal (update_animal)
  // ---------------------------------------------------------------------

  /** `update_animal`: one audit row per changed field, then every field
      of the row takes the body's value. */
  method UpdateAnimal(db: Store, actor: Actor, animalId: int, body: AnimalIn, now: Instant) returns (out: Outcome)
    modifies db`animals, db`audits
    ensures !HasPermission(actor.role.permissions, "update_animals") ==> out == Fail(NotAuthorized) && unchanged(db)
    ensures HasPermission(actor.role.permissions, "update_animals") && FindAnimal(old(db.animals), animalId).None? ==>
      out == Fail(AnimalNotFound) && unchanged(db)
    ensures out.Pass? <==> HasPermission(actor.role.permissions, "update_animals") && FindAnimal(old(db.animals), animalId).Some?
    ensures out.Pass? ==>
      var i := FindAnimal(old(db.animals), animalId).value;
      var animal := old(db.animals)[i];
      && db.audits == old(db.audits) + FieldAudits(animal, body, actor, ChangedFields(animal.info, body), now)
      && db.animals == old(db.animals)[i := Animal(animal.id, body)]
  {
    if !HasPermission(actor.role.permissions, "update_animals") {
      return Fail(NotAuthorized);
    }
    var found := FindAnimal(db.animals, animalId);
    if found.None? {
      return Fail(AnimalNotFound);
    }
    var i := found.value;
    var animal := db.animals[i];
    LogFieldsUpdate(db, animal, body, actor, now);
    db.animals := db.animals[i := Animal(animal.id, body)];
    out := Pass;
  }

  // ---------------------------------------------------------------------
  // Editing a health log (update_animal_health_log)
  // ---------------------------------------------------------------------

  /** Position of the first health log with this id. */
  function FindLog(logs: seq<HealthLog>, id: int): (r: Option<nat>)
    ensures r.Some? ==> r.value < |logs| && logs[r.value].id == id
    ensures r.None? <==> forall k :: 0 <= k < |logs| ==> logs[k].id != id
  {
    FirstIndex(logs, LogId, id)
  }

  function LogId(h: HealthLog): int {
    h.id
  }

  /** The checks of `update_animal_health_log`, in order; success gives the
      position of the log. The log is looked up by its id alone, whichever
      animal it belongs to. */
  function HealthLogCheck(actor: Actor, animalId: int, logId: int, t: Tables): (r: Result<nat>)
    ensures r.Ok? ==> r.value < |t.healthLogs| && t.healthLogs[r.value].id == logId
  {
    if !HasPermission(actor.role.permissions, "add_animal_health_log") then
      Err(Http(401, "Not Authorized to perform this action"))
    else if FindAnimal(t.animals, animalId).None? then Err(AnimalNotFound)
    else
      match FindLog(t.healthLogs, logId)
      case None => Err(Http(404, "Health log not found"))
      case Some(j) =>
        if t.healthLogs[j].loggedBy != actor.user.id then Err(NotAuthorized)
        else Ok(j)
  }

  /** Only the user who wrote a health log may edit it, and only with the
      permission to add health logs; a missing animal or log is a 404. */
  lemma OnlyLoggerEdits(actor: Actor, animalId: int, logId: int, t: Tables)
    ensures HealthLogCheck(actor, animalId, logId, t).Ok? <==>
      && HasPermission(actor.role.permissions, "add_animal_health_log")
      && FindAnimal(t.animals, animalId).Some?
      && FindLog(t.healthLogs, logId).Some?
      && t.healthLogs[FindLog(t.healthLogs, logId).value].loggedBy == actor.user.id
    ensures (HasPermission(actor.role.permissions, "add_animal_health_log") && FindAnimal(t.animals, animalId).Some?
             && FindLog(t.healthLogs, logId).None?) ==> HealthLogCheck(actor, animalId, logId, t) == Err(Http(404, "Health log not found"))
    ensures HealthLogCheck(actor, animalId, logId, t).Ok? ==> HealthLogCheck(actor, animalId, logId, t).value == FindLog(t.healthLogs, logId).value
  {
  }

  function HealthLogAudit(animalId: int, actor: Actor, oldDetails: string, newDetails: string, now: Instant): AnimalAudit {
    AnimalAudit(animalId, Some("health_log"), Some(oldDetails), Some(newDetails),
                Some(ActorLabel(actor) + " updated a health log"), HealthLogUpdated, now, actor.user.id)
  }

  /** `update_animal_health_log`: the details are replaced and one audit
      row records the old and the new text. */
  method UpdateHealthLog(db: Store, actor: Actor, animalId: int, logId: int, details: string, now: Instant)
    returns (out: Outcome)
    modifies db`healthLogs, db`audits
    ensures HealthLogCheck(actor, animalId, logId, old(db.Snapshot())).Err? ==>
      out == Fail(HealthLogCheck(actor, animalId, logId, old(db.Snapshot())).failure) && unchanged(db)
    ensures out.Pass? <==> HealthLogCheck(actor, animalId, logId, old(db.Snapshot())).Ok?
    ensures out.Pass? ==>
      var j := HealthLogCheck(actor, animalId, logId, old(db.Snapshot())).value;
      && db.healthLogs == old(db.healthLogs)[j := old(db.healthLogs)[j].(details := details)]
      && db.audits == old(db.audits) + [HealthLogAudit(animalId, actor, old(db.healthLogs)[j].details, details, now)]
  {
    var check := HealthLogCheck(actor, animalId, logId, db.Snapshot());
    if check.Err? {
      return Fail(check.failure);
    }
    var j := check.value;
    var oldDetails := db.healthLogs[j].details;
    db.healthLogs := db.healthLogs[j := db.healthLogs[j].(details := details)];
    LogAudit(db, HealthLogAudit(animalId, actor, oldDetails, details, now));
    out := Pass;
  }
}
