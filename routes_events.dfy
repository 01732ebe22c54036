/** The event endpoints (backend/api/routes/events.py): creating and editing
    events, reassigning animals, and the check-out / check-in state machine
    on the animal links of an event. Every handler first runs all of its
    checks on the database as it finds it; a refusal leaves the database
    untouched, and only then are the rows written. */
module RoutesEvents {
  import opened Base
  import opened Models
  import opened Session
  import opened DbAnimals
  import opened DbPermissions
  import opened DbUsers
  import opened DbEvents

  const EventNotFound: Failure := Http(404, "Event not found")
  const EventTypeNotFound: Failure := Http(404, "Event type not found for this zoo")
  const LinksMissing: Failure := Http(404, "Some animals are not assigned to this event")

  // ---------------------------------------------------------------------
  // Lookups
  // ---------------------------------------------------------------------

  /** Position of the event with this primary key. */
  function FindEvent(events: seq<Event>, id: int): (r: Option<nat>)
    ensures r.Some? ==> r.value < |events| && events[r.value].id == id
    ensures r.None? <==> forall k :: 0 <= k < |events| ==> events[k].id != id
  {
    FirstIndex(events, EventId, id)
  }

  function EventId(e: Event): int {
    e.id
  }

  function EventName(t: Tables, eventId: int): string {
    match FindEvent(t.events, eventId)
    case None => ""
    case Some(i) => t.events[i].info.name
  }

  /** An event type with this id belongs to this zoo. */
  predicate EventTypeFound(t: Tables, eventTypeId: int, zooId: int) {
    exists i :: 0 <= i < |t.eventTypes| && t.eventTypes[i].id == eventTypeId && t.eventTypes[i].zooId == zooId
  }

  /** The name of the animal a link joins to (every link names a stored
      animal, so the empty name is never shown). */
  function AnimalName(animals: seq<Animal>, id: int): string {
    match FindAnimal(animals, id)
    case None => ""
    case Some(i) => animals[i].info.name
  }

  /** The animal rows joined to the links, in link order. */
  function LinkedAnimals(animals: seq<Animal>, links: seq<AnimalEvent>): (r: seq<Animal>)
    ensures forall a :: a in r ==> a in animals
    ensures forall i :: 0 <= i < |links| && FindAnimal(animals, links[i].animalId).Some? ==>
      animals[FindAnimal(animals, links[i].animalId).value] in r
  {
    if links == [] then []
    else
      var rest := LinkedAnimals(animals, links[1..]);
      assert forall i :: 1 <= i < |links| ==> links[i] == links[1..][i - 1];
      match FindAnimal(animals, links[0].animalId)
      case None => rest
      case Some(i) => [animals[i]] + rest
  }

  function LinkAnimalId(l: AnimalEvent): int {
    l.animalId
  }

  /** The pair an animal link stands for. */
  function LinkKey(l: AnimalEvent): (int, int) {
    (l.animalId, l.eventId)
  }

  /** At most one link per (animal, event) pair; every handler that inserts
      links keeps this. */
  predicate LinksUnique(links: seq<AnimalEvent>) {
    Distinct(Column(links, LinkKey))
  }

  /** The links of an event, in stored order. */
  function EventLinks(links: seq<AnimalEvent>, eventId: int): seq<AnimalEvent> {
    Filter(links, (l: AnimalEvent) => l.eventId == eventId)
  }

  /** The ids of the animals linked to an event. */
  function LinkedIds(links: seq<AnimalEvent>, eventId: int): seq<int> {
    Column(EventLinks(links, eventId), LinkAnimalId)
  }

  /** A link of the event for one of the listed animals. */
  predicate Selects(l: AnimalEvent, eventId: int, animalIds: seq<int>) {
    l.eventId == eventId && l.animalId in animalIds
  }

  /** The link has not been checked out yet. */
  predicate NotCheckedOut(l: AnimalEvent) {
    l.checkedOut.None?
  }

  /** The query `event_id == e AND animal_id IN ids`. */
  function Requested(links: seq<AnimalEvent>, eventId: int, animalIds: seq<int>): (r: seq<AnimalEvent>)
    ensures forall l :: l in r <==> l in links && Selects(l, eventId, animalIds)
  {
    var r := Filter(EventLinks(links, eventId), (l: AnimalEvent) => l.animalId in animalIds);
    assert forall l :: l in links && Selects(l, eventId, animalIds) ==> l in EventLinks(links, eventId) by {
      forall l | l in links && Selects(l, eventId, animalIds) ensures l in EventLinks(links, eventId) {
        var i :| 0 <= i < |links| && links[i] == l;
      }
    }
    assert forall l :: l in EventLinks(links, eventId) && l.animalId in animalIds ==> l in r by {
      forall l | l in EventLinks(links, eventId) && l.animalId in animalIds ensures l in r {
        var i :| 0 <= i < |EventLinks(links, eventId)| && EventLinks(links, eventId)[i] == l;
      }
    }
    r
  }

  /** A property holds of every selected link exactly when it holds of
      every requested row. */
  lemma RequestedAll(links: seq<AnimalEvent>, eventId: int, animalIds: seq<int>, p: AnimalEvent -> bool)
    ensures (forall i :: 0 <= i < |links| && Selects(links[i], eventId, animalIds) ==> p(links[i]))
        <==> (forall k :: 0 <= k < |Requested(links, eventId, animalIds)| ==> p(Requested(links, eventId, animalIds)[k]))
  {
    var r := Requested(links, eventId, animalIds);
    if forall i :: 0 <= i < |links| && Selects(links[i], eventId, animalIds) ==> p(links[i]) {
      forall k | 0 <= k < |r| ensures p(r[k]) {
        assert r[k] in r;
        var i :| 0 <= i < |links| && links[i] == r[k];
      }
    }
    if forall k :: 0 <= k < |r| ==> p(r[k]) {
      forall i | 0 <= i < |links| && Selects(links[i], eventId, animalIds) ensures p(links[i]) {
        assert links[i] in r;
      }
    }
  }

  /** With one link per (animal, event), the link count check of check-in
      and check-out passes exactly when the requested ids are pairwise
      different and every one of them is linked to the event. */
  lemma RequestedCountIff(links: seq<AnimalEvent>, eventId: int, animalIds: seq<int>)
    requires LinksUnique(links)
    ensures |Requested(links, eventId, animalIds)| == |animalIds|
        <==> Distinct(animalIds) && forall id :: id in animalIds ==> id in LinkedIds(links, eventId)
  {
    var s := EventLinks(links, eventId);
    DistinctFilter(links, LinkKey, (l: AnimalEvent) => l.eventId == eventId);
    forall i, j | 0 <= i < j < |s| ensures Column(s, LinkAnimalId)[i] != Column(s, LinkAnimalId)[j] {
      assert Column(s, LinkKey)[i] != Column(s, LinkKey)[j];
    }
    var present := Elems(LinkedIds(links, eventId));
    forall l | l in s ensures LinkAnimalId(l) in present {
      var i :| 0 <= i < |s| && s[i] == l;
      assert LinkedIds(links, eventId)[i] == l.animalId;
    }
    KeyedCountCheck(s, LinkAnimalId, (l: AnimalEvent) => l.animalId in animalIds, animalIds, present);
    if forall id :: id in animalIds ==> id in LinkedIds(links, eventId) {
      forall id | id in Elems(animalIds) ensures id in present {
        assert id in LinkedIds(links, eventId);
      }
    }
    if Elems(animalIds) <= present {
      forall id | id in animalIds ensures id in LinkedIds(links, eventId) {
        assert id in Elems(animalIds);
      }
    }
  }

  // ---------------------------------------------------------------------
  // The life cycle of a link
  // ---------------------------------------------------------------------

  /** What every handler keeps true of a link: it is checked in only after
      being checked out, each timestamp comes with the user who set it, and
      the duration is recorded exactly for a returned animal and equals
      the time spent out. */
  predicate Lifecycle(l: AnimalEvent) {
    && (l.checkedIn.Some? ==> l.checkedOut.Some?)
    && (l.userOutId.Some? <==> l.checkedOut.Some?)
    && (l.userInId.Some? <==> l.checkedIn.Some?)
    && (l.duration.Some? <==> l.checkedIn.Some?)
    && (l.duration.Some? ==> l.duration.value == l.checkedIn.value - l.checkedOut.value)
  }

  predicate AllLifecycle(links: seq<AnimalEvent>) {
    forall i :: 0 <= i < |links| ==> Lifecycle(links[i])
  }

  /** A lawful link is in exactly one of the three stages. */
  lemma StagesPartition(l: AnimalEvent)
    requires Lifecycle(l)
    ensures Assigned(l) || InTheField(l) || Returned(l)
    ensures !(Assigned(l) && InTheField(l)) && !(InTheField(l) && Returned(l)) && !(Assigned(l) && Returned(l))
  {
  }

  /** A link as check-in leaves it. */
  function CheckedInLink(l: AnimalEvent, userId: int, now: Instant): (r: AnimalEvent)
    requires InTheField(l)
    ensures Returned(r) && r.duration == Some(now - l.checkedOut.value)
    ensures r.animalId == l.animalId && r.eventId == l.eventId
  {
    l.(checkedIn := Some(now), userInId := Some(userId), duration := Some(now - l.checkedOut.value))
  }

  /** A link as check-out leaves it. */
  function CheckedOutLink(l: AnimalEvent, userId: int, now: Instant): (r: AnimalEvent)
    ensures r.checkedOut == Some(now) && r.userOutId == Some(userId)
    ensures r.animalId == l.animalId && r.eventId == l.eventId && r.checkedIn == l.checkedIn
  {
    l.(checkedOut := Some(now), userOutId := Some(userId))
  }

  /** Check-out takes an assigned link into the field and check-in brings
      a link in the field back; both keep the life-cycle rules. */
  lemma TransitionsKeepLifecycle(l: AnimalEvent, userId: int, now: Instant)
    requires Lifecycle(l)
    ensures Assigned(l) ==> InTheField(CheckedOutLink(l, userId, now)) && Lifecycle(CheckedOutLink(l, userId, now))
    ensures InTheField(l) ==> Returned(CheckedInLink(l, userId, now)) && Lifecycle(CheckedInLink(l, userId, now))
  {
  }

  // ---------------------------------------------------------------------
  // Audit batches
  // ---------------------------------------------------------------------

  /** The rows of `template` written for one animal. */
  function Stamp(template: seq<AnimalAudit>, animalId: int): (r: seq<AnimalAudit>)
    ensures |r| == |template|
    ensures forall j :: 0 <= j < |template| ==> r[j] == template[j].(animalId := animalId)
  {
    seq(|template|, j requires 0 <= j < |template| => template[j].(animalId := animalId))
  }

  /** The rows of `template` written for each listed animal in turn. */
  function Batch(animalIds: seq<int>, template: seq<AnimalAudit>): (r: seq<AnimalAudit>)
    ensures |r| == |animalIds| * |template|
  {
    if animalIds == [] then []
    else
      var n := |animalIds|;
      var prev := Batch(animalIds[..n - 1], template);
      assert (n - 1) * |template| + |template| == n * |template|;
      prev + Stamp(template, animalIds[n - 1])
  }

  lemma BatchSnoc(animalIds: seq<int>, id: int, template: seq<AnimalAudit>)
    ensures Batch(animalIds + [id], template) == Batch(animalIds, template) + Stamp(template, id)
  {
    assert (animalIds + [id])[..|animalIds|] == animalIds;
  }

  /** Stamping changes only the animal a row is about. */
  lemma StampKeepsRows(template: seq<AnimalAudit>, animalId: int)
    ensures forall j :: 0 <= j < |template| ==>
      var a := Stamp(template, animalId)[j];
      && a.animalId == animalId && a.action == template[j].action && a.changedBy == template[j].changedBy
      && a.changedField == template[j].changedField && a.oldValue == template[j].oldValue && a.newValue == template[j].newValue
  {
  }

  predicate About(a: AnimalAudit, animalId: int) {
    a.animalId == animalId
  }

  /** Of one animal's rows, a filter on the animal keeps all or none. */
  lemma StampFilter(template: seq<AnimalAudit>, x: int, id: int, p: AnimalAudit -> bool)
    requires forall a :: p(a) <==> About(a, id)
    ensures Filter(Stamp(template, x), p) == (if x == id then Stamp(template, x) else [])
  {
    if x == id {
      FilterAll(Stamp(template, x), p);
    } else {
      FilterNone(Stamp(template, x), p);
    }
  }

  /** With pairwise different ids, the batch holds for each listed animal
      exactly the template's rows, in template order, and nothing for any
      other animal. */
  lemma {:induction false} BatchPerAnimal(animalIds: seq<int>, template: seq<AnimalAudit>, id: int, p: AnimalAudit -> bool)
    requires Distinct(animalIds)
    requires forall a :: p(a) <==> About(a, id)
    ensures Filter(Batch(animalIds, template), p) == (if id in animalIds then Stamp(template, id) else [])
  {
    if animalIds != [] {
      var n := |animalIds|;
      var init := animalIds[..n - 1];
      var last := animalIds[n - 1];
      assert animalIds == init + [last];
      assert Distinct(init);
      BatchPerAnimal(init, template, id, p);
      FilterConcat(Batch(init, template), Stamp(template, last), p);
      StampFilter(template, last, id, p);
      if last == id {
        forall k | 0 <= k < |init| ensures init[k] != id {
          assert animalIds[k] != animalIds[n - 1];
        }
      }
    }
  }

  /** `log_audit` once per listed animal and template row, in that order. */
  method LogBatch(db: Store, animalIds: seq<int>, template: seq<AnimalAudit>)
    modifies db`audits
    ensures db.audits == old(db.audits) + Batch(animalIds, template)
  {
    for i := 0 to |animalIds|
      invariant db.audits == old(db.audits) + Batch(animalIds[..i], template)
    {
      for j := 0 to |template|
        invariant db.audits == old(db.audits) + Batch(animalIds[..i], template) + Stamp(template, animalIds[i])[..j]
      {
        assert Stamp(template, animalIds[i])[..j + 1] == Stamp(template, animalIds[i])[..j] + [template[j].(animalId := animalIds[i])];
        LogAudit(db, template[j].(animalId := animalIds[i]));
      }
      assert animalIds[..i + 1] == animalIds[..i] + [animalIds[i]];
      BatchSnoc(animalIds[..i], animalIds[i], template);
    }
    assert animalIds[..|animalIds|] == animalIds;
  }

  /** An audit row about no animal yet (`Stamp` fills the animal in). */
  function Note(actor: Actor, action: AuditAction, field: Option<string>, oldValue: Option<string>,
                newValue: Option<string>, description: string, now: Instant): AnimalAudit {
    AnimalAudit(0, field, oldValue, newValue, Some(description), action, now, actor.user.id)
  }

  function AddedNote(actor: Actor, eventName: string, now: Instant): AnimalAudit {
    Note(actor, EventParticipationAdded, None, None, None,
         ActorLabel(actor) + " added animal to event '" + eventName + "'", now)
  }

  function RemovedNote(actor: Actor, eventName: string, now: Instant): AnimalAudit {
    Note(actor, EventParticipationRemoved, None, None, None,
         ActorLabel(actor) + " removed animal from event '" + eventName + "'", now)
  }

  function CheckedOutNote(actor: Actor, eventName: string, now: Instant): AnimalAudit {
    Note(actor, CheckedOutAction, None, None, None,
         ActorLabel(actor) + " checked out animal to event '" + eventName + "'", now)
  }

  /** The three rows a check-in writes per animal. */
  function CheckinTemplate(actor: Actor, eventName: string, now: Instant): (r: seq<AnimalAudit>)
    ensures |r| == 3
    ensures r[0].action == CheckedInAction && r[1].action == AnimalStatusChanged && r[2].action == RestTimeStarted
    ensures r[1].changedField == Some("status") && r[1].oldValue == Some(CheckedOutLabel) && r[1].newValue == Some(CheckedInLabel)
    ensures forall j :: 0 <= j < 3 ==> r[j].changedBy == actor.user.id
  {
    var d := ActorLabel(actor) + " checked in animal to event '" + eventName + "'";
    [Note(actor, CheckedInAction, None, None, None, d, now),
     Note(actor, AnimalStatusChanged, Some("status"), Some(CheckedOutLabel), Some(CheckedInLabel), d, now),
     Note(actor, RestTimeStarted, None, None, None, "Rest time started", now)]
  }

  /** The two rows a check-out writes per animal. */
  function CheckoutTemplate(actor: Actor, eventName: string, now: Instant): (r: seq<AnimalAudit>)
    ensures |r| == 2
    ensures r[0].action == CheckedOutAction && r[1].action == AnimalStatusChanged
    ensures r[1].changedField == Some("status") && r[1].oldValue == Some(CheckedInLabel) && r[1].newValue == Some(CheckedOutLabel)
    ensures forall j :: 0 <= j < 2 ==> r[j].changedBy == actor.user.id
  {
    var d := ActorLabel(actor) + " checked out animal to event '" + eventName + "'";
    [Note(actor, CheckedOutAction, None, None, None, d, now),
     Note(actor, AnimalStatusChanged, Some("status"), Some(CheckedInLabel), Some(CheckedOutLabel), d, now)]
  }

  // ---------------------------------------------------------------------
  // Check-in (checkin_animal)
  // ---------------------------------------------------------------------

  /** The first requested link already checked in, or never checked out. */
  function CheckinLinkError(animals: seq<Animal>, links: seq<AnimalEvent>): (r: Option<Failure>)
    ensures r.None? <==> forall i :: 0 <= i < |links| ==> InTheField(links[i])
    ensures r.Some? ==> r.value.Http? && r.value.code == 400
  {
    if links == [] then None
    else if links[0].checkedIn.Some? then
      Some(Http(400, "Animal " + AnimalName(animals, links[0].animalId) + " is already checked in"))
    else if links[0].checkedOut.None? then
      Some(Http(400, "Animal " + AnimalName(animals, links[0].animalId) + " is not checked out for this event"))
    else
      assert forall i :: 1 <= i < |links| ==> links[i] == links[1..][i - 1];
      CheckinLinkError(animals, links[1..])
  }

  /** Every check of `checkin_animal`, in the order it makes them. */
  function CheckinCheck(actor: Actor, eventId: int, animalIds: seq<int>, t: Tables): (r: Outcome)
    ensures r.Pass? ==> forall i :: 0 <= i < |t.links| && Selects(t.links[i], eventId, animalIds) ==> InTheField(t.links[i])
  {
    match ValidateCheckInOut(actor, eventId, t)
    case Err(f) => Fail(f)
    case Ok(_) =>
      if FindEvent(t.events, eventId).None? then Fail(EventNotFound)
      else
        var links := Requested(t.links, eventId, animalIds);
        if |links| != |animalIds| then Fail(LinksMissing)
        else
          match CheckinLinkError(t.animals, links)
          case Some(f) => Fail(f)
          case None =>
            assert forall l :: l in links ==> InTheField(l);
            ValidateTiers(LinkedAnimals(t.animals, links), actor.user)
  }

  /** A caller who may not handle the event, an unknown event, an animal
      without a link to the event, a link not in the field and an animal
      above the caller's tier each refuse the check-in; nothing else does. */
  lemma CheckinCheckIff(actor: Actor, eventId: int, animalIds: seq<int>, t: Tables)
    requires LinksUnique(t.links)
    ensures CheckinCheck(actor, eventId, animalIds, t).Pass? <==>
      && MayHandle(actor, eventId, t)
      && FindEvent(t.events, eventId).Some?
      && Distinct(animalIds)
      && (forall id :: id in animalIds ==> id in LinkedIds(t.links, eventId))
      && (forall i :: 0 <= i < |t.links| && Selects(t.links[i], eventId, animalIds) ==> InTheField(t.links[i]))
      && ValidateTiers(LinkedAnimals(t.animals, Requested(t.links, eventId, animalIds)), actor.user).Pass?
  {
    ValidateCheckInOutIff(actor, eventId, t);
    RequestedCountIff(t.links, eventId, animalIds);
    RequestedAll(t.links, eventId, animalIds, InTheField);
  }

  /** The links after a check-in: every requested link is checked in. */
  function CheckinLinks(links: seq<AnimalEvent>, eventId: int, animalIds: seq<int>, userId: int, now: Instant): (r: seq<AnimalEvent>)
    requires forall i :: 0 <= i < |links| && Selects(links[i], eventId, animalIds) ==> InTheField(links[i])
    ensures |r| == |links|
  {
    seq(|links|, i requires 0 <= i < |links| =>
      if Selects(links[i], eventId, animalIds) then CheckedInLink(links[i], userId, now) else links[i])
  }

  /** Check-in returns every requested link, stamping the time, the caller
      and the time spent out; every other link is left as it was, and the
      life-cycle rules still hold. */
  lemma CheckinLinksEffect(links: seq<AnimalEvent>, eventId: int, animalIds: seq<int>, userId: int, now: Instant)
    requires forall i :: 0 <= i < |links| && Selects(links[i], eventId, animalIds) ==> InTheField(links[i])
    ensures forall i :: 0 <= i < |links| && Selects(links[i], eventId, animalIds) ==>
      var l := CheckinLinks(links, eventId, animalIds, userId, now)[i];
      && Returned(l) && l.checkedIn == Some(now) && l.userInId == Some(userId)
      && l.duration == Some(now - links[i].checkedOut.value)
      && l.checkedOut == links[i].checkedOut && l.userOutId == links[i].userOutId
    ensures forall i :: 0 <= i < |links| && !Selects(links[i], eventId, animalIds) ==>
      CheckinLinks(links, eventId, animalIds, userId, now)[i] == links[i]
    ensures AllLifecycle(links) ==> AllLifecycle(CheckinLinks(links, eventId, animalIds, userId, now))
  {
    if AllLifecycle(links) {
      forall i | 0 <= i < |links| ensures Lifecycle(CheckinLinks(links, eventId, animalIds, userId, now)[i]) {
        if Selects(links[i], eventId, animalIds) {
          TransitionsKeepLifecycle(links[i], userId, now);
        }
      }
    }
  }

  /** The loop of `checkin_animal` over the requested links. */
  method CheckInLinks(db: Store, eventId: int, animalIds: seq<int>, userId: int, now: Instant)
    requires forall i :: 0 <= i < |db.links| && Selects(db.links[i], eventId, animalIds) ==> InTheField(db.links[i])
    modifies db`links
    ensures db.links == CheckinLinks(old(db.links), eventId, animalIds, userId, now)
  {
    for i := 0 to |db.links|
      invariant |db.links| == |old(db.links)|
      invariant forall k :: 0 <= k < i ==> db.links[k] == CheckinLinks(old(db.links), eventId, animalIds, userId, now)[k]
      invariant forall k :: i <= k < |db.links| ==> db.links[k] == old(db.links)[k]
    {
      if Selects(db.links[i], eventId, animalIds) {
        db.links := db.links[i := CheckedInLink(db.links[i], userId, now)];
      }
    }
  }

  /** `checkin_animal`. */
  method CheckinAnimals(db: Store, actor: Actor, eventId: int, animalIds: seq<int>, now: Instant)
    returns (out: Outcome)
    modifies db`links, db`animals, db`audits
    ensures out == CheckinCheck(actor, eventId, animalIds, old(db.Snapshot()))
    ensures out.Fail? ==> unchanged(db)
    ensures out.Pass? ==>
      && db.links == CheckinLinks(old(db.links), eventId, animalIds, actor.user.id, now)
      && db.animals == SetStatus(old(db.animals), animalIds, CheckedInLabel, now)
      && db.audits == old(db.audits)
           + Batch(animalIds, CheckinTemplate(actor, EventName(old(db.Snapshot()), eventId), now))
  {
    out := CheckinCheck(actor, eventId, animalIds, db.Snapshot());
    if out.Fail? {
      return;
    }
    ApplyCheckin(db, actor, eventId, animalIds, EventName(db.Snapshot(), eventId), now);
  }

  /** The writes of `checkin_animal`, once every check passed. */
  method ApplyCheckin(db: Store, actor: Actor, eventId: int, animalIds: seq<int>, eventName: string, now: Instant)
    requires forall i :: 0 <= i < |db.links| && Selects(db.links[i], eventId, animalIds) ==> InTheField(db.links[i])
    modifies db`links, db`animals, db`audits
    ensures db.links == CheckinLinks(old(db.links), eventId, animalIds, actor.user.id, now)
    ensures db.animals == SetStatus(old(db.animals), animalIds, CheckedInLabel, now)
    ensures db.audits == old(db.audits) + Batch(animalIds, CheckinTemplate(actor, eventName, now))
  {
    CheckInLinks(db, eventId, animalIds, actor.user.id, now);
    UpdateAnimalsStatus(animalIds, CheckedInLabel, db, now);
    LogBatch(db, animalIds, CheckinTemplate(actor, eventName, now));
  }

  // ---------------------------------------------------------------------
  // Check-out (checkout_animal)
  // ---------------------------------------------------------------------

  /** The first requested link already checked out. */
  function CheckoutLinkError(animals: seq<Animal>, links: seq<AnimalEvent>): (r: Option<Failure>)
    ensures r.None? <==> forall i :: 0 <= i < |links| ==> NotCheckedOut(links[i])
    ensures r.Some? ==> r.value.Http? && r.value.code == 400
  {
    if links == [] then None
    else if links[0].checkedOut.Some? then
      Some(Http(400, "Animal " + AnimalName(animals, links[0].animalId) + " is already checked out"))
    else
      assert forall i :: 1 <= i < |links| ==> links[i] == links[1..][i - 1];
      CheckoutLinkError(animals, links[1..])
  }

  /** Every check of `checkout_animal`, in the order it makes them. The
      clash check is not repeated. */
  function CheckoutCheck(actor: Actor, eventId: int, animalIds: seq<int>, t: Tables,
                         isToday: Instant -> bool, now: Instant): (r: Outcome)
    ensures r.Pass? ==> forall i :: 0 <= i < |t.links| && Selects(t.links[i], eventId, animalIds) ==> t.links[i].checkedOut.None?
  {
    match ValidateCheckInOut(actor, eventId, t)
    case Err(f) => Fail(f)
    case Ok(_) =>
      if FindEvent(t.events, eventId).None? then Fail(EventNotFound)
      else
        match ValidateAvailability(animalIds, t, isToday, now)
        case Fail(f) => Fail(f)
        case Pass =>
          var links := Requested(t.links, eventId, animalIds);
          if |links| != |animalIds| then Fail(LinksMissing)
          else
            match CheckoutLinkError(t.animals, links)
            case Some(f) => Fail(f)
            case None =>
              assert forall l :: l in links ==> NotCheckedOut(l);
              ValidateTiers(LinkedAnimals(t.animals, links), actor.user)
  }

  /** A check-out is refused exactly when the caller may not handle the
      event, the event is unknown, a requested animal is not available
      now, a requested animal has no link to the event, a link was already
      checked out, or an animal is above the caller's tier. */
  lemma CheckoutCheckIff(actor: Actor, eventId: int, animalIds: seq<int>, t: Tables,
                         isToday: Instant -> bool, now: Instant)
    requires LinksUnique(t.links)
    ensures CheckoutCheck(actor, eventId, animalIds, t, isToday, now).Pass? <==>
      && MayHandle(actor, eventId, t)
      && FindEvent(t.events, eventId).Some?
      && (forall k :: 0 <= k < |t.animals| && t.animals[k].id in animalIds ==> AvailableNow(t.animals[k], t.links, isToday, now))
      && Distinct(animalIds)
      && (forall id :: id in animalIds ==> id in LinkedIds(t.links, eventId))
      && (forall i :: 0 <= i < |t.links| && Selects(t.links[i], eventId, animalIds) ==> t.links[i].checkedOut.None?)
      && ValidateTiers(LinkedAnimals(t.animals, Requested(t.links, eventId, animalIds)), actor.user).Pass?
  {
    ValidateCheckInOutIff(actor, eventId, t);
    ValidateAvailabilityIff(animalIds, t, isToday, now);
    if MayHandle(actor, eventId, t) && FindEvent(t.events, eventId).Some?
       && ValidateAvailability(animalIds, t, isToday, now).Pass? {
      RequestedCountIff(t.links, eventId, animalIds);
      RequestedAll(t.links, eventId, animalIds, NotCheckedOut);
    }
  }

  /** The links after a check-out: every requested link is checked out. */
  function CheckoutLinks(links: seq<AnimalEvent>, eventId: int, animalIds: seq<int>, userId: int, now: Instant): (r: seq<AnimalEvent>)
    ensures |r| == |links|
  {
    seq(|links|, i requires 0 <= i < |links| =>
      if Selects(links[i], eventId, animalIds) then CheckedOutLink(links[i], userId, now) else links[i])
  }

  /** Check-out takes every requested assigned link into the field, stamped
      with the time and the caller; no other link changes, and the
      life-cycle rules still hold. */
  lemma CheckoutLinksEffect(links: seq<AnimalEvent>, eventId: int, animalIds: seq<int>, userId: int, now: Instant)
    requires forall i :: 0 <= i < |links| && Selects(links[i], eventId, animalIds) ==> links[i].checkedOut.None?
    requires AllLifecycle(links)
    ensures forall i :: 0 <= i < |links| && Selects(links[i], eventId, animalIds) ==>
      var l := CheckoutLinks(links, eventId, animalIds, userId, now)[i];
      Assigned(links[i]) && InTheField(l) && l.checkedOut == Some(now) && l.userOutId == Some(userId)
    ensures forall i :: 0 <= i < |links| && !Selects(links[i], eventId, animalIds) ==>
      CheckoutLinks(links, eventId, animalIds, userId, now)[i] == links[i]
    ensures AllLifecycle(CheckoutLinks(links, eventId, animalIds, userId, now))
  {
    forall i | 0 <= i < |links| ensures Lifecycle(CheckoutLinks(links, eventId, animalIds, userId, now)[i]) {
      if Selects(links[i], eventId, animalIds) {
        TransitionsKeepLifecycle(links[i], userId, now);
      }
    }
  }

  /** The loop of `checkout_animal` over the requested links. */
  method CheckOutLinks(db: Store, eventId: int, animalIds: seq<int>, userId: int, now: Instant)
    modifies db`links
    ensures db.links == CheckoutLinks(old(db.links), eventId, animalIds, userId, now)
  {
    for i := 0 to |db.links|
      invariant |db.links| == |old(db.links)|
      invariant forall k :: 0 <= k < i ==> db.links[k] == CheckoutLinks(old(db.links), eventId, animalIds, userId, now)[k]
      invariant forall k :: i <= k < |db.links| ==> db.links[k] == old(db.links)[k]
    {
      if Selects(db.links[i], eventId, animalIds) {
        db.links := db.links[i := CheckedOutLink(db.links[i], userId, now)];
      }
    }
  }

  /** `checkout_animal`. */
  method CheckoutAnimals(db: Store, actor: Actor, eventId: int, animalIds: seq<int>,
                         isToday: Instant -> bool, now: Instant)
    returns (out: Outcome)
    modifies db`links, db`animals, db`audits
    ensures out == CheckoutCheck(actor, eventId, animalIds, old(db.Snapshot()), isToday, now)
    ensures out.Fail? ==> unchanged(db)
    ensures out.Pass? ==>
      && db.links == CheckoutLinks(old(db.links), eventId, animalIds, actor.user.id, now)
      && db.animals == SetStatus(old(db.animals), animalIds, CheckedOutLabel, now)
      && db.audits == old(db.audits)
           + Batch(animalIds, CheckoutTemplate(actor, EventName(old(db.Snapshot()), eventId), now))
  {
    out := CheckoutCheck(actor, eventId, animalIds, db.Snapshot(), isToday, now);
    if out.Fail? {
      return;
    }
    ApplyCheckout(db, actor, eventId, animalIds, EventName(db.Snapshot(), eventId), now);
  }

  /** The writes of `checkout_animal`, once every check passed. */
  method ApplyCheckout(db: Store, actor: Actor, eventId: int, animalIds: seq<int>, eventName: string, now: Instant)
    modifies db`links, db`animals, db`audits
    ensures db.links == CheckoutLinks(old(db.links), eventId, animalIds, actor.user.id, now)
    ensures db.animals == SetStatus(old(db.animals), animalIds, CheckedOutLabel, now)
    ensures db.audits == old(db.audits) + Batch(animalIds, CheckoutTemplate(actor, eventName, now))
  {
    CheckOutLinks(db, eventId, animalIds, actor.user.id, now);
    UpdateAnimalsStatus(animalIds, CheckedOutLabel, db, now);
    LogBatch(db, animalIds, CheckoutTemplate(actor, eventName, now));
  }

  /** Exact audit rows of a check-in: with pairwise different ids (which
      the link count check demands), each animal gets exactly three rows
      (checked in, status changed from checked out to checked in, rest time
      started), all written by the caller. */
  lemma CheckinAuditsPerAnimal(actor: Actor, eventName: string, now: Instant, animalIds: seq<int>, id: int)
    requires Distinct(animalIds) && id in animalIds
    ensures var r := Filter(Batch(animalIds, CheckinTemplate(actor, eventName, now)), (a: AnimalAudit) => About(a, id));
      && |r| == 3 && r[0].action == CheckedInAction && r[1].action == AnimalStatusChanged && r[2].action == RestTimeStarted
      && r[1].oldValue == Some(CheckedOutLabel) && r[1].newValue == Some(CheckedInLabel)
      && forall j :: 0 <= j < 3 ==> r[j].animalId == id && r[j].changedBy == actor.user.id
  {
    var template := CheckinTemplate(actor, eventName, now);
    BatchPerAnimal(animalIds, template, id, (a: AnimalAudit) => About(a, id));
    StampKeepsRows(template, id);
  }

  /** Exact audit rows of a check-out: each animal gets exactly two rows
      (checked out, status changed from checked in to checked out), all
      written by the caller. */
  lemma CheckoutAuditsPerAnimal(actor: Actor, eventName: string, now: Instant, animalIds: seq<int>, id: int)
    requires Distinct(animalIds) && id in animalIds
    ensures var r := Filter(Batch(animalIds, CheckoutTemplate(actor, eventName, now)), (a: AnimalAudit) => About(a, id));
      && |r| == 2 && r[0].action == CheckedOutAction && r[1].action == AnimalStatusChanged
      && r[1].oldValue == Some(CheckedInLabel) && r[1].newValue == Some(CheckedOutLabel)
      && forall j :: 0 <= j < 2 ==> r[j].animalId == id && r[j].changedBy == actor.user.id
  {
    var template := CheckoutTemplate(actor, eventName, now);
    BatchPerAnimal(animalIds, template, id, (a: AnimalAudit) => About(a, id));
    StampKeepsRows(template, id);
  }

  // ---------------------------------------------------------------------
  // Keeping the links lawful
  // ---------------------------------------------------------------------

  /** The links no two of which share an (animal, event) pair, all lawful. */
  predicate LinksLawful(links: seq<AnimalEvent>) {
    LinksUnique(links) && AllLifecycle(links)
  }

  /** Appending links of one event for pairwise different animals not yet
      linked to it keeps one link per pair. */
  lemma LinksUniqueAppend(kept: seq<AnimalEvent>, added: seq<AnimalEvent>, eventId: int, animalIds: seq<int>)
    requires LinksUnique(kept)
    requires Distinct(animalIds) && |added| == |animalIds|
    requires forall k :: 0 <= k < |added| ==> added[k].eventId == eventId && added[k].animalId == animalIds[k]
    requires forall i :: 0 <= i < |kept| && kept[i].eventId == eventId ==> kept[i].animalId !in animalIds
    ensures LinksUnique(kept + added)
  {
    var s := kept + added;
    forall i, j | 0 <= i < j < |s| ensures LinkKey(s[i]) != LinkKey(s[j]) {
      if j < |kept| {
        assert Column(kept, LinkKey)[i] != Column(kept, LinkKey)[j];
      } else if i < |kept| {
        assert s[j] == added[j - |kept|];
        assert animalIds[j - |kept|] in animalIds;
      } else {
        assert animalIds[i - |kept|] != animalIds[j - |kept|];
      }
    }
  }

  /** Rows kept by a filter keep their keys apart. */
  lemma KeptUnique(links: seq<AnimalEvent>, p: AnimalEvent -> bool)
    requires LinksUnique(links)
    ensures LinksUnique(Filter(links, p))
  {
    DistinctFilter(links, LinkKey, p);
  }

  /** Rewriting timestamps in place keeps every link's pair. */
  lemma SameKeysUnique(links: seq<AnimalEvent>, r: seq<AnimalEvent>)
    requires LinksUnique(links) && |r| == |links|
    requires forall i :: 0 <= i < |links| ==> LinkKey(r[i]) == LinkKey(links[i])
    ensures LinksUnique(r)
  {
    forall i, j | 0 <= i < j < |r| ensures Column(r, LinkKey)[i] != Column(r, LinkKey)[j] {
      assert Column(links, LinkKey)[i] != Column(links, LinkKey)[j];
    }
  }

  /** A successful check-in or check-out keeps the links lawful. */
  lemma CheckInOutKeepLinksLawful(actor: Actor, eventId: int, animalIds: seq<int>, t: Tables,
                                  isToday: Instant -> bool, now: Instant)
    requires LinksLawful(t.links)
    ensures CheckinCheck(actor, eventId, animalIds, t).Pass? ==>
      LinksLawful(CheckinLinks(t.links, eventId, animalIds, actor.user.id, now))
    ensures CheckoutCheck(actor, eventId, animalIds, t, isToday, now).Pass? ==>
      LinksLawful(CheckoutLinks(t.links, eventId, animalIds, actor.user.id, now))
  {
    if CheckinCheck(actor, eventId, animalIds, t).Pass? {
      CheckinLinksEffect(t.links, eventId, animalIds, actor.user.id, now);
      SameKeysUnique(t.links, CheckinLinks(t.links, eventId, animalIds, actor.user.id, now));
    }
    if CheckoutCheck(actor, eventId, animalIds, t, isToday, now).Pass? {
      CheckoutLinksEffect(t.links, eventId, animalIds, actor.user.id, now);
      SameKeysUnique(t.links, CheckoutLinks(t.links, eventId, animalIds, actor.user.id, now));
    }
  }

  // ---------------------------------------------------------------------
  // Creating an event (create_event)
  // ---------------------------------------------------------------------

  /** The id the database gives a new event: above every stored id. */
  function NextEventId(events: seq<Event>): (r: int)
    ensures forall i :: 0 <= i < |events| ==> events[i].id < r
  {
    if events == [] then 1
    else
      var m := NextEventId(events[1..]);
      assert forall i :: 1 <= i < |events| ==> events[i] == events[1..][i - 1];
      if events[0].id >= m then events[0].id + 1 else m
  }

  /** The handler links an event is created or updated with. */
  function NewUserLinks(userIds: seq<int>, eventId: int, assignerId: int): (r: seq<UserEvent>)
    ensures |r| == |userIds|
    ensures forall k :: 0 <= k < |userIds| ==> r[k] == UserEvent(Some(userIds[k]), Some(eventId), Some(assignerId))
  {
    seq(|userIds|, k requires 0 <= k < |userIds| => UserEvent(Some(userIds[k]), Some(eventId), Some(assignerId)))
  }

  /** Fresh links of the listed animals to an event, all assigned. */
  function AssignedLinks(animalIds: seq<int>, eventId: int): (r: seq<AnimalEvent>)
    ensures |r| == |animalIds|
    ensures forall k :: 0 <= k < |animalIds| ==> r[k] == NewLink(animalIds[k], eventId)
  {
    seq(|animalIds|, k requires 0 <= k < |animalIds| => NewLink(animalIds[k], eventId))
  }

  /** The links `create_event` inserts: checked out at once by the caller
      when `checkout_immediately` is set, otherwise only assigned. */
  function CreatedLinks(animalIds: seq<int>, eventId: int, checkoutNow: bool, userId: int, now: Instant): (r: seq<AnimalEvent>)
    ensures |r| == |animalIds|
    ensures forall k :: 0 <= k < |animalIds| ==>
      r[k] == (if checkoutNow then CheckedOutLink(NewLink(animalIds[k], eventId), userId, now)
               else NewLink(animalIds[k], eventId))
  {
    seq(|animalIds|, k requires 0 <= k < |animalIds| =>
      if checkoutNow then CheckedOutLink(NewLink(animalIds[k], eventId), userId, now)
      else NewLink(animalIds[k], eventId))
  }

  /** Every check of `create_event`, in the order it makes them: the
      permission, the event type of the zoo, the users, the animals of the
      zoo, the clash check, and, for an immediate check-out, the tiers and
      the availability of the animals. */
  function CreateCheck(actor: Actor, body: EventCreate, t: Tables, isToday: Instant -> bool, now: Instant): (r: Outcome)
    ensures r.Pass? ==> ValidateAnimals(body.animalIds, t, Some(body.event.zooId)).Ok?
    ensures r.Pass? ==> ValidateEventClashes(body.animalIds, body.event.endAt, body.event.startAt, body.event.zooId, t, None).Pass?
    ensures r.Pass? && body.checkoutImmediately ==> ValidateAvailability(body.animalIds, t, isToday, now).Pass?
  {
    if !HasPermission(actor.role.permissions, "create_events") then Fail(NotAuthorized)
    else if !EventTypeFound(t, body.event.eventTypeId, body.event.zooId) then Fail(EventTypeNotFound)
    else if ValidateUsers(body.userIds, t).Err? then Fail(ValidateUsers(body.userIds, t).failure)
    else
      match ValidateAnimals(body.animalIds, t, Some(body.event.zooId))
      case Err(f) => Fail(f)
      case Ok(animals) =>
        match ValidateEventClashes(body.animalIds, body.event.endAt, body.event.startAt, body.event.zooId, t, None)
        case Fail(f) => Fail(f)
        case Pass =>
          if !body.checkoutImmediately then Pass
          else
            match ValidateTiers(animals, actor.user)
            case Fail(f) => Fail(f)
            case Pass => ValidateAvailability(body.animalIds, t, isToday, now)
  }

  /** The audit rows of `create_event`: one "added" row per animal, then
      one "checked out" row per animal for an immediate check-out. */
  function CreateAudits(actor: Actor, body: EventCreate, now: Instant): seq<AnimalAudit> {
    Batch(body.animalIds, [AddedNote(actor, body.event.name, now)])
      + (if body.checkoutImmediately then Batch(body.animalIds, [CheckedOutNote(actor, body.event.name, now)]) else [])
  }

  /** `create_event`. */
  method CreateEvent(db: Store, actor: Actor, body: EventCreate, isToday: Instant -> bool, now: Instant)
    returns (out: Outcome)
    modifies db`events, db`userLinks, db`links, db`animals, db`audits
    ensures out == CreateCheck(actor, body, old(db.Snapshot()), isToday, now)
    ensures out.Fail? ==> unchanged(db)
    ensures out.Pass? ==>
      var id := NextEventId(old(db.events));
      && db.events == old(db.events) + [Event(id, body.event)]
      && db.userLinks == old(db.userLinks) + NewUserLinks(body.userIds, id, actor.user.id)
      && db.links == old(db.links) + CreatedLinks(body.animalIds, id, body.checkoutImmediately, actor.user.id, now)
      && db.animals == (if body.checkoutImmediately then SetStatus(old(db.animals), body.animalIds, CheckedOutLabel, now)
                        else old(db.animals))
      && db.audits == old(db.audits) + CreateAudits(actor, body, now)
  {
    out := CreateCheck(actor, body, db.Snapshot(), isToday, now);
    if out.Fail? {
      return;
    }
    ApplyCreate(db, actor, body, now);
  }

  /** The writes of `create_event`, once every check passed. */
  method ApplyCreate(db: Store, actor: Actor, body: EventCreate, now: Instant)
    modifies db`events, db`userLinks, db`links, db`animals, db`audits
    ensures var id := NextEventId(old(db.events));
      && db.events == old(db.events) + [Event(id, body.event)]
      && db.userLinks == old(db.userLinks) + NewUserLinks(body.userIds, id, actor.user.id)
      && db.links == old(db.links) + CreatedLinks(body.animalIds, id, body.checkoutImmediately, actor.user.id, now)
      && db.animals == (if body.checkoutImmediately then SetStatus(old(db.animals), body.animalIds, CheckedOutLabel, now)
                        else old(db.animals))
      && db.audits == old(db.audits) + CreateAudits(actor, body, now)
  {
    var id := NextEventId(db.events);
    db.events := db.events + [Event(id, body.event)];
    AddUserLinks(db, body.userIds, id, actor.user.id);
    AddLinks(db, body.animalIds, id, body.checkoutImmediately, actor.user.id, now);
    if body.checkoutImmediately {
      UpdateAnimalsStatus(body.animalIds, CheckedOutLabel, db, now);
    }
    LogBatch(db, body.animalIds, [AddedNote(actor, body.event.name, now)]);
    if body.checkoutImmediately {
      LogBatch(db, body.animalIds, [CheckedOutNote(actor, body.event.name, now)]);
    }
  }

  /** The loop adding one handler link per listed user. */
  method AddUserLinks(db: Store, userIds: seq<int>, eventId: int, assignerId: int)
    modifies db`userLinks
    ensures db.userLinks == old(db.userLinks) + NewUserLinks(userIds, eventId, assignerId)
  {
    for i := 0 to |userIds|
      invariant db.userLinks == old(db.userLinks) + NewUserLinks(userIds[..i], eventId, assignerId)
    {
      assert NewUserLinks(userIds[..i + 1], eventId, assignerId)
          == NewUserLinks(userIds[..i], eventId, assignerId) + [UserEvent(Some(userIds[i]), Some(eventId), Some(assignerId))];
      db.userLinks := db.userLinks + [UserEvent(Some(userIds[i]), Some(eventId), Some(assignerId))];
    }
    assert userIds[..|userIds|] == userIds;
  }

  /** The loop adding one link per listed animal, checked out by the
      caller at once when `checkoutNow` is set. */
  method AddLinks(db: Store, animalIds: seq<int>, eventId: int, checkoutNow: bool, userId: int, now: Instant)
    modifies db`links
    ensures db.links == old(db.links) + CreatedLinks(animalIds, eventId, checkoutNow, userId, now)
  {
    assert CreatedLinks(animalIds[..0], eventId, checkoutNow, userId, now) == [];
    for i := 0 to |animalIds|
      invariant db.links == old(db.links) + CreatedLinks(animalIds[..i], eventId, checkoutNow, userId, now)
    {
      var link := NewLink(animalIds[i], eventId);
      if checkoutNow {
        link := CheckedOutLink(link, userId, now);
      }
      assert CreatedLinks(animalIds[..i + 1], eventId, checkoutNow, userId, now)
          == CreatedLinks(animalIds[..i], eventId, checkoutNow, userId, now) + [link];
      db.links := db.links + [link];
    }
    assert animalIds[..|animalIds|] == animalIds;
  }

  /** Every link names a stored event. */
  predicate LinksReferToEvents(t: Tables) {
    forall i :: 0 <= i < |t.links| ==> exists j :: 0 <= j < |t.events| && t.events[j].id == t.links[i].eventId
  }

  /** A created event's links are lawful and, the animal ids being unique,
      keep one link per (animal, event) pair. */
  lemma CreateKeepsLinksLawful(actor: Actor, body: EventCreate, t: Tables, isToday: Instant -> bool, now: Instant)
    requires LinksLawful(t.links) && LinksReferToEvents(t)
    requires Distinct(AnimalIds(t.animals))
    requires CreateCheck(actor, body, t, isToday, now).Pass?
    ensures LinksLawful(t.links + CreatedLinks(body.animalIds, NextEventId(t.events), body.checkoutImmediately, actor.user.id, now))
  {
    var id := NextEventId(t.events);
    var added := CreatedLinks(body.animalIds, id, body.checkoutImmediately, actor.user.id, now);
    ValidateAnimalsIff(body.animalIds, t, Some(body.event.zooId));
    NoLinkToNewEvent(t);
    LinksUniqueAppend(t.links, added, id, body.animalIds);
    CreatedLinksLifecycle(body.animalIds, id, body.checkoutImmediately, actor.user.id, now);
    LifecycleAppend(t.links, added);
  }

  /** No stored link names the id a new event gets. */
  lemma NoLinkToNewEvent(t: Tables)
    requires LinksReferToEvents(t)
    ensures forall i :: 0 <= i < |t.links| ==> t.links[i].eventId != NextEventId(t.events)
  {
    forall i | 0 <= i < |t.links| ensures t.links[i].eventId != NextEventId(t.events) {
      var j :| 0 <= j < |t.events| && t.events[j].id == t.links[i].eventId;
    }
  }

  /** Created links are lawful, assigned or checked out alike. */
  lemma CreatedLinksLifecycle(animalIds: seq<int>, eventId: int, checkoutNow: bool, userId: int, now: Instant)
    ensures AllLifecycle(CreatedLinks(animalIds, eventId, checkoutNow, userId, now))
  {
    var r := CreatedLinks(animalIds, eventId, checkoutNow, userId, now);
    forall k | 0 <= k < |r| ensures Lifecycle(r[k]) {
      TransitionsKeepLifecycle(NewLink(animalIds[k], eventId), userId, now);
    }
  }

  lemma LifecycleAppend(s: seq<AnimalEvent>, u: seq<AnimalEvent>)
    requires AllLifecycle(s) && AllLifecycle(u)
    ensures AllLifecycle(s + u)
  {
    forall i | 0 <= i < |s + u| ensures Lifecycle((s + u)[i]) {
      if i >= |s| {
        assert (s + u)[i] == u[i - |s|];
      }
    }
  }

  // ---------------------------------------------------------------------
  // Editing an event (update_event)
  // ---------------------------------------------------------------------

  /** A stored link of the event whose animal the body no longer lists. */
  predicate DropsLink(l: AnimalEvent, eventId: int, animalIds: seq<int>) {
    l.eventId == eventId && l.animalId !in animalIds
  }

  function KeptLinks(links: seq<AnimalEvent>, eventId: int, animalIds: seq<int>): seq<AnimalEvent> {
    Filter(links, (l: AnimalEvent) => !DropsLink(l, eventId, animalIds))
  }

  function RemovedLinks(links: seq<AnimalEvent>, eventId: int, animalIds: seq<int>): seq<AnimalEvent> {
    Filter(links, (l: AnimalEvent) => DropsLink(l, eventId, animalIds))
  }

  function RemovedIds(links: seq<AnimalEvent>, eventId: int, animalIds: seq<int>): seq<int> {
    Column(RemovedLinks(links, eventId, animalIds), LinkAnimalId)
  }

  /** The listed animals not yet linked to the event, in list order. */
  function AddedIds(links: seq<AnimalEvent>, eventId: int, animalIds: seq<int>): seq<int> {
    Filter(animalIds, (id: int) => id !in LinkedIds(links, eventId))
  }

  /** The links after the animals of an event are replaced by the list:
      links of animals no longer listed are deleted, and listed animals
      not yet linked get a fresh link. */
  function RelinkedLinks(links: seq<AnimalEvent>, eventId: int, animalIds: seq<int>): seq<AnimalEvent> {
    KeptLinks(links, eventId, animalIds) + AssignedLinks(AddedIds(links, eventId, animalIds), eventId)
  }

  /** A handler link of the event whose user the body no longer lists; a
      link without a user is never listed. */
  predicate DropsUser(u: UserEvent, eventId: int, userIds: seq<int>) {
    u.eventId == Some(eventId) && !(u.userId.Some? && u.userId.value in userIds)
  }

  function UserLinkUserId(u: UserEvent): Option<int> {
    u.userId
  }

  function LinkedUserIds(userLinks: seq<UserEvent>, eventId: int): seq<Option<int>> {
    Column(Filter(userLinks, (u: UserEvent) => u.eventId == Some(eventId)), UserLinkUserId)
  }

  function RelinkedUsers(userLinks: seq<UserEvent>, eventId: int, userIds: seq<int>, assignerId: int): seq<UserEvent> {
    Filter(userLinks, (u: UserEvent) => !DropsUser(u, eventId, userIds))
      + NewUserLinks(Filter(userIds, (id: int) => Some(id) !in LinkedUserIds(userLinks, eventId)), eventId, assignerId)
  }

  /** The first link to be deleted that is already checked out. */
  function RemovalError(animals: seq<Animal>, links: seq<AnimalEvent>): (r: Option<Failure>)
    ensures r.None? <==> forall i :: 0 <= i < |links| ==> links[i].checkedOut.None?
    ensures r.Some? ==> r.value.Http? && r.value.code == 400
  {
    if links == [] then None
    else if links[0].checkedOut.Some? then
      Some(Http(400, AnimalName(animals, links[0].animalId) + " is already checked out, can't be removed"))
    else
      assert forall i :: 1 <= i < |links| ==> links[i] == links[1..][i - 1];
      RemovalError(animals, links[1..])
  }

  /** Every check of `update_event`, in the order it makes them. A started
      event keeps its start time, and an ended event cannot be edited. */
  function UpdateCheck(actor: Actor, eventId: int, body: EventCreate, t: Tables, now: Instant): (r: Outcome)
    ensures r.Pass? ==> FindEvent(t.events, eventId).Some?
    ensures r.Pass? ==> ValidateAnimals(body.animalIds, t, Some(body.event.zooId)).Ok?
    ensures r.Pass? ==> forall i :: 0 <= i < |t.links| && DropsLink(t.links[i], eventId, body.animalIds) ==>
      t.links[i].checkedOut.None?
  {
    if !HasPermission(actor.role.permissions, "update_events") then Fail(NotAuthorized)
    else
      match FindEvent(t.events, eventId)
      case None => Fail(EventNotFound)
      case Some(i) =>
        var e := t.events[i].info;
        if e.startAt < now && e.startAt != body.event.startAt then Fail(Http(400, "Event start time can't be changed"))
        else if e.endAt < now then Fail(Http(400, "Event is already ended"))
        else if !EventTypeFound(t, body.event.eventTypeId, body.event.zooId) then Fail(EventTypeNotFound)
        else if ValidateUsers(body.userIds, t).Err? then Fail(ValidateUsers(body.userIds, t).failure)
        else if ValidateAnimals(body.animalIds, t, Some(body.event.zooId)).Err? then
          Fail(ValidateAnimals(body.animalIds, t, Some(body.event.zooId)).failure)
        else
          match ValidateEventClashes(body.animalIds, body.event.endAt, body.event.startAt, body.event.zooId, t, Some(eventId))
          case Fail(f) => Fail(f)
          case Pass =>
            var removed := RemovedLinks(t.links, eventId, body.animalIds);
            match RemovalError(t.animals, removed)
            case Some(f) => Fail(f)
            case None =>
              assert forall i :: 0 <= i < |t.links| && DropsLink(t.links[i], eventId, body.animalIds) ==> t.links[i] in removed;
              Pass
  }

  /** The time rules of `update_event`: an ended event is refused, and a
      started one is refused when the body moves its start. */
  lemma UpdateTimeRules(actor: Actor, eventId: int, body: EventCreate, t: Tables, now: Instant)
    requires HasPermission(actor.role.permissions, "update_events")
    requires FindEvent(t.events, eventId).Some?
    ensures var e := t.events[FindEvent(t.events, eventId).value].info;
      && (e.startAt < now && e.startAt != body.event.startAt ==>
            UpdateCheck(actor, eventId, body, t, now) == Fail(Http(400, "Event start time can't be changed")))
      && (e.endAt < now && !(e.startAt < now && e.startAt != body.event.startAt) ==>
            UpdateCheck(actor, eventId, body, t, now) == Fail(Http(400, "Event is already ended")))
      && (UpdateCheck(actor, eventId, body, t, now).Pass? ==> e.endAt >= now && (e.startAt < now ==> e.startAt == body.event.startAt))
  {
  }

  /** The audit rows of an edit: one "removed" row per deleted link, then
      one "added" row per new link. */
  function RelinkAudits(removed: seq<int>, added: seq<int>, actor: Actor, eventName: string, now: Instant): seq<AnimalAudit> {
    Batch(removed, [RemovedNote(actor, eventName, now)]) + Batch(added, [AddedNote(actor, eventName, now)])
  }

  /** `update_event`. */
  method UpdateEvent(db: Store, actor: Actor, eventId: int, body: EventCreate, now: Instant)
    returns (out: Outcome)
    modifies db`events, db`userLinks, db`links, db`audits
    ensures out == UpdateCheck(actor, eventId, body, old(db.Snapshot()), now)
    ensures out.Fail? ==> unchanged(db)
    ensures out.Pass? ==>
      && db.events == old(db.events)[FindEvent(old(db.events), eventId).value := Event(eventId, body.event)]
      && db.userLinks == RelinkedUsers(old(db.userLinks), eventId, body.userIds, actor.user.id)
      && db.links == RelinkedLinks(old(db.links), eventId, body.animalIds)
      && db.audits == old(db.audits) + RelinkAudits(RemovedIds(old(db.links), eventId, body.animalIds),
                                                    AddedIds(old(db.links), eventId, body.animalIds),
                                                    actor, body.event.name, now)
  {
    out := UpdateCheck(actor, eventId, body, db.Snapshot(), now);
    if out.Fail? {
      return;
    }
    ApplyUpdate(db, actor, FindEvent(db.events, eventId).value, eventId, body, now);
  }

  /** The writes of `update_event`, once every check passed; `i` is the
      position of the event. */
  method ApplyUpdate(db: Store, actor: Actor, i: nat, eventId: int, body: EventCreate, now: Instant)
    requires i < |db.events|
    modifies db`events, db`userLinks, db`links, db`audits
    ensures db.events == old(db.events)[i := Event(eventId, body.event)]
    ensures db.userLinks == RelinkedUsers(old(db.userLinks), eventId, body.userIds, actor.user.id)
    ensures db.links == RelinkedLinks(old(db.links), eventId, body.animalIds)
    ensures db.audits == old(db.audits) + RelinkAudits(RemovedIds(old(db.links), eventId, body.animalIds),
                                                      AddedIds(old(db.links), eventId, body.animalIds),
                                                      actor, body.event.name, now)
  {
    db.events := db.events[i := Event(eventId, body.event)];
    db.userLinks := RelinkedUsers(db.userLinks, eventId, body.userIds, actor.user.id);
    RelinkLogged(db, actor, eventId, body.animalIds, body.event.name, now);
  }

  /** The animal links of an edit and their audit rows. */
  method RelinkLogged(db: Store, actor: Actor, eventId: int, animalIds: seq<int>, eventName: string, now: Instant)
    modifies db`links, db`audits
    ensures db.links == RelinkedLinks(old(db.links), eventId, animalIds)
    ensures db.audits == old(db.audits) + RelinkAudits(RemovedIds(old(db.links), eventId, animalIds),
                                                      AddedIds(old(db.links), eventId, animalIds),
                                                      actor, eventName, now)
  {
    var removed := RemovedIds(db.links, eventId, animalIds);
    var added := AddedIds(db.links, eventId, animalIds);
    Relink(db, eventId, animalIds);
    LogRelink(db, removed, added, actor, eventName, now);
  }

  /** The audit rows of an edit, removals first. */
  method LogRelink(db: Store, removed: seq<int>, added: seq<int>, actor: Actor, eventName: string, now: Instant)
    modifies db`audits
    ensures db.audits == old(db.audits) + RelinkAudits(removed, added, actor, eventName, now)
  {
    LogBatch(db, removed, [RemovedNote(actor, eventName, now)]);
    LogBatch(db, added, [AddedNote(actor, eventName, now)]);
  }

  /** The deletions and insertions on the animal links shared by
      `update_event` and `reassign_animals_to_event`. */
  method Relink(db: Store, eventId: int, animalIds: seq<int>)
    modifies db`links
    ensures db.links == RelinkedLinks(old(db.links), eventId, animalIds)
  {
    var links := db.links;
    var kept: seq<AnimalEvent> := [];
    for i := 0 to |links|
      invariant kept == KeptLinks(links[..i], eventId, animalIds)
    {
      FilterPrefixStep(links, i, (l: AnimalEvent) => !DropsLink(l, eventId, animalIds));
      if !DropsLink(links[i], eventId, animalIds) {
        kept := kept + [links[i]];
      }
    }
    assert links[..|links|] == links;
    var added := AddedIds(links, eventId, animalIds);
    for i := 0 to |added|
      invariant kept == KeptLinks(old(db.links), eventId, animalIds) + AssignedLinks(added[..i], eventId)
    {
      assert AssignedLinks(added[..i + 1], eventId) == AssignedLinks(added[..i], eventId) + [NewLink(added[i], eventId)];
      kept := kept + [NewLink(added[i], eventId)];
    }
    assert added[..|added|] == added;
    db.links := kept;
  }

  /** A link of the event after the replacement names a listed animal. */
  lemma RelinkedOnlyListed(links: seq<AnimalEvent>, eventId: int, animalIds: seq<int>, id: int)
    requires id in LinkedIds(RelinkedLinks(links, eventId, animalIds), eventId)
    ensures id in animalIds
  {
    var l := LinkedIdWitness(RelinkedLinks(links, eventId, animalIds), eventId, id);
    RelinkedMember(links, eventId, animalIds, l);
  }

  /** An id among the event's animal ids comes from a link of the event. */
  lemma LinkedIdWitness(links: seq<AnimalEvent>, eventId: int, id: int) returns (l: AnimalEvent)
    requires id in LinkedIds(links, eventId)
    ensures l in links && l.eventId == eventId && l.animalId == id
  {
    var e := EventLinks(links, eventId);
    var k :| 0 <= k < |LinkedIds(links, eventId)| && LinkedIds(links, eventId)[k] == id;
    l := e[k];
    assert l in e;
  }

  /** Every link of the event after the replacement is kept or fresh, and
      names a listed animal either way. */
  lemma RelinkedMember(links: seq<AnimalEvent>, eventId: int, animalIds: seq<int>, l: AnimalEvent)
    requires l in RelinkedLinks(links, eventId, animalIds) && l.eventId == eventId
    ensures l.animalId in animalIds
  {
    var kept := KeptLinks(links, eventId, animalIds);
    var added := AddedIds(links, eventId, animalIds);
    var newLinks := AssignedLinks(added, eventId);
    assert RelinkedLinks(links, eventId, animalIds) == kept + newLinks;
    if l in kept {
      assert !DropsLink(l, eventId, animalIds);
    } else {
      assert l in newLinks;
      var m :| 0 <= m < |newLinks| && newLinks[m] == l;
      assert added[m] in added;
    }
  }

  /** A link that is in a table and names the event shows up among the
      event's animal ids. */
  lemma LinkedIdOf(links: seq<AnimalEvent>, eventId: int, l: AnimalEvent)
    requires l in links && l.eventId == eventId
    ensures l.animalId in LinkedIds(links, eventId)
  {
    var m :| 0 <= m < |links| && links[m] == l;
    assert l in EventLinks(links, eventId);
    var q :| 0 <= q < |EventLinks(links, eventId)| && EventLinks(links, eventId)[q] == l;
    assert LinkedIds(links, eventId)[q] == l.animalId;
  }

  /** A listed animal is linked to the event after the replacement. */
  lemma RelinkedAllListed(links: seq<AnimalEvent>, eventId: int, animalIds: seq<int>, id: int)
    requires id in animalIds
    ensures id in LinkedIds(RelinkedLinks(links, eventId, animalIds), eventId)
  {
    var kept := KeptLinks(links, eventId, animalIds);
    var added := AddedIds(links, eventId, animalIds);
    var r := RelinkedLinks(links, eventId, animalIds);
    if id in LinkedIds(links, eventId) {
      var k :| 0 <= k < |LinkedIds(links, eventId)| && LinkedIds(links, eventId)[k] == id;
      var l := EventLinks(links, eventId)[k];
      assert l in links && l.eventId == eventId && l.animalId == id;
      var m :| 0 <= m < |links| && links[m] == l;
      assert l in kept;
      assert l in r;
      LinkedIdOf(r, eventId, l);
    } else {
      var j :| 0 <= j < |animalIds| && animalIds[j] == id;
      assert id in added;
      var k :| 0 <= k < |added| && added[k] == id;
      assert r[|kept| + k] == NewLink(id, eventId);
      LinkedIdOf(r, eventId, NewLink(id, eventId));
    }
  }

  /** After the animals of an event are replaced, the event's animals are
      exactly the listed ones; links of other events are untouched. */
  lemma RelinkSetsAnimals(links: seq<AnimalEvent>, eventId: int, animalIds: seq<int>)
    ensures forall id :: id in LinkedIds(RelinkedLinks(links, eventId, animalIds), eventId) <==> id in animalIds
    ensures forall l: AnimalEvent :: l.eventId != eventId ==> (l in RelinkedLinks(links, eventId, animalIds) <==> l in links)
  {
    forall id ensures id in LinkedIds(RelinkedLinks(links, eventId, animalIds), eventId) <==> id in animalIds {
      if id in animalIds {
        RelinkedAllListed(links, eventId, animalIds, id);
      }
      if id in LinkedIds(RelinkedLinks(links, eventId, animalIds), eventId) {
        RelinkedOnlyListed(links, eventId, animalIds, id);
      }
    }
    var kept := KeptLinks(links, eventId, animalIds);
    var added := AddedIds(links, eventId, animalIds);
    var r := RelinkedLinks(links, eventId, animalIds);
    forall m | 0 <= m < |r| ensures r[m] in kept || r[m].eventId == eventId {
      if m >= |kept| {
        assert r[m] == NewLink(added[m - |kept|], eventId);
      }
    }
    forall l: AnimalEvent | l.eventId != eventId ensures l in r <==> l in links {
      if l in links {
        var m :| 0 <= m < |links| && links[m] == l;
        assert l in kept;
      }
    }
  }

  /** Replacing the animals of an event keeps the links lawful, given
      pairwise different listed ids. */
  lemma RelinkKeepsLinksLawful(links: seq<AnimalEvent>, eventId: int, animalIds: seq<int>)
    requires LinksLawful(links) && Distinct(animalIds)
    ensures LinksLawful(RelinkedLinks(links, eventId, animalIds))
  {
    var kept := KeptLinks(links, eventId, animalIds);
    var added := AddedIds(links, eventId, animalIds);
    KeptUnique(links, (l: AnimalEvent) => !DropsLink(l, eventId, animalIds));
    DistinctFilter(animalIds, (id: int) => id, (id: int) => id !in LinkedIds(links, eventId));
    assert Column(animalIds, (id: int) => id) == animalIds;
    assert Column(added, (id: int) => id) == added;
    forall i | 0 <= i < |kept| && kept[i].eventId == eventId ensures kept[i].animalId !in added {
      var l := kept[i];
      assert l in links;
      var m :| 0 <= m < |links| && links[m] == l;
      assert l in EventLinks(links, eventId);
      var q :| 0 <= q < |EventLinks(links, eventId)| && EventLinks(links, eventId)[q] == l;
      assert LinkedIds(links, eventId)[q] == l.animalId;
    }
    LinksUniqueAppend(kept, AssignedLinks(added, eventId), eventId, added);
    var r := RelinkedLinks(links, eventId, animalIds);
    forall i | 0 <= i < |r| ensures Lifecycle(r[i]) {
      if i < |kept| {
        assert r[i] in links;
      }
    }
  }

  // ---------------------------------------------------------------------
  // Reassigning animals (reassign_animals_to_event)
  // ---------------------------------------------------------------------

  /** An animal listed for reassignment already has a link to another event
      of the same zoo whose window overlaps the event's own. Unlike
      `validate_event_clashes`, the event itself is always excluded. */
  predicate ReassignClashes(a: Animal, animalIds: seq<int>, t: Tables, e: Event) {
    a.id in animalIds &&
    exists i, j | 0 <= i < |t.links| && 0 <= j < |t.events| ::
      && t.links[i].animalId == a.id && t.links[i].eventId == t.events[j].id
      && Overlaps(t.events[j].info.startAt, t.events[j].info.endAt, e.info.startAt, e.info.endAt)
      && t.events[j].info.zooId == e.info.zooId
      && t.events[j].id != e.id
  }

  function AnimalNameOf(a: Animal): string {
    a.info.name
  }

  /** The names of the clashing animals, each once. */
  function ReassignClashNames(animalIds: seq<int>, t: Tables, e: Event): seq<string> {
    Unique(Column(Filter(t.animals, (a: Animal) => ReassignClashes(a, animalIds, t, e)), AnimalNameOf))
  }

  /** Every check of `reassign_animals_to_event`, in the order it makes
      them. The animals are not limited to the event's zoo. */
  function ReassignCheck(actor: Actor, eventId: int, animalIds: seq<int>, t: Tables): (r: Outcome)
    ensures r.Pass? ==> FindEvent(t.events, eventId).Some?
    ensures r.Pass? ==> ValidateAnimals(animalIds, t, None).Ok?
  {
    if !HasPermission(actor.role.permissions, "update_events") then Fail(NotAuthorized)
    else
      match FindEvent(t.events, eventId)
      case None => Fail(EventNotFound)
      case Some(i) =>
        match ValidateAnimals(animalIds, t, None)
        case Err(f) => Fail(f)
        case Ok(_) =>
          var names := ReassignClashNames(animalIds, t, t.events[i]);
          if names != [] then
            Fail(Http(400, "Some animals are already assigned to an event during this time: " + Join(names, ", ")))
          else Pass
  }

  /** The reassignment clash check refuses exactly when some listed animal
      is linked to another overlapping event of the same zoo. */
  lemma ReassignClashIff(actor: Actor, eventId: int, animalIds: seq<int>, t: Tables)
    requires HasPermission(actor.role.permissions, "update_events")
    requires FindEvent(t.events, eventId).Some? && ValidateAnimals(animalIds, t, None).Ok?
    ensures ReassignCheck(actor, eventId, animalIds, t).Pass? <==>
      forall k :: 0 <= k < |t.animals| ==> !ReassignClashes(t.animals[k], animalIds, t, t.events[FindEvent(t.events, eventId).value])
  {
    var e := t.events[FindEvent(t.events, eventId).value];
    var clashing := Filter(t.animals, (a: Animal) => ReassignClashes(a, animalIds, t, e));
    var names := ReassignClashNames(animalIds, t, e);
    if names == [] {
      assert |clashing| == |Column(clashing, AnimalNameOf)| == 0;
      forall k | 0 <= k < |t.animals| ensures !ReassignClashes(t.animals[k], animalIds, t, e) {
        assert t.animals[k] !in clashing;
      }
    } else {
      assert names[0] in Column(clashing, AnimalNameOf);
      var k :| 0 <= k < |clashing| && Column(clashing, AnimalNameOf)[k] == names[0];
      assert clashing[k] in t.animals;
    }
  }

  /** The audit rows of a reassignment as the code writes them: for each
      removed animal a "removed" row and then, for the same removed
      animals, an "added" row; animals newly linked get no row. */
  function ReassignAudits(removed: seq<int>, actor: Actor, eventName: string, now: Instant): seq<AnimalAudit> {
    RelinkAudits(removed, removed, actor, eventName, now)
  }

  /** `reassign_animals_to_event`. Links that are already checked out are
      deleted like any other. */
  method ReassignAnimals(db: Store, actor: Actor, eventId: int, animalIds: seq<int>, now: Instant)
    returns (out: Outcome)
    modifies db`links, db`audits
    ensures out == ReassignCheck(actor, eventId, animalIds, old(db.Snapshot()))
    ensures out.Fail? ==> unchanged(db)
    ensures out.Pass? ==>
      && db.links == RelinkedLinks(old(db.links), eventId, animalIds)
      && db.audits == old(db.audits) + ReassignAudits(RemovedIds(old(db.links), eventId, animalIds),
                                                      actor, EventName(old(db.Snapshot()), eventId), now)
  {
    out := ReassignCheck(actor, eventId, animalIds, db.Snapshot());
    if out.Fail? {
      return;
    }
    ApplyReassign(db, actor, eventId, animalIds, EventName(db.Snapshot(), eventId), now);
  }

  /** The writes of `reassign_animals_to_event`, once every check passed. */
  method ApplyReassign(db: Store, actor: Actor, eventId: int, animalIds: seq<int>, eventName: string, now: Instant)
    modifies db`links, db`audits
    ensures db.links == RelinkedLinks(old(db.links), eventId, animalIds)
    ensures db.audits == old(db.audits) + ReassignAudits(RemovedIds(old(db.links), eventId, animalIds), actor, eventName, now)
  {
    var removed := RemovedIds(db.links, eventId, animalIds);
    Relink(db, eventId, animalIds);
    LogRelink(db, removed, removed, actor, eventName, now);
  }

  /** Every row of a batch is about one of the listed animals. */
  lemma {:induction false} BatchMembers(animalIds: seq<int>, template: seq<AnimalAudit>)
    ensures forall a :: a in Batch(animalIds, template) ==> a.animalId in animalIds
  {
    if animalIds != [] {
      var n := |animalIds|;
      BatchMembers(animalIds[..n - 1], template);
      forall a | a in Batch(animalIds, template) ensures a.animalId in animalIds {
        if a in Batch(animalIds[..n - 1], template) {
          assert a.animalId in animalIds[..n - 1];
        } else {
          assert a in Stamp(template, animalIds[n - 1]);
        }
      }
    }
  }

  /** What the reassignment logs: two rows per removed animal, every row
      about a removed animal, and none about an animal it newly links. */
  lemma ReassignAuditsOnlyRemoved(links: seq<AnimalEvent>, eventId: int, animalIds: seq<int>,
                                  actor: Actor, eventName: string, now: Instant)
    ensures var r := ReassignAudits(RemovedIds(links, eventId, animalIds), actor, eventName, now);
      && |r| == 2 * |RemovedIds(links, eventId, animalIds)|
      && (forall a :: a in r ==> a.animalId in RemovedIds(links, eventId, animalIds))
      && (forall a, id :: a in r && id in AddedIds(links, eventId, animalIds) ==> a.animalId != id)
  {
    var removed := RemovedIds(links, eventId, animalIds);
    BatchMembers(removed, [RemovedNote(actor, eventName, now)]);
    BatchMembers(removed, [AddedNote(actor, eventName, now)]);
    forall id | id in removed ensures id !in animalIds {
      var k :| 0 <= k < |removed| && removed[k] == id;
      assert RemovedLinks(links, eventId, animalIds)[k] in RemovedLinks(links, eventId, animalIds);
    }
  }

  // ---------------------------------------------------------------------
  // Live and upcoming events (get_upcoming_live_events)
  // ---------------------------------------------------------------------

  /** The events that have not ended yet. */
  function NotEnded(t: Tables, now: Instant): seq<Event> {
    Filter(t.events, (e: Event) => e.info.endAt > now)
  }

  /** `get_upcoming_live_events`: the events not yet ended, split into the
      live ones and the rest, both in stored order. */
  method GetUpcomingLiveEvents(t: Tables, now: Instant) returns (live: seq<EventDetails>, upcoming: seq<EventDetails>)
    ensures live == Filter(DetailsList(t, NotEnded(t, now)), (d: EventDetails) => IsLive(d, now))
    ensures upcoming == Filter(DetailsList(t, NotEnded(t, now)), (d: EventDetails) => !IsLive(d, now))
  {
    var ds := GetEventsDetails(t, NotEnded(t, now));
    assert ds == DetailsList(t, NotEnded(t, now));
    live, upcoming := Split(ds, (d: EventDetails) => IsLive(d, now), (d: EventDetails) => !IsLive(d, now));
  }

  /** The loop that appends each entry to one of two lists. */
  method Split<T>(s: seq<T>, p: T -> bool, q: T -> bool) returns (yes: seq<T>, no: seq<T>)
    requires forall x :: q(x) <==> !p(x)
    ensures yes == Filter(s, p) && no == Filter(s, q)
  {
    yes, no := [], [];
    for i := 0 to |s|
      invariant yes == Filter(s[..i], p) && no == Filter(s[..i], q)
    {
      FilterPrefixStep(s, i, p);
      FilterPrefixStep(s, i, q);
      if p(s[i]) {
        yes := yes + [s[i]];
      } else {
        no := no + [s[i]];
      }
    }
    assert s[..|s|] == s;
  }

  /** Each event not yet ended lands in exactly one list: live when now
      lies within its window, upcoming when it has not started. */
  lemma LiveUpcomingPartition(t: Tables, now: Instant)
    ensures var ds := DetailsList(t, NotEnded(t, now));
      var live := Filter(ds, (d: EventDetails) => IsLive(d, now));
      var upcoming := Filter(ds, (d: EventDetails) => !IsLive(d, now));
      && |live| + |upcoming| == |ds|
      && (forall d :: d in live ==> d.event.info.startAt <= now < d.event.info.endAt)
      && (forall d :: d in upcoming ==> now < d.event.info.startAt)
      && (forall e :: e in t.events && e.info.endAt > now ==> DetailsOf(t, e) in live + upcoming)
  {
    var evs := NotEnded(t, now);
    var ds := DetailsList(t, evs);
    FilterSplit(ds, (d: EventDetails) => IsLive(d, now), (d: EventDetails) => !IsLive(d, now));
    forall d | d in ds ensures d.event.info.endAt > now {
      var i :| 0 <= i < |ds| && ds[i] == d;
      assert evs[i] in evs;
    }
    forall e | e in t.events && e.info.endAt > now
      ensures DetailsOf(t, e) in Filter(ds, (d: EventDetails) => IsLive(d, now)) + Filter(ds, (d: EventDetails) => !IsLive(d, now))
    {
      var j :| 0 <= j < |t.events| && t.events[j] == e;
      assert e in evs;
      var i :| 0 <= i < |evs| && evs[i] == e;
      assert ds[i] == DetailsOf(t, e);
    }
  }
}
