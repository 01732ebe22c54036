/** Event listings and the per-event grouping of their links, handlers and
    comments (backend/db/events.py). */
module DbEvents {
  import opened Base
  import opened Models
  import opened Session

  /** `get_all_events`: a truthy zoo id narrows the listing to that zoo;
      None and 0 list every event. */
  function GetAllEvents(t: Tables, zooId: Option<int>): (r: seq<Event>)
    ensures zooId.None? || zooId.value == 0 ==> r == t.events
    ensures zooId.Some? && zooId.value != 0 ==>
      forall i :: 0 <= i < |r| ==> r[i] in t.events && r[i].info.zooId == zooId.value
    ensures zooId.Some? && zooId.value != 0 ==>
      forall i :: 0 <= i < |t.events| && t.events[i].info.zooId == zooId.value ==> t.events[i] in r
  {
    if zooId.None? || zooId.value == 0 then t.events
    else Filter(t.events, (e: Event) => e.info.zooId == zooId.value)
  }

  /** One entry of `get_events_details`: the event with the animal links,
      handler links and comments that name it. */
  datatype EventDetails = EventDetails(
    event: Event,
    animals: seq<AnimalEvent>,
    users: seq<UserEvent>,
    comments: seq<EventComment>)

  /** The rows of each table that belong to event `e`, in stored order. */
  function DetailsOf(t: Tables, e: Event): EventDetails {
    EventDetails(
      e,
      Filter(t.links, (l: AnimalEvent) => l.eventId == e.id),
      Filter(t.userLinks, (u: UserEvent) => u.eventId == Some(e.id)),
      Filter(t.comments, (c: EventComment) => c.eventId == Some(e.id)))
  }

  /** `get_events_details`: the loop over the events appends one entry per
      event to a fresh list. */
  method GetEventsDetails(t: Tables, events: seq<Event>) returns (r: seq<EventDetails>)
    ensures |r| == |events|
    ensures forall i :: 0 <= i < |events| ==> r[i] == DetailsOf(t, events[i])
  {
    r := [];
    for i := 0 to |events|
      invariant |r| == i
      invariant forall k :: 0 <= k < i ==> r[k] == DetailsOf(t, events[k])
    {
      r := r + [DetailsOf(t, events[i])];
    }
  }

  /** The answer of `get_events_details` for a list of events. */
  function DetailsList(t: Tables, events: seq<Event>): (r: seq<EventDetails>)
    ensures |r| == |events|
    ensures forall i :: 0 <= i < |events| ==> r[i] == DetailsOf(t, events[i])
  {
    seq(|events|, i requires 0 <= i < |events| => DetailsOf(t, events[i]))
  }

  /** An event under way: now lies within its window, both ends included. */
  predicate IsLive(d: EventDetails, now: Instant) {
    d.event.info.startAt <= now <= d.event.info.endAt
  }

  /** Each entry holds exactly the rows of its own event: a link, handler
      link or comment appears in the entry of event `e` if and only if it
      names `e`. */
  lemma DetailsExact(t: Tables, e: Event)
    ensures forall l :: l in DetailsOf(t, e).animals <==> l in t.links && l.eventId == e.id
    ensures forall u :: u in DetailsOf(t, e).users <==> u in t.userLinks && u.eventId == Some(e.id)
    ensures forall c :: c in DetailsOf(t, e).comments <==> c in t.comments && c.eventId == Some(e.id)
  {
    var d := DetailsOf(t, e);
    forall l | l in t.links && l.eventId == e.id ensures l in d.animals {
      var i :| 0 <= i < |t.links| && t.links[i] == l;
    }
    forall u | u in t.userLinks && u.eventId == Some(e.id) ensures u in d.users {
      var i :| 0 <= i < |t.userLinks| && t.userLinks[i] == u;
    }
    forall c | c in t.comments && c.eventId == Some(e.id) ensures c in d.comments {
      var i :| 0 <= i < |t.comments| && t.comments[i] == c;
    }
  }

  /** Entries of different events share no row. */
  lemma DetailsDisjoint(t: Tables, e: Event, f: Event)
    requires e.id != f.id
    ensures forall l :: l in DetailsOf(t, e).animals ==> l !in DetailsOf(t, f).animals
    ensures forall u :: u in DetailsOf(t, e).users ==> u !in DetailsOf(t, f).users
    ensures forall c :: c in DetailsOf(t, e).comments ==> c !in DetailsOf(t, f).comments
  {
    DetailsExact(t, e);
    DetailsExact(t, f);
  }
}
