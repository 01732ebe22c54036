/** The records of the zoo database (backend/models.py) as values.
    Timestamps are seconds since the Unix epoch in UTC, durations are
    seconds. A field the source declares nullable is an `Option`. */
module Models {
  import opened Base

  /** Seconds since the Unix epoch, UTC. */
  type Instant = int

  // Stored animal status labels.
  const CheckedInLabel: string := "checked_in"
  const CheckedOutLabel: string := "checked_out"
  const UnavailableLabel: string := "unavailable"

  /** The editable part of an animal (`AnimalIn`), in declaration order.
      `restTime` is the mandatory rest after a check-in, in seconds;
      `maxDailyCheckoutHours` is in whole hours. */
  datatype AnimalIn = AnimalIn(
    name: string,
    species: string,
    image: Option<string>,
    maxDailyCheckouts: int,
    maxDailyCheckoutHours: int,
    restTime: int,
    description: Option<string>,
    tier: int,
    dailyCheckoutCount: int,
    dailyCheckoutDuration: int,
    lastCheckinTime: Option<Instant>,
    checkedIn: bool,
    handlingEnabled: bool,
    status: Option<string>,
    zooId: int)

  /** A stored animal row. */
  datatype Animal = Animal(id: int, info: AnimalIn)

  /** An `AnimalIn` built from the fields a request must supply; every other
      field takes its declared default. */
  function NewAnimalIn(name: string, species: string, maxDailyCheckouts: int,
                       maxDailyCheckoutHours: int, restTime: int,
                       handlingEnabled: bool, zooId: int): (a: AnimalIn)
    ensures a.status == Some(CheckedInLabel) && a.lastCheckinTime == None
    ensures a.tier == 1
    ensures a.image == None && a.description == None
    ensures a.dailyCheckoutCount == 0 && a.dailyCheckoutDuration == 0 && a.checkedIn
    ensures a.name == name && a.species == species && a.zooId == zooId
    ensures a.maxDailyCheckouts == maxDailyCheckouts && a.restTime == restTime
    ensures a.maxDailyCheckoutHours == maxDailyCheckoutHours
    ensures a.handlingEnabled == handlingEnabled
  {
    AnimalIn(name, species, None, maxDailyCheckouts, maxDailyCheckoutHours, restTime,
             None, 1, 0, 0, None, true, handlingEnabled, Some(CheckedInLabel), zooId)
  }

  /** The `animal_event` link: an animal assigned to an event, and its
      check-out / check-in record for that event. */
  datatype AnimalEvent = AnimalEvent(
    animalId: int,
    eventId: int,
    userInId: Option<int>,
    userOutId: Option<int>,
    checkedIn: Option<Instant>,
    checkedOut: Option<Instant>,
    duration: Option<int>)

  /** Lifecycle of a link: assigned, then checked out, then checked in. */
  predicate Assigned(l: AnimalEvent) {
    l.checkedOut.None? && l.checkedIn.None?
  }

  predicate InTheField(l: AnimalEvent) {
    l.checkedOut.Some? && l.checkedIn.None?
  }

  predicate Returned(l: AnimalEvent) {
    l.checkedOut.Some? && l.checkedIn.Some?
  }

  /** A link as inserted without timestamps. */
  function NewLink(animalId: int, eventId: int): (l: AnimalEvent)
    ensures l.animalId == animalId && l.eventId == eventId
    ensures l.checkedIn == None && l.checkedOut == None && l.duration == None
    ensures l.userInId == None && l.userOutId == None
    ensures Assigned(l)
  {
    AnimalEvent(animalId, eventId, None, None, None, None, None)
  }

  /** The editable part of an event (`EventIn`). */
  datatype EventIn = EventIn(
    name: string,
    description: string,
    startAt: Instant,
    endAt: Instant,
    eventTypeId: int,
    zooId: int)

  datatype Event = Event(id: int, info: EventIn)

  datatype EventType = EventType(id: int, name: string, zooId: int, groupId: Option<int>)

  datatype Group = Group(id: int, title: string, zooId: int)

  /** The closed set of audit actions (`AuditActions`). */
  datatype AuditAction =
    | AnimalCreated | AnimalUpdated | AnimalDeleted
    | CheckedInAction | CheckedOutAction
    | CommentAdded | CommentUpdated
    | HealthLogAdded | HealthLogUpdated
    | ActivityLogged
    | GroupAdded | GroupRemoved
    | TierChanged | MaxDailyCheckoutsChanged | MaxCheckoutHoursChanged
    | RestTimeChanged | ImageUpdated
    | RoleAssigned | RoleUpdated
    | EventParticipationAdded | EventParticipationRemoved
    | ZooChanged | AnimalStatusChanged | RestTimeStarted

  /** The label each action is stored under. */
  function ActionName(a: AuditAction): string {
    match a
    case AnimalCreated => "animal_created"
    case AnimalUpdated => "animal_updated"
    case AnimalDeleted => "animal_deleted"
    case CheckedInAction => "checked_in"
    case CheckedOutAction => "checked_out"
    case CommentAdded => "comment_added"
    case CommentUpdated => "comment_updated"
    case HealthLogAdded => "health_log_added"
    case HealthLogUpdated => "health_log_updated"
    case ActivityLogged => "activity_logged"
    case GroupAdded => "group_added"
    case GroupRemoved => "group_removed"
    case TierChanged => "tier_changed"
    case MaxDailyCheckoutsChanged => "max_daily_checkouts_changed"
    case MaxCheckoutHoursChanged => "max_checkout_hours_changed"
    case RestTimeChanged => "rest_time_changed"
    case ImageUpdated => "image_updated"
    case RoleAssigned => "role_assigned"
    case RoleUpdated => "role_updated"
    case EventParticipationAdded => "event_participation_added"
    case EventParticipationRemoved => "event_participation_removed"
    case ZooChanged => "zoo_changed"
    case AnimalStatusChanged => "animal_status_changed"
    case RestTimeStarted => "rest_time_started"
  }

  /** One row of the append-only animal audit trail. */
  datatype AnimalAudit = AnimalAudit(
    animalId: int,
    changedField: Option<string>,
    oldValue: Option<string>,
    newValue: Option<string>,
    description: Option<string>,
    action: AuditAction,
    changedAt: Instant,
    changedBy: int)

  datatype HealthLog = HealthLog(id: int, animalId: int, details: string, loggedAt: Instant, loggedBy: int)

  datatype EventComment = EventComment(id: int, userId: int, eventId: Option<int>, comment: string)

  /** A handler (user) assigned to an event. */
  datatype UserEvent = UserEvent(userId: Option<int>, eventId: Option<int>, assignerId: Option<int>)

  /** Permissions and roles are identified by their unique names. */
  datatype Permission = Permission(name: string)

  datatype Role = Role(name: string, permissions: seq<Permission>)

  /** A stored user; `roleName` stands for the foreign key to the role. */
  datatype User = User(
    id: int,
    email: string,
    firstName: string,
    lastName: string,
    username: string,
    tier: int,
    roleName: string,
    zooId: Option<int>,
    groupId: Option<int>,
    hashedPassword: string)

  /** The authenticated caller of a request, with its role joined in. */
  datatype Actor = Actor(user: User, role: Role)

  /** The request body of event creation and update. */
  datatype EventCreate = EventCreate(
    event: EventIn,
    animalIds: seq<int>,
    userIds: seq<int>,
    checkoutImmediately: bool)

  /** A request body that leaves `checkout_immediately` out. */
  function NewEventCreate(event: EventIn, animalIds: seq<int>, userIds: seq<int>): (b: EventCreate)
    ensures !b.checkoutImmediately
    ensures b.event == event && b.animalIds == animalIds && b.userIds == userIds
  {
    EventCreate(event, animalIds, userIds, false)
  }

  /** A user row as `create_user` builds it; the tier is left at its default. */
  function NewUser(id: int, email: string, firstName: string, lastName: string,
                   username: string, roleName: string, zooId: Option<int>,
                   hashedPassword: string): (u: User)
    ensures u.tier == 1 && u.groupId == None
    ensures u.id == id && u.email == email && u.username == username
    ensures u.firstName == firstName && u.lastName == lastName
    ensures u.roleName == roleName && u.zooId == zooId && u.hashedPassword == hashedPassword
  {
    User(id, email, firstName, lastName, username, 1, roleName, zooId, None, hashedPassword)
  }

  // ---------------------------------------------------------------------
  // Unique indexes
  // ---------------------------------------------------------------------

  /** The unique index on (title, zoo_id) of groups. */
  predicate SameGroupKey(g: Group, h: Group) {
    g.title == h.title && g.zooId == h.zooId
  }

  predicate GroupsUnique(gs: seq<Group>) {
    forall i, j :: 0 <= i < j < |gs| ==> !SameGroupKey(gs[i], gs[j])
  }

  /** Inserting a group: the index refuses a second (title, zoo_id). */
  function InsertGroup(gs: seq<Group>, g: Group): (r: Result<seq<Group>>)
    ensures r.Ok? <==> forall i :: 0 <= i < |gs| ==> !SameGroupKey(gs[i], g)
    ensures r.Ok? ==> r.value == gs + [g]
    ensures GroupsUnique(gs) && r.Ok? ==> GroupsUnique(r.value)
  {
    if exists i :: 0 <= i < |gs| && SameGroupKey(gs[i], g)
    then Err(Internal("IntegrityError: ix_unique_title_zoo_id"))
    else Ok(gs + [g])
  }

  /** The unique index on (name, zoo_id, group_id) of event types. The
      database treats NULL as distinct from every value, so two types
      without a group never collide. */
  predicate SameEventTypeKey(t: EventType, u: EventType) {
    t.name == u.name && t.zooId == u.zooId && t.groupId.Some? && t.groupId == u.groupId
  }

  predicate EventTypesUnique(ts: seq<EventType>) {
    forall i, j :: 0 <= i < j < |ts| ==> !SameEventTypeKey(ts[i], ts[j])
  }

  function InsertEventType(ts: seq<EventType>, t: EventType): (r: Result<seq<EventType>>)
    ensures r.Ok? <==> forall i :: 0 <= i < |ts| ==> !SameEventTypeKey(ts[i], t)
    ensures r.Ok? ==> r.value == ts + [t]
    ensures EventTypesUnique(ts) && r.Ok? ==> EventTypesUnique(r.value)
  {
    if exists i :: 0 <= i < |ts| && SameEventTypeKey(ts[i], t)
    then Err(Internal("IntegrityError: ix_unique_name_zoo_id_group_id"))
    else Ok(ts + [t])
  }
}
