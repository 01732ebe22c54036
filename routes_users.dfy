/** The user routes (backend/api/routes/users.py): login, registration,
    profile and tier updates, self-deletion and the page of a user's
    events. */
module RoutesUsers {
  import opened Base
  import opened Models
  import opened Session
  import opened DbPermissions
  import opened DbUsers
  import opened DbEvents
  import opened RoutesAnimals

  // ---------------------------------------------------------------------
  // Login
  // ---------------------------------------------------------------------

  const BadCredentials: Failure := Http(401, "Incorrect username or password")

  /** `login`: the name typed in is tried as a username first and as an
      email address second; the password is checked against the stored
      hash by `verify`. Success yields the user the token is issued for. */
  function Login(users: seq<User>, name: string, password: string, verify: (string, string) -> bool): Result<User> {
    var byName := UserByUsername(users, name);
    var user := if byName.Some? then byName else UserByEmail(users, name);
    if user.None? then Err(BadCredentials)
    else if !verify(password, user.value.hashedPassword) then Err(BadCredentials)
    else Ok(user.value)
  }

  /** A login succeeds exactly for a stored user whose username, or, when
      no username matches, whose email is the name typed in, and whose
      password checks; a username match wins over an email match, and
      every refusal is the same 401. */
  lemma LoginLookupOrder(users: seq<User>, name: string, password: string, verify: (string, string) -> bool)
    ensures Login(users, name, password, verify).Err? ==> Login(users, name, password, verify) == Err(BadCredentials)
    ensures (exists i :: 0 <= i < |users| && users[i].username == name) ==>
      var u := UserByUsername(users, name).value;
      && u in users && u.username == name
      && Login(users, name, password, verify) == (if verify(password, u.hashedPassword) then Ok(u) else Err(BadCredentials))
    ensures (forall i :: 0 <= i < |users| ==> users[i].username != name) ==>
      (Login(users, name, password, verify).Ok? <==>
        UserByEmail(users, name).Some? && verify(password, UserByEmail(users, name).value.hashedPassword))
    ensures Login(users, name, password, verify).Ok? ==>
      var u := Login(users, name, password, verify).value;
      u in users && (u.username == name || u.email == name) && verify(password, u.hashedPassword)
  {
  }

  // ---------------------------------------------------------------------
  // Registration
  // ---------------------------------------------------------------------

  /** The checks of `create_user`, in order: the username, then the email
      must be free. */
  function CreateUserCheck(users: seq<User>, username: string, email: string): Outcome {
    if UserByUsername(users, username).Some? then Fail(Http(400, "Username already exists"))
    else if UserByEmail(users, email).Some? then Fail(Http(400, "Try another email address"))
    else Pass
  }

  /** No two stored users share a username or an email address. */
  predicate LoginsUnique(users: seq<User>) {
    forall i, j :: 0 <= i < j < |users| ==> users[i].username != users[j].username && users[i].email != users[j].email
  }

  /** `create_user`: a visitor of the main zoo with tier 1 and no group.
      The database assigns `id`; `hashedPassword` is the hash of the
      password sent. */
  method CreateUser(db: Store, id: int, firstName: string, lastName: string, email: string, username: string,
                    hashedPassword: string, mainZoo: Option<int>) returns (out: Outcome)
    modifies db`users
    ensures out == CreateUserCheck(old(db.users), username, email)
    ensures out.Fail? ==> db.users == old(db.users)
    ensures out.Pass? ==> db.users == old(db.users) + [NewUser(id, email, firstName, lastName, username, "visitor", mainZoo, hashedPassword)]
  {
    out := CreateUserCheck(db.users, username, email);
    if out.Fail? {
      return;
    }
    db.users := db.users + [NewUser(id, email, firstName, lastName, username, "visitor", mainZoo, hashedPassword)];
  }

  /** Registration refuses a taken username first and a taken email second,
      and what it lets through keeps usernames and emails unique. */
  lemma CreateUserKeepsLoginsUnique(users: seq<User>, u: User)
    requires LoginsUnique(users)
    ensures CreateUserCheck(users, u.username, u.email).Pass? <==>
      forall i :: 0 <= i < |users| ==> users[i].username != u.username && users[i].email != u.email
    ensures (exists i :: 0 <= i < |users| && users[i].username == u.username) ==>
      CreateUserCheck(users, u.username, u.email) == Fail(Http(400, "Username already exists"))
    ensures CreateUserCheck(users, u.username, u.email).Pass? ==> LoginsUnique(users + [u])
  {
    if CreateUserCheck(users, u.username, u.email).Pass? {
      var s := users + [u];
      forall i, j | 0 <= i < j < |s| ensures s[i].username != s[j].username && s[i].email != s[j].email {
        if j == |users| {
          assert s[i] == users[i];
        }
      }
    }
  }

  // ---------------------------------------------------------------------
  // Profile, tier and deletion
  // ---------------------------------------------------------------------

  /** Position of the first user with this id. */
  function FindUserAt(users: seq<User>, id: int): (r: Option<nat>)
    ensures r.Some? ==> r.value < |users| && users[r.value].id == id
    ensures r.None? <==> forall k :: 0 <= k < |users| ==> users[k].id != id
  {
    FirstIndex(users, UserId, id)
  }

  /** `update_user`: the caller's row gets the new first and last name;
      nothing else about any user changes. The caller was loaded from the
      table, so its row is there. */
  method UpdateUser(db: Store, callerId: int, firstName: string, lastName: string)
    modifies db`users
    requires FindUserAt(db.users, callerId).Some?
    ensures var i := FindUserAt(old(db.users), callerId).value;
      var u := old(db.users)[i];
      db.users == old(db.users)[i := User(u.id, u.email, firstName, lastName, u.username, u.tier, u.roleName,
                                          u.zooId, u.groupId, u.hashedPassword)]
  {
    var i := FindUserAt(db.users, callerId).value;
    db.users := db.users[i := db.users[i].(firstName := firstName, lastName := lastName)];
  }

  /** The checks of `update_user_tier`, in order; success gives the row. */
  function TierCheck(actor: Actor, userId: int, tier: int, users: seq<User>): (r: Result<nat>)
    ensures r.Ok? ==> r.value < |users| && users[r.value].id == userId
  {
    if !HasPermission(actor.role.permissions, "update_user_tier") then
      Err(Http(401, "You do not have permission to update user tiers"))
    else if tier < 1 || tier > 4 then Err(Http(400, "Tier must be between 1 and 4"))
    else match FindUserAt(users, userId)
      case None => Err(Http(404, "User not found"))
      case Some(i) => Ok(i)
  }

  /** `update_user_tier`. */
  method UpdateUserTier(db: Store, actor: Actor, userId: int, tier: int) returns (out: Outcome)
    modifies db`users
    ensures out.Pass? <==> TierCheck(actor, userId, tier, old(db.users)).Ok?
    ensures out.Fail? ==> out.failure == TierCheck(actor, userId, tier, old(db.users)).failure && db.users == old(db.users)
    ensures out.Pass? ==>
      var i := TierCheck(actor, userId, tier, old(db.users)).value;
      db.users == old(db.users)[i := old(db.users)[i].(tier := tier)]
  {
    var check := TierCheck(actor, userId, tier, db.users);
    if check.Err? {
      return Fail(check.failure);
    }
    var i := check.value;
    db.users := db.users[i := db.users[i].(tier := tier)];
    out := Pass;
  }

  predicate TiersInRange(users: seq<User>) {
    forall k :: 0 <= k < |users| ==> 1 <= users[k].tier <= 4
  }

  /** A tier outside 1..4 is refused whenever the caller may set tiers, so
      stored tiers stay within 1..4. */
  lemma TierStaysInRange(actor: Actor, userId: int, tier: int, users: seq<User>)
    ensures HasPermission(actor.role.permissions, "update_user_tier") && (tier < 1 || tier > 4) ==>
      TierCheck(actor, userId, tier, users) == Err(Http(400, "Tier must be between 1 and 4"))
    ensures TierCheck(actor, userId, tier, users).Ok? ==>
      1 <= tier <= 4 && HasPermission(actor.role.permissions, "update_user_tier")
    ensures TiersInRange(users) && TierCheck(actor, userId, tier, users).Ok? ==>
      TiersInRange(users[TierCheck(actor, userId, tier, users).value := users[TierCheck(actor, userId, tier, users).value].(tier := tier)])
  {
  }

  /** The rule of `delete_user`: the permission and the caller's own id. */
  function DeleteUserCheck(actor: Actor, userId: int, users: seq<User>): (r: Result<nat>)
    ensures r.Ok? ==> r.value < |users| && users[r.value].id == userId
  {
    if !HasPermission(actor.role.permissions, "delete_users") || actor.user.id != userId then
      Err(Http(401, "Unauthorized to delete this user"))
    else match FindUserAt(users, userId)
      case None => Err(Http(404, "User not found"))
      case Some(i) => Ok(i)
  }

  /** `delete_user`: the row goes, everything else stays. */
  method DeleteUser(db: Store, actor: Actor, userId: int) returns (out: Outcome)
    modifies db`users
    ensures out.Pass? <==> DeleteUserCheck(actor, userId, old(db.users)).Ok?
    ensures out.Fail? ==> out.failure == DeleteUserCheck(actor, userId, old(db.users)).failure && db.users == old(db.users)
    ensures out.Pass? ==> db.users == Without(old(db.users), DeleteUserCheck(actor, userId, old(db.users)).value)
  {
    var check := DeleteUserCheck(actor, userId, db.users);
    if check.Err? {
      return Fail(check.failure);
    }
    db.users := Without(db.users, check.value);
    out := Pass;
  }

  /** Users can only delete themselves, and only with `delete_users`: even
      an admin cannot delete anyone else. */
  lemma OnlySelfDeletion(actor: Actor, userId: int, users: seq<User>)
    ensures DeleteUserCheck(actor, userId, users).Ok? <==>
      HasPermission(actor.role.permissions, "delete_users") && actor.user.id == userId && FindUserAt(users, userId).Some?
    ensures actor.user.id != userId ==> DeleteUserCheck(actor, userId, users) == Err(Http(401, "Unauthorized to delete this user"))
  {
  }

  // ---------------------------------------------------------------------
  // A user's events (get_user)
  // ---------------------------------------------------------------------

  /** The events the user is assigned to, in stored order. */
  predicate AssignedToEvent(userLinks: seq<UserEvent>, userId: int, e: Event) {
    exists k :: 0 <= k < |userLinks| && userLinks[k].userId == Some(userId) && userLinks[k].eventId == Some(e.id)
  }

  function EventsOfUser(t: Tables, userId: int): seq<Event> {
    Filter(t.events, (e: Event) => AssignedToEvent(t.userLinks, userId, e))
  }

  datatype UserWithEvents = UserWithEvents(
    user: User,
    currentEvents: seq<EventDetails>,
    pastEvents: seq<EventDetails>,
    upcomingEvents: seq<EventDetails>)

  /** `get_user`: the user and its events split by time as on the animal
      page. */
  method GetUser(t: Tables, userId: int, now: Instant) returns (r: Result<UserWithEvents>)
    ensures r.Err? <==> UserById(t.users, userId).None?
    ensures r.Err? ==> r.failure == Http(404, "User not found")
    ensures r.Ok? ==>
      var ds := DetailsList(t, EventsOfUser(t, userId));
      && r.value.user == UserById(t.users, userId).value
      && r.value.currentEvents == Filter(ds, (d: EventDetails) => IsLive(d, now))
      && r.value.pastEvents == Filter(ds, (d: EventDetails) => IsPast(d, now))
      && r.value.upcomingEvents == Filter(ds, (d: EventDetails) => IsUpcoming(d, now))
  {
    var user := UserById(t.users, userId);
    if user.None? {
      return Err(Http(404, "User not found"));
    }
    var events := EventsOfUser(t, userId);
    var ds := GetEventsDetails(t, events);
    assert ds == DetailsList(t, events);
    var current, past, upcoming := SplitByTime(ds, now);
    r := Ok(UserWithEvents(user.value, current, past, upcoming));
  }

  /** Every event the user is assigned to shows up in exactly one of the
      three lists, and no other event does. */
  lemma UserPageLists(t: Tables, userId: int, now: Instant, e: Event)
    ensures var ds := DetailsList(t, EventsOfUser(t, userId));
      ((DetailsOf(t, e) in Filter(ds, (d: EventDetails) => IsLive(d, now))
        || DetailsOf(t, e) in Filter(ds, (d: EventDetails) => IsPast(d, now))
        || DetailsOf(t, e) in Filter(ds, (d: EventDetails) => IsUpcoming(d, now)))
       <==> e in t.events && AssignedToEvent(t.userLinks, userId, e))
  {
    var evs := EventsOfUser(t, userId);
    var ds := DetailsList(t, evs);
    var d := DetailsOf(t, e);
    TimePartition(d, now);
    if e in t.events && AssignedToEvent(t.userLinks, userId, e) {
      assert e in evs;
      var i :| 0 <= i < |evs| && evs[i] == e;
      assert ds[i] == d;
    }
    if d in ds {
      var i :| 0 <= i < |ds| && ds[i] == d;
      assert evs[i] in evs;
      assert evs[i] == e;
    }
  }
}
