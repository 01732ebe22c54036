/** User lookups and the guards on users (backend/db/users.py). */
module DbUsers {
  import opened Base
  import opened Models
  import opened Session

  /** The first stored user satisfying `p` (`.first()` of a WHERE query). */
  function FirstUser(users: seq<User>, p: User -> bool): (r: Option<User>)
    ensures r.Some? ==> r.value in users && p(r.value)
    ensures r.None? <==> forall i :: 0 <= i < |users| ==> !p(users[i])
  {
    if users == [] then None
    else if p(users[0]) then Some(users[0])
    else
      assert forall i :: 1 <= i < |users| ==> users[i] == users[1..][i - 1];
      FirstUser(users[1..], p)
  }

  function UserByEmail(users: seq<User>, email: string): Option<User> {
    FirstUser(users, (u: User) => u.email == email)
  }

  function UserById(users: seq<User>, id: int): Option<User> {
    FirstUser(users, (u: User) => u.id == id)
  }

  function UserByUsername(users: seq<User>, username: string): Option<User> {
    FirstUser(users, (u: User) => u.username == username)
  }

  function UserId(u: User): int {
    u.id
  }

  /** `validate_users`: the users whose id is requested; as many must be
      found as ids were requested. */
  function ValidateUsers(userIds: seq<int>, t: Tables): Result<seq<User>> {
    var found := Filter(t.users, (u: User) => u.id in userIds);
    if |found| != |userIds| then Err(Http(404, "User not found")) else Ok(found)
  }

  /** With unique user ids, `validate_users` succeeds exactly when the
      requested ids are pairwise different and every one names a user. */
  lemma ValidateUsersIff(userIds: seq<int>, t: Tables)
    requires Distinct(Column(t.users, UserId))
    ensures ValidateUsers(userIds, t).Ok? <==>
      (Distinct(userIds) && forall id :: id in userIds ==> UserById(t.users, id).Some?)
  {
    var present := Elems(Column(t.users, UserId));
    KeyedCountCheck(t.users, UserId, (u: User) => u.id in userIds, userIds, present);
    forall id ensures id in present <==> UserById(t.users, id).Some? {
      if id in present {
        var k :| 0 <= k < |t.users| && Column(t.users, UserId)[k] == id;
        assert t.users[k].id == id;
      }
      if UserById(t.users, id).Some? {
        var u := UserById(t.users, id).value;
        var k :| 0 <= k < |t.users| && t.users[k] == u;
        assert Column(t.users, UserId)[k] == id;
      }
    }
    if forall id :: id in userIds ==> UserById(t.users, id).Some? {
      forall id | id in Elems(userIds) ensures id in present {
        assert UserById(t.users, id).Some?;
      }
    }
    if Elems(userIds) <= present {
      forall id | id in userIds ensures UserById(t.users, id).Some? {
        assert id in Elems(userIds);
      }
    }
  }

  /** A `UserEvent` row assigns this user to this event. */
  predicate AssignedTo(links: seq<UserEvent>, userId: int, eventId: int) {
    exists i :: 0 <= i < |links| && links[i].userId == Some(userId) && links[i].eventId == Some(eventId)
  }

  /** The first assignment row of the user to the event. */
  function FindAssignment(links: seq<UserEvent>, userId: int, eventId: int): (r: Option<UserEvent>)
    ensures r.Some? <==> AssignedTo(links, userId, eventId)
  {
    if links == [] then None
    else if links[0].userId == Some(userId) && links[0].eventId == Some(eventId) then Some(links[0])
    else
      var r := FindAssignment(links[1..], userId, eventId);
      assert AssignedTo(links[1..], userId, eventId) ==> AssignedTo(links, userId, eventId) by {
        if AssignedTo(links[1..], userId, eventId) {
          var i :| 0 <= i < |links[1..]| && links[1..][i].userId == Some(userId) && links[1..][i].eventId == Some(eventId);
          assert links[i + 1] == links[1..][i];
        }
      }
      assert AssignedTo(links, userId, eventId) ==> AssignedTo(links[1..], userId, eventId) by {
        if AssignedTo(links, userId, eventId) {
          var i :| 0 <= i < |links| && links[i].userId == Some(userId) && links[i].eventId == Some(eventId);
          assert i != 0;
          assert links[1..][i - 1] == links[i];
        }
      }
      r
  }

  const NotAuthorized: Failure := Http(401, "You are not authorized to perform this action")
  const NotAssigned: Failure := Http(400, "You are not assigned as a handler to this event")

  /** `validate_check_in_out_permissions`: only handlers and admins may check
      animals in or out, and a handler only for an event it is assigned to.
      Success is the value `True`. */
  function ValidateCheckInOut(actor: Actor, eventId: int, t: Tables): Result<bool> {
    if actor.role.name !in ["handler", "admin"] then Err(NotAuthorized)
    else if actor.role.name == "handler" && FindAssignment(t.userLinks, actor.user.id, eventId).None? then
      Err(NotAssigned)
    else Ok(true)
  }

  /** Who may check animals in or out of an event. */
  predicate MayHandle(actor: Actor, eventId: int, t: Tables) {
    || actor.role.name == "admin"
    || (actor.role.name == "handler" && AssignedTo(t.userLinks, actor.user.id, eventId))
  }

  /** The guard passes exactly for an admin or an assigned handler; every
      other role is refused with 401 and an unassigned handler with 400. */
  lemma ValidateCheckInOutIff(actor: Actor, eventId: int, t: Tables)
    ensures ValidateCheckInOut(actor, eventId, t) == Ok(true) <==> MayHandle(actor, eventId, t)
    ensures ValidateCheckInOut(actor, eventId, t).Ok? ==> ValidateCheckInOut(actor, eventId, t).value
    ensures actor.role.name != "handler" && actor.role.name != "admin" ==>
      ValidateCheckInOut(actor, eventId, t) == Err(NotAuthorized)
    ensures actor.role.name == "handler" && !AssignedTo(t.userLinks, actor.user.id, eventId) ==>
      ValidateCheckInOut(actor, eventId, t) == Err(NotAssigned)
  {
  }
}
