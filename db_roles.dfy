/** Roles and the seeded role → permission table (backend/db/roles.py). */
module DbRoles {
  import opened Base
  import opened Models
  import opened Session
  import opened DbPermissions

  /** `get_role`: the role with this (unique) name. */
  function GetRole(roles: seq<Role>, name: string): (r: Option<Role>)
    ensures r.Some? ==> r.value in roles && r.value.name == name
    ensures r.None? <==> forall i :: 0 <= i < |roles| ==> roles[i].name != name
  {
    if roles == [] then None
    else if roles[0].name == name then Some(roles[0])
    else
      assert forall i :: 1 <= i < |roles| ==> roles[i] == roles[1..][i - 1];
      GetRole(roles[1..], name)
  }

  const MissingPermissions: Failure := Internal("ValueError: Some permissions do not exist")

  /** The roles table after `create_role`: the permissions are looked up by
      name and must be found one per requested name; a second role of the
      same name is refused by the unique index and rolled back silently. */
  function RoleCreated(roles: seq<Role>, permissions: seq<Permission>, name: string,
                       permissionNames: seq<string>): Result<seq<Role>> {
    var found := GetPermissions(permissions, Some(permissionNames));
    if |permissionNames| != |found| then Err(MissingPermissions)
    else if GetRole(roles, name).Some? then Ok(roles)
    else Ok(roles + [Role(name, found)])
  }

  method CreateRole(db: Store, name: string, permissionNames: seq<string>) returns (out: Outcome)
    modifies db`roles
    ensures var r := RoleCreated(old(db.roles), db.permissions, name, permissionNames);
      && (r.Err? ==> out == Fail(r.failure) && db.roles == old(db.roles))
      && (r.Ok? ==> out == Pass && db.roles == r.value)
  {
    var permissions := GetPermissions(db.permissions, Some(permissionNames));
    if |permissionNames| != |permissions| {
      return Fail(MissingPermissions);
    }
    var role := Role(name, permissions);
    if GetRole(db.roles, name).None? {
      db.roles := db.roles + [role];
    }
    out := Pass;
  }

  /** With unique permission names, a non-empty request succeeds exactly when
      its names are pairwise different and all stored: an unknown or a
      repeated name raises. An empty request selects every permission and
      so succeeds only on an empty permission table. */
  lemma CreateRoleCountCheck(roles: seq<Role>, permissions: seq<Permission>, name: string,
                             permissionNames: seq<string>)
    requires NamesUnique(permissions)
    ensures permissionNames != [] ==>
      (RoleCreated(roles, permissions, name, permissionNames).Ok? <==>
        (Distinct(permissionNames) && forall n :: n in permissionNames ==> HasPermission(permissions, n)))
    ensures permissionNames == [] ==>
      (RoleCreated(roles, permissions, name, permissionNames).Ok? <==> permissions == [])
  {
    if permissionNames != [] {
      var present := Elems(Column(permissions, PermissionName));
      KeyedCountCheck(permissions, PermissionName, (p: Permission) => p.name in permissionNames,
                      permissionNames, present);
      forall n ensures n in present <==> HasPermission(permissions, n) {
        if n in present {
          var k :| 0 <= k < |permissions| && Column(permissions, PermissionName)[k] == n;
        }
        if HasPermission(permissions, n) {
          var k :| 0 <= k < |permissions| && permissions[k].name == n;
          assert Column(permissions, PermissionName)[k] == n;
        }
      }
      if forall n :: n in permissionNames ==> HasPermission(permissions, n) {
        assert Elems(permissionNames) <= present;
      }
      if Elems(permissionNames) <= present {
        forall n | n in permissionNames ensures HasPermission(permissions, n) {
          assert n in Elems(permissionNames);
        }
      }
    }
  }

  // ---------------------------------------------------------------------
  // The seeded roles (create_basic_roles)
  // ---------------------------------------------------------------------

  const ModeratorPermissions: seq<string> := [
    "view_animals", "view_events", "create_events", "update_events",
    "delete_events", "update_animals", "delete_animals"]

  const HandlerPermissions: seq<string> := [
    "view_animals", "checkout_animals", "checkin_animals", "view_events",
    "add_animal_health_log"]

  const VisitorPermissions: seq<string> := ["view_animals", "view_events"]

  /** The roles table after `create_basic_roles`: nothing when an "admin"
      role exists; otherwise admin, moderator, handler and visitor are
      created in turn, and the first failure stops the sequence (roles
      already created stay). */
  function BasicRoles(roles: seq<Role>, permissions: seq<Permission>): (Outcome, seq<Role>) {
    if GetRole(roles, "admin").Some? then (Pass, roles)
    else
      match RoleCreated(roles, permissions, "admin", PermissionNames)
      case Err(f) => (Fail(f), roles)
      case Ok(r1) =>
        match RoleCreated(r1, permissions, "moderator", ModeratorPermissions)
        case Err(f) => (Fail(f), r1)
        case Ok(r2) =>
          match RoleCreated(r2, permissions, "handler", HandlerPermissions)
          case Err(f) => (Fail(f), r2)
          case Ok(r3) =>
            match RoleCreated(r3, permissions, "visitor", VisitorPermissions)
            case Err(f) => (Fail(f), r3)
            case Ok(r4) => (Pass, r4)
  }

  method CreateBasicRoles(db: Store) returns (out: Outcome)
    modifies db`roles
    ensures (out, db.roles) == BasicRoles(old(db.roles), db.permissions)
  {
    if GetRole(db.roles, "admin").Some? {
      return Pass;
    }
    out := CreateRole(db, "admin", PermissionNames);
    if out.Fail? {
      return;
    }
    out := CreateRole(db, "moderator", ModeratorPermissions);
    if out.Fail? {
      return;
    }
    out := CreateRole(db, "handler", HandlerPermissions);
    if out.Fail? {
      return;
    }
    out := CreateRole(db, "visitor", VisitorPermissions);
  }

  /** Seeding the roles a second time changes nothing. */
  lemma BasicRolesOnce(roles: seq<Role>, permissions: seq<Permission>)
    requires GetRole(roles, "admin").Some?
    ensures BasicRoles(roles, permissions) == (Pass, roles)
  {
  }

  /** The seeded catalogue has unique names and holds every catalogue name. */
  lemma CatalogueFacts()
    ensures NamesUnique(CatalogueRows())
    ensures forall n :: HasPermission(CatalogueRows(), n) <==> n in PermissionNames
  {
    var c := CatalogueRows();
    PermissionNamesDistinct();
    assert Column(c, PermissionName) == PermissionNames;
    forall n ensures HasPermission(c, n) <==> n in PermissionNames {
      if HasPermission(c, n) {
        var i :| 0 <= i < |c| && c[i].name == n;
        assert PermissionNames[i] == n;
      }
      if n in PermissionNames {
        var i :| 0 <= i < |PermissionNames| && PermissionNames[i] == n;
        assert c[i].name == n;
      }
    }
  }

  /** Over a table with unique names that holds every requested name, the
      lookup finds one row per name and nothing else. */
  lemma RolePermissionsExact(c: seq<Permission>, names: seq<string>)
    requires NamesUnique(c)
    requires names != [] && Distinct(names)
    requires forall n :: n in names ==> HasPermission(c, n)
    ensures var r := GetPermissions(c, Some(names));
      |r| == |names| && forall n :: HasPermission(r, n) <==> n in names
  {
    var r := GetPermissions(c, Some(names));
    CreateRoleCountCheck([], c, "", names);
    forall n ensures HasPermission(r, n) <==> n in names {
      if n in names {
        var k :| 0 <= k < |c| && c[k].name == n;
        assert c[k] in r;
        var m :| 0 <= m < |r| && r[m] == c[k];
      }
    }
  }

  /** The three fixed lists name catalogue permissions, each once. */
  lemma BasicListsValid()
    ensures Distinct(ModeratorPermissions) && forall n :: n in ModeratorPermissions ==> n in PermissionNames
    ensures Distinct(HandlerPermissions) && forall n :: n in HandlerPermissions ==> n in PermissionNames
    ensures Distinct(VisitorPermissions) && forall n :: n in VisitorPermissions ==> n in PermissionNames
  {
  }

  /** A permission table with unique names holding the whole catalogue, as
      `create_permissions` leaves an empty one. */
  predicate CatalogueStored(permissions: seq<Permission>) {
    NamesUnique(permissions) && forall n :: n in PermissionNames ==> HasPermission(permissions, n)
  }

  /** Creating a new role over a table holding the catalogue. */
  lemma RoleCreatedOnCatalogue(roles: seq<Role>, permissions: seq<Permission>, name: string, names: seq<string>)
    requires CatalogueStored(permissions)
    requires GetRole(roles, name).None?
    requires names != [] && Distinct(names)
    requires forall n :: n in names ==> n in PermissionNames
    ensures RoleCreated(roles, permissions, name, names)
         == Ok(roles + [Role(name, GetPermissions(permissions, Some(names)))])
  {
    RolePermissionsExact(permissions, names);
  }

  /** The four roles `create_basic_roles` creates, in order. */
  function SeededRoles(permissions: seq<Permission>): seq<Role> {
    [Role("admin", GetPermissions(permissions, Some(PermissionNames))),
     Role("moderator", GetPermissions(permissions, Some(ModeratorPermissions))),
     Role("handler", GetPermissions(permissions, Some(HandlerPermissions))),
     Role("visitor", GetPermissions(permissions, Some(VisitorPermissions)))]
  }

  lemma AdminStep(permissions: seq<Permission>)
    requires CatalogueStored(permissions)
    ensures RoleCreated([], permissions, "admin", PermissionNames) == Ok(SeededRoles(permissions)[..1])
  {
    PermissionNamesDistinct();
    RoleCreatedOnCatalogue([], permissions, "admin", PermissionNames);
    var r := SeededRoles(permissions);
    assert [] + [r[0]] == r[..1];
  }

  lemma ModeratorStep(permissions: seq<Permission>)
    requires CatalogueStored(permissions)
    ensures RoleCreated(SeededRoles(permissions)[..1], permissions, "moderator", ModeratorPermissions)
         == Ok(SeededRoles(permissions)[..2])
  {
    BasicListsValid();
    var r := SeededRoles(permissions);
    RoleCreatedOnCatalogue(r[..1], permissions, "moderator", ModeratorPermissions);
    assert r[..1] + [r[1]] == r[..2];
  }

  lemma HandlerStep(permissions: seq<Permission>)
    requires CatalogueStored(permissions)
    ensures RoleCreated(SeededRoles(permissions)[..2], permissions, "handler", HandlerPermissions)
         == Ok(SeededRoles(permissions)[..3])
  {
    BasicListsValid();
    var r := SeededRoles(permissions);
    RoleCreatedOnCatalogue(r[..2], permissions, "handler", HandlerPermissions);
    assert r[..2] + [r[2]] == r[..3];
  }

  lemma VisitorStep(permissions: seq<Permission>)
    requires CatalogueStored(permissions)
    ensures RoleCreated(SeededRoles(permissions)[..3], permissions, "visitor", VisitorPermissions)
         == Ok(SeededRoles(permissions))
  {
    BasicListsValid();
    var r := SeededRoles(permissions);
    RoleCreatedOnCatalogue(r[..3], permissions, "visitor", VisitorPermissions);
    assert r[..3] + [r[3]] == r;
  }

  /** On a database without roles whose permission table holds the
      catalogue, the four roles are created in order. */
  lemma BasicRolesOnSeededTable(permissions: seq<Permission>)
    requires CatalogueStored(permissions)
    ensures BasicRoles([], permissions) == (Pass, SeededRoles(permissions))
  {
    AdminStep(permissions);
    ModeratorStep(permissions);
    HandlerStep(permissions);
    VisitorStep(permissions);
  }

  /** The admin role holds every catalogue permission, the moderator its
      seven, the handler exactly its five and the visitor only the two
      viewing permissions, one row per name. */
  lemma SeededRoleContents(permissions: seq<Permission>)
    requires CatalogueStored(permissions)
    ensures var r := SeededRoles(permissions);
      && |r[0].permissions| == 26 && (forall n :: HasPermission(r[0].permissions, n) <==> n in PermissionNames)
      && |r[1].permissions| == 7 && (forall n :: HasPermission(r[1].permissions, n) <==> n in ModeratorPermissions)
      && |r[2].permissions| == 5 && (forall n :: HasPermission(r[2].permissions, n) <==> n in HandlerPermissions)
      && |r[3].permissions| == 2 && (forall n :: HasPermission(r[3].permissions, n) <==> n in VisitorPermissions)
  {
    AdminContents(permissions);
    FixedRoleContents(permissions, ModeratorPermissions);
    FixedRoleContents(permissions, HandlerPermissions);
    FixedRoleContents(permissions, VisitorPermissions);
  }

  lemma AdminContents(permissions: seq<Permission>)
    requires CatalogueStored(permissions)
    ensures var a := GetPermissions(permissions, Some(PermissionNames));
      |a| == |PermissionNames| && forall n :: HasPermission(a, n) <==> n in PermissionNames
  {
    PermissionNamesDistinct();
    RolePermissionsExact(permissions, PermissionNames);
  }

  lemma FixedRoleContents(permissions: seq<Permission>, names: seq<string>)
    requires CatalogueStored(permissions)
    requires names in {ModeratorPermissions, HandlerPermissions, VisitorPermissions}
    ensures var a := GetPermissions(permissions, Some(names));
      |a| == |names| && forall n :: HasPermission(a, n) <==> n in names
  {
    BasicListsValid();
    RolePermissionsExact(permissions, names);
  }

  /** Seeding the catalogue into an empty table satisfies the premise above. */
  lemma SeededCatalogueStored()
    ensures CatalogueStored(Seeded([]))
  {
    SeedingIsIdempotent([]);
  }
}
