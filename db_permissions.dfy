/** The permission catalogue and its lookups (backend/db/permissions.py). */
module DbPermissions {
  import opened Base
  import opened Models
  import opened Session

  /** The literals of `PermissionType`, in declaration order. */
  const PermissionNames: seq<string> := [
    "create_events", "update_events", "delete_events", "view_events",
    "add_animal", "checkout_animals", "checkin_animals", "view_animals",
    "update_animals", "delete_animals", "update_user_tier", "update_user_role",
    "update_user_group", "add_animal_health_log", "create_group", "create_event_type",
    "update_event_type", "delete_event_type", "update_group", "create_reports",
    "make_animal_unavailable", "make_animal_available", "delete_users", "create_zoo",
    "update_zoo", "delete_zoo"]

  /** The catalogue has 26 names and none is listed twice. */
  lemma PermissionNamesDistinct()
    ensures |PermissionNames| == 26
    ensures Distinct(PermissionNames)
  {
  }

  function PermissionName(p: Permission): string {
    p.name
  }

  /** `has_permission`: Python's `any()` over the list. */
  function HasPermission(userPermissions: seq<Permission>, permission: string): (b: bool)
    ensures b <==> exists i :: 0 <= i < |userPermissions| && userPermissions[i].name == permission
    ensures userPermissions == [] ==> !b
  {
    if userPermissions == [] then false
    else userPermissions[0].name == permission || HasPermission(userPermissions[1..], permission)
  }

  /** `get_permissions`: an absent or empty name list is falsy and selects
      every permission; otherwise only the named ones, in stored order. */
  function GetPermissions(permissions: seq<Permission>, names: Option<seq<string>>): (r: seq<Permission>)
    ensures names.None? || names.value == [] ==> r == permissions
    ensures names.Some? && names.value != [] ==>
      forall i :: 0 <= i < |r| ==> r[i] in permissions && r[i].name in names.value
    ensures names.Some? && names.value != [] ==>
      forall i :: 0 <= i < |permissions| && permissions[i].name in names.value ==> permissions[i] in r
  {
    if names.None? || names.value == [] then permissions
    else Filter(permissions, (p: Permission) => p.name in names.value)
  }

  // ---------------------------------------------------------------------
  // Seeding the catalogue (create_permissions)
  // ---------------------------------------------------------------------

  /** One row per catalogue name. */
  function CatalogueRows(): (r: seq<Permission>)
    ensures |r| == |PermissionNames|
    ensures forall i :: 0 <= i < |r| ==> r[i].name == PermissionNames[i]
  {
    seq(|PermissionNames|, i requires 0 <= i < |PermissionNames| => Permission(PermissionNames[i]))
  }

  predicate NamesUnique(ps: seq<Permission>) {
    Distinct(Column(ps, PermissionName))
  }

  /** Some stored permission already carries a catalogue name. */
  predicate CatalogueClash(ps: seq<Permission>) {
    exists i :: 0 <= i < |ps| && ps[i].name in PermissionNames
  }

  /** The table after `create_permissions`: the batch of 26 rows is
      committed at once, and the unique index on `name` refuses the whole
      batch when any of its names is already stored. */
  function Seeded(ps: seq<Permission>): seq<Permission> {
    if CatalogueClash(ps) then ps else ps + CatalogueRows()
  }

  method CreatePermissions(db: Store)
    modifies db`permissions
    ensures db.permissions == Seeded(old(db.permissions))
  {
    var batch: seq<Permission> := [];
    for i := 0 to |PermissionNames|
      invariant batch == CatalogueRows()[..i]
    {
      batch := batch + [Permission(PermissionNames[i])];
    }
    assert batch == CatalogueRows();
    var clash := false;
    for k := 0 to |db.permissions|
      invariant clash <==> exists j :: 0 <= j < k && db.permissions[j].name in PermissionNames
    {
      if db.permissions[k].name in PermissionNames {
        clash := true;
      }
    }
    if !clash {
      db.permissions := db.permissions + batch;
    }
  }

  /** Seeding keeps names unique, and seeding a second time changes
      nothing. */
  lemma SeedingIsIdempotent(ps: seq<Permission>)
    requires NamesUnique(ps)
    ensures NamesUnique(Seeded(ps))
    ensures Seeded(Seeded(ps)) == Seeded(ps)
    ensures !CatalogueClash(ps) ==> forall n :: n in PermissionNames ==> HasPermission(Seeded(ps), n)
  {
    PermissionNamesDistinct();
    var c := CatalogueRows();
    if !CatalogueClash(ps) {
      var s := ps + c;
      forall i, j | 0 <= i < j < |s| ensures s[i].name != s[j].name {
        if j >= |ps| && i < |ps| {
          assert s[j].name == PermissionNames[j - |ps|];
        } else if i >= |ps| {
          assert s[i].name == PermissionNames[i - |ps|];
          assert s[j].name == PermissionNames[j - |ps|];
        } else {
          assert Column(ps, PermissionName)[i] != Column(ps, PermissionName)[j];
        }
      }
      assert s[|ps|].name in PermissionNames;
      forall n | n in PermissionNames ensures HasPermission(s, n) {
        var k :| 0 <= k < |PermissionNames| && PermissionNames[k] == n;
        assert s[|ps| + k].name == n;
      }
    }
  }
}
