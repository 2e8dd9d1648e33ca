/** The administration service as it runs: counts, checks and link tables rewritten row by row. */
module AppService {
  import opened Results
  import opened Sequences
  import opened AppModel
  import opened AppSafety

  function IdSet(ids: seq<Id>): set<Id> {
    set x | x in ids
  }

  predicate IdNotAfter(a: Id, b: Id) {
    a <= b
  }

  /** `uniqueStrings`: drops blanks and repetitions, and sorts what is left. */
  method UniqueIds(values: seq<Id>) returns (result: seq<Id>)
    ensures Distinct(result) && Sorted(IdNotAfter, result)
    ensures forall x :: x in result <==> x in values && x != NO_ID
  {
    var kept, seen: set<Id> := [], {};
    for k := 0 to |values|
      invariant forall x :: x in seen <==> x in values[..k] && x != NO_ID
      invariant Distinct(kept) && forall x :: x in kept <==> x in seen
    {
      if values[k] != NO_ID && values[k] !in seen {
        seen := seen + {values[k]};
        kept := kept + [values[k]];
      }
      assert values[..k + 1] == values[..k] + [values[k]];
    }
    assert values[..|values|] == values;
    result := SortBy(IdNotAfter, kept);
    SortBySorts(IdNotAfter, kept);
    DistinctRearranged(kept, result);
    SameElements(result, kept);
  }

  /** `validateRoles`: compares a count of rows with the number of ids asked for. */
  method ValidateRoles(s: State, ids: seq<Id>) returns (ok: bool)
    requires Distinct(ids)
    ensures ok <==> ValidRoles(s, IdSet(ids))
  {
    var found := set r | r in ids && EnabledRole(s, r);
    CountIsSubset(ids, (r: Id) => EnabledRole(s, r), found);
    ok := |found| == |ids|;
  }

  /** `ListAppPermissionPathsByIDs`, for ids that are all enabled. */
  function ListPaths(s: State, ids: seq<Id>): (paths: seq<Path>)
    requires forall i :: 0 <= i < |ids| ==> EnabledPermission(s, ids[i])
    ensures forall path :: path in paths <==> path in PathsOf(s, IdSet(ids))
  {
    if |ids| == 0 then []
    else
      var n := |ids| - 1;
      assert EnabledPermission(s, ids[n]) && IdSet(ids) == IdSet(ids[..n]) + {ids[n]};
      ListPaths(s, ids[..n]) + [s.catalogue[ids[n]].path]
  }

  /** `validatePermissions`: the count first, then every path against the set of paths asked for. */
  method ValidatePermissions(s: State, ids: seq<Id>) returns (ok: bool)
    requires Distinct(ids)
    ensures ok <==> ValidPermissions(s, IdSet(ids))
  {
    var found := set p | p in ids && EnabledPermission(s, p);
    CountIsSubset(ids, (p: Id) => EnabledPermission(s, p), found);
    if |found| != |ids| {
      return false;
    }
    forall i | 0 <= i < |ids|
      ensures EnabledPermission(s, ids[i])
    {
      assert ids[i] in ids;
    }
    var paths := ListPaths(s, ids);
    var pathSet := set path | path in paths;
    for k := 0 to |paths|
      invariant forall path :: path in paths[..k] && ReadPath(path).Some? ==> ReadPath(path).value in pathSet
    {
      var read := ReadPath(paths[k]);
      if read.Some? && read.value !in pathSet {
        assert paths[k] in pathSet;
        return false;
      }
      assert paths[..k + 1] == paths[..k] + [paths[k]];
    }
    assert paths[..|paths|] == paths;
    return true;
  }

  class Directory {
    const catalogue: map<Id, Permission>
    var users: map<Id, Account>
    var roles: map<Id, Role>
    var memberships: set<Membership>
    var grants: set<Grant>
    var nextId: Id

    function Tables(): State
      reads this
    {
      State(catalogue, users, roles, memberships, grants, nextId)
    }

    ghost predicate Valid()
      reads this
    {
      Inv(Tables())
    }

    /** How a transaction ended: the tables hold its result, or what they held before it. */
    ghost predicate Ended(before: State, r: Result<State>, failure: Option<Failure>)
      reads this
    {
      && Tables() == (if r.Ok? then r.value else before)
      && failure == (if r.Ok? then None else Some(r.failure))
    }

    constructor (permissions: map<Id, Permission>)
      ensures Tables() == Installed(permissions) && Valid()
    {
      catalogue := permissions;
      users, roles, memberships, grants, nextId := map[], map[], {}, {}, 1;
      new;
      InstalledIsSound(permissions);
    }

    method Rollback(s: State)
      requires s.catalogue == catalogue
      modifies this
      ensures Tables() == s
    {
      users, roles, memberships, grants, nextId := s.users, s.roles, s.memberships, s.grants, s.nextId;
    }

    /** `replaceUserRoles`: deletes the links of the user and inserts the new ones one at a time. */
    method ReplaceUserRoles(u: Id, ids: seq<Id>)
      modifies this`memberships
      ensures memberships == WithRoles(old(Tables()), u, IdSet(ids))
    {
      memberships := set m | m in memberships && m.user != u;
      ghost var others := memberships;
      for k := 0 to |ids|
        invariant memberships == others + set r | r in ids[..k] :: Membership(u, r)
      {
        memberships := memberships + {Membership(u, ids[k])};
        assert ids[..k + 1] == ids[..k] + [ids[k]];
      }
      assert ids[..|ids|] == ids;
      assert (set r | r in ids :: Membership(u, r)) == set r | r in IdSet(ids) :: Membership(u, r);
    }

    /** `replaceRolePermissions`. */
    method ReplaceRolePermissions(r: Id, ids: seq<Id>)
      modifies this`grants
      ensures grants == WithPermissions(old(Tables()), r, IdSet(ids))
    {
      grants := set g | g in grants && g.role != r;
      ghost var others := grants;
      for k := 0 to |ids|
        invariant grants == others + set p | p in ids[..k] :: Grant(r, p)
      {
        grants := grants + {Grant(r, ids[k])};
        assert ids[..k + 1] == ids[..k] + [ids[k]];
      }
      assert ids[..|ids|] == ids;
      assert (set p | p in ids :: Grant(r, p)) == set p | p in IdSet(ids) :: Grant(r, p);
    }

    method BootstrapAdmin(username: string) returns (failure: Option<Failure>)
      requires Valid()
      modifies this
      ensures Valid()
      ensures Ended(old(Tables()), Bootstrap(old(Tables()), username), failure)
    {
      hide Inv, PermissionsOf;
      var before := Tables();
      StepKeepsInv(before, Request(NO_ID, BootstrapAction(username)));
      if !ValidUsername(username) {
        return Some(Validation);
      }
      if users != map[] || (forall p :: p in catalogue ==> !catalogue[p].enabled) || CodeTaken(before, SUPERADMIN) {
        return Some(Conflict);
      }
      var r, u := nextId, nextId + 1;
      nextId := nextId + 2;
      roles := roles[r := Role(SUPERADMIN, true, 1)];
      users := users[u := Account(username, true, 1)];
      ReplaceUserRoles(u, [r]);
      assert IdSet([r]) == {r};
      if !SafeSignout(Tables(), u) {
        Rollback(before);
        return Some(Validation);
      }
      return None;
    }

    /** The steps below are reached through the authorization check of their path. */
    method CreateUser(actor: Id, username: string, roleIds: seq<Id>) returns (failure: Option<Failure>)
      requires Valid() && Authorized(Tables(), actor, Path("app", "user", "create"))
      modifies this
      ensures Valid()
      ensures Ended(old(Tables()), AppModel.CreateUser(old(Tables()), username, IdSet(roleIds) - {NO_ID}), failure)
    {
      hide Inv, PermissionsOf, ValidRoles;
      var before := Tables();
      StepKeepsInv(before, Request(actor, CreateUserAction(username, IdSet(roleIds) - {NO_ID})));
      var ids := UniqueIds(roleIds);
      assert IdSet(ids) == IdSet(roleIds) - {NO_ID};
      if !ValidUsername(username) || |ids| == 0 {
        return Some(Validation);
      }
      assert ids[0] in IdSet(ids);
      var valid := ValidateRoles(before, ids);
      if !valid {
        return Some(Validation);
      }
      if UsernameTaken(before, username) {
        return Some(Conflict);
      }
      var u := nextId;
      nextId := nextId + 1;
      users := users[u := Account(username, true, 1)];
      ReplaceUserRoles(u, ids);
      if !SafeSignout(Tables(), u) {
        Rollback(before);
        return Some(Validation);
      }
      return None;
    }

    method SaveUser(actor: Id, u: Id, revision: nat, roleIds: seq<Id>) returns (failure: Option<Failure>)
      requires Valid() && Authorized(Tables(), actor, Path("app", "user", "save"))
      modifies this
      ensures Valid()
      ensures Ended(old(Tables()), AppModel.SaveUser(old(Tables()), u, revision, IdSet(roleIds) - {NO_ID}), failure)
    {
      hide Inv, PermissionsOf, ValidRoles, GloballySafe;
      var before := Tables();
      StepKeepsInv(before, Request(actor, SaveUserAction(u, revision, IdSet(roleIds) - {NO_ID})));
      var ids := UniqueIds(roleIds);
      assert IdSet(ids) == IdSet(roleIds) - {NO_ID};
      if revision < 1 || |ids| == 0 {
        return Some(Validation);
      }
      assert ids[0] in IdSet(ids);
      var valid := ValidateRoles(before, ids);
      if !valid {
        return Some(Validation);
      }
      if u !in users {
        return Some(NotFound);
      }
      if users[u].revision != revision {
        return Some(Conflict);
      }
      users := users[u := users[u].(revision := revision + 1)];
      ReplaceUserRoles(u, ids);
      if !SafeSignout(Tables(), u) {
        Rollback(before);
        return Some(Validation);
      }
      if !GloballySafe(Tables()) {
        Rollback(before);
        return Some(Conflict);
      }
      return None;
    }

    method SetUserStatus(actor: Id, u: Id, revision: nat, enabled: bool) returns (failure: Option<Failure>)
      requires Valid() && Authorized(Tables(), actor, PathOf(SetUserStatusAction(u, revision, enabled)).value)
      modifies this
      ensures Valid()
      ensures Ended(old(Tables()), AppModel.SetUserStatus(old(Tables()), u, revision, enabled), failure)
    {
      hide Inv, PermissionsOf, OthersWith;
      StepKeepsInv(Tables(), Request(actor, SetUserStatusAction(u, revision, enabled)));
      if revision < 1 {
        return Some(Validation);
      }
      if !enabled && |OthersWith(Tables(), ROLE_SAVE, u)| == 0 {
        return Some(Conflict);
      }
      if enabled && !SafeSignout(Tables(), u) {
        return Some(Validation);
      }
      if u !in users {
        return Some(NotFound);
      }
      if users[u].revision != revision || users[u].enabled == enabled {
        return Some(Conflict);
      }
      users := users[u := users[u].(enabled := enabled, revision := revision + 1)];
      return None;
    }

    method CreateRole(actor: Id, code: string, permissionIds: seq<Id>) returns (failure: Option<Failure>)
      requires Valid() && Authorized(Tables(), actor, Path("app", "role", "create"))
      modifies this
      ensures Valid()
      ensures Ended(old(Tables()), AppModel.CreateRole(old(Tables()), code, IdSet(permissionIds) - {NO_ID}), failure)
    {
      hide Inv, PermissionsOf, ValidPermissions, ValidSegment;
      StepKeepsInv(Tables(), Request(actor, CreateRoleAction(code, IdSet(permissionIds) - {NO_ID})));
      var ids := UniqueIds(permissionIds);
      assert IdSet(ids) == IdSet(permissionIds) - {NO_ID};
      if !ValidSegment(code) || |code| > MAX_CODE || |ids| == 0 {
        return Some(Validation);
      }
      assert ids[0] in IdSet(ids);
      if code == SUPERADMIN {
        return Some(Validation);
      }
      var valid := ValidatePermissions(Tables(), ids);
      if !valid {
        return Some(Validation);
      }
      if CodeTaken(Tables(), code) {
        return Some(Conflict);
      }
      var r := nextId;
      nextId := nextId + 1;
      roles := roles[r := Role(code, true, 1)];
      ReplaceRolePermissions(r, ids);
      return None;
    }

    method SaveRole(actor: Id, r: Id, revision: nat, permissionIds: seq<Id>) returns (failure: Option<Failure>)
      requires Valid() && Authorized(Tables(), actor, ROLE_SAVE)
      modifies this
      ensures Valid()
      ensures var r := AppModel.SaveRole(old(Tables()), r, revision, IdSet(permissionIds) - {NO_ID});
              Ended(old(Tables()), r, failure)
    {
      hide Inv, PermissionsOf, ValidPermissions, GloballySafe;
      var before := Tables();
      StepKeepsInv(before, Request(actor, SaveRoleAction(r, revision, IdSet(permissionIds) - {NO_ID})));
      var ids := UniqueIds(permissionIds);
      assert IdSet(ids) == IdSet(permissionIds) - {NO_ID};
      if revision < 1 {
        return Some(Validation);
      }
      if r !in roles {
        return Some(NotFound);
      }
      if roles[r].code != SUPERADMIN {
        if |ids| == 0 {
          return Some(Validation);
        }
        assert ids[0] in IdSet(ids);
        var valid := ValidatePermissions(before, ids);
        if !valid {
          return Some(Validation);
        }
      }
      if roles[r].revision != revision {
        return Some(Conflict);
      }
      roles := roles[r := roles[r].(revision := revision + 1)];
      if roles[r].code == SUPERADMIN {
        ReplaceRolePermissions(r, []);
        assert IdSet([]) == {};
      } else {
        ReplaceRolePermissions(r, ids);
      }
      if !GloballySafe(Tables()) {
        Rollback(before);
        return Some(Conflict);
      }
      return None;
    }

    method SetRoleStatus(actor: Id, r: Id, revision: nat, enabled: bool) returns (failure: Option<Failure>)
      requires Valid() && Authorized(Tables(), actor, PathOf(SetRoleStatusAction(r, revision, enabled)).value)
      modifies this
      ensures Valid()
      ensures Ended(old(Tables()), AppModel.SetRoleStatus(old(Tables()), r, revision, enabled), failure)
    {
      hide Inv, PermissionsOf, GloballySafe, UsersWithoutRole;
      var before := Tables();
      StepKeepsInv(before, Request(actor, SetRoleStatusAction(r, revision, enabled)));
      if revision < 1 {
        return Some(Validation);
      }
      if !enabled && |UsersWithoutRole(before, ROLE_SAVE, r)| == 0 {
        return Some(Conflict);
      }
      if r !in roles {
        return Some(NotFound);
      }
      if roles[r].revision != revision || roles[r].enabled == enabled {
        return Some(Conflict);
      }
      roles := roles[r := roles[r].(enabled := enabled, revision := revision + 1)];
      if !GloballySafe(Tables()) {
        Rollback(before);
        return Some(Conflict);
      }
      return None;
    }
  }
}
