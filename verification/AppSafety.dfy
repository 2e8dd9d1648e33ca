/** No administration locks everybody out: the authorization invariants over all runs. */
module AppSafety {
  import opened Results
  import opened Sequences
  import opened AppModel

  // ------------------------------------------------------- the two queries

  /** The permission list of a user and the counting queries agree on who has what. */
  lemma ListMatchesCounts(s: State, u: Id, path: Path)
    ensures path in PermissionsOf(s, u) <==> Has(s, u, path)
  {
    if path in PermissionsOf(s, u) {
      var p :| p in s.catalogue && s.catalogue[p].enabled && (IsSuperadmin(s, u) || GrantedTo(s, u, p))
          && s.catalogue[p].path == path;
      if IsSuperadmin(s, u) {
        var m :| m in s.memberships && m.user == u && EnabledRole(s, m.role) && s.roles[m.role].code == SUPERADMIN;
        assert RoleGives(s, m.role, path);
      } else {
        var m :| m in s.memberships && m.user == u && EnabledRole(s, m.role) && Grant(m.role, p) in s.grants;
        assert Grant(m.role, p).role == m.role;
        assert RoleGives(s, m.role, path);
      }
    }
    if Has(s, u, path) {
      var m :| m in s.memberships && m.user == u && RoleGives(s, m.role, path);
      if !(s.roles[m.role].code == SUPERADMIN && Listed(s, path)) {
        var g :| g in s.grants && g.role == m.role && g.permission in s.catalogue
              && s.catalogue[g.permission].enabled && s.catalogue[g.permission].path == path;
        assert Grant(m.role, g.permission) == g;
        assert GrantedTo(s, u, g.permission);
      } else {
        assert IsSuperadmin(s, u);
      }
    }
  }

  /** Nobody holds a path that the catalogue does not enable. */
  lemma HasIsListed(s: State, u: Id, path: Path)
    requires Has(s, u, path)
    ensures Listed(s, path)
  {
  }

  // --------------------------------------------------- counts before a write

  /** The count taken before a user is disabled is the number of administrators left afterwards. */
  lemma DisableUserCount(s: State, u: Id, path: Path)
    requires u in s.users
    ensures var after := s.(users := s.users[u := s.users[u].(enabled := false, revision := s.users[u].revision + 1)]);
            OthersWith(s, path, u) == UsersWith(after, path)
  {
    var after := s.(users := s.users[u := s.users[u].(enabled := false, revision := s.users[u].revision + 1)]);
    forall x
      ensures Has(after, x, path) <==> Has(s, x, path)
    {
      SameRoles(s, after, x, path);
    }
  }

  ghost predicate SameGrants(s: State, after: State) {
    && after.catalogue == s.catalogue && after.grants == s.grants
    && after.roles.Keys == s.roles.Keys
    && forall r ::
         r in s.roles ==> after.roles[r].code == s.roles[r].code && after.roles[r].enabled == s.roles[r].enabled
  }

  /** Whether a user holds a path depends on roles and links only. */
  lemma SameRoles(s: State, after: State, u: Id, path: Path)
    requires SameGrants(s, after)
    requires forall m: Membership :: m.user == u ==> (m in after.memberships <==> m in s.memberships)
    ensures Has(after, u, path) <==> Has(s, u, path)
  {
    forall r
      ensures RoleGives(after, r, path) <==> RoleGives(s, r, path)
    {
    }
    hide RoleGives;
  }

  /** The count taken before a role is disabled is the number of administrators left afterwards. */
  lemma DisableRoleCount(s: State, r: Id, path: Path)
    requires r in s.roles
    ensures var after := s.(roles := s.roles[r := s.roles[r].(enabled := false, revision := s.roles[r].revision + 1)]);
            UsersWithoutRole(s, path, r) == UsersWith(after, path)
  {
    var after := s.(roles := s.roles[r := s.roles[r].(enabled := false, revision := s.roles[r].revision + 1)]);
    forall x
      ensures RoleGives(after, x, path) <==> x != r && RoleGives(s, x, path)
    {
    }
    hide RoleGives;
    forall u
      ensures Has(after, u, path) <==> HasWithout(s, u, path, Some(r))
    {
    }
  }

  // ------------------------------------------------------------ invariants

  /** What the enabled permissions linked to a role give. */
  function LinkedPaths(s: State, r: Id): set<Path> {
    set g | g in s.grants && g.role == r && g.permission in s.catalogue && s.catalogue[g.permission].enabled
      :: s.catalogue[g.permission].path
  }

  ghost predicate RoleInv(s: State, r: Id) {
    && (r in s.roles && s.roles[r].code == SUPERADMIN ==> forall g :: g in s.grants ==> g.role != r)
    && Closed(LinkedPaths(s, r))
  }

  ghost predicate Issued(s: State) {
    && s.nextId >= 1
    && (forall u :: u in s.users ==> u < s.nextId)
    && (forall r :: r in s.roles ==> r < s.nextId)
    && (forall m :: m in s.memberships ==> m.user in s.users && m.role in s.roles)
    && (forall g :: g in s.grants ==> g.role in s.roles && g.permission in s.catalogue)
    && (forall a, b :: a in s.roles && b in s.roles && s.roles[a].code == s.roles[b].code ==> a == b)
    && (forall a, b :: a in s.users && b in s.users && s.users[a].username == s.users[b].username ==> a == b)
  }

  /** Somebody enabled can administer roles, as far as the catalogue lets anyone. */
  ghost predicate Administered(s: State) {
    s.users != map[] && Listed(s, ROLE_SAVE) ==> UsersWith(s, ROLE_SAVE) != {}
  }

  ghost predicate AllCanSignOut(s: State) {
    forall u :: u in s.users && s.users[u].enabled ==> Has(s, u, SIGNOUT)
  }

  ghost predicate Inv(s: State) {
    Issued(s) && Administered(s) && AllCanSignOut(s) && forall r :: RoleInv(s, r)
  }

  lemma GloballySafeMeans(s: State)
    ensures GloballySafe(s) <==> UsersWith(s, ROLE_SAVE) != {} && AllCanSignOut(s)
  {
    hide Has;
    assert |UsersMissing(s, SIGNOUT)| == 0 <==> UsersMissing(s, SIGNOUT) == {};
    if AllCanSignOut(s) {
      assert UsersMissing(s, SIGNOUT) == {};
    } else {
      var u :| u in s.users && s.users[u].enabled && !Has(s, u, SIGNOUT);
      assert u in UsersMissing(s, SIGNOUT);
    }
  }

  // ---------------------------------------------------------- preservation

  /** Where users and roles keep what they gave and had, both safety conditions are kept. */
  lemma SafetyKept(s: State, after: State)
    requires Administered(s) && AllCanSignOut(s)
    requires after.catalogue == s.catalogue && s.users != map[]
    requires forall u, path :: u in s.users && Has(s, u, path) ==> Has(after, u, path)
    requires forall u :: u in s.users ==> u in after.users && after.users[u].enabled == s.users[u].enabled
    requires forall u :: u in after.users && u !in s.users && after.users[u].enabled ==> Has(after, u, SIGNOUT)
    ensures Administered(after) && AllCanSignOut(after)
  {
    hide Has;
    if Listed(after, ROLE_SAVE) {
      assert Listed(s, ROLE_SAVE);
      var u :| u in UsersWith(s, ROLE_SAVE);
      assert u in UsersWith(after, ROLE_SAVE);
    }
  }

  lemma BootstrapKeepsInv(s: State, username: string)
    requires Inv(s) && Bootstrap(s, username).Ok?
    ensures Inv(Bootstrap(s, username).value)
  {
    hide RoleInv, HasWithout, PermissionsOf;
    var after := Bootstrap(s, username).value;
    var r, u := s.nextId, s.nextId + 1;
    ListMatchesCounts(after, u, SIGNOUT);
    if Listed(after, ROLE_SAVE) {
      SuperadminHas(after, u, r, ROLE_SAVE);
      assert u in UsersWith(after, ROLE_SAVE);
    }
    RolesKept(s, after, r);
  }

  lemma SuperadminHas(s: State, u: Id, r: Id, path: Path)
    requires Membership(u, r) in s.memberships && EnabledRole(s, r) && s.roles[r].code == SUPERADMIN && Listed(s, path)
    ensures Has(s, u, path)
  {
    assert RoleGives(s, Membership(u, r).role, path);
  }

  /** Role permissions stay sound while their links and codes do, a new role without links included. */
  lemma RolesKept(s: State, after: State, r: Id)
    requires forall x :: RoleInv(s, x)
    requires after.catalogue == s.catalogue && after.grants == s.grants && after.roles.Keys == s.roles.Keys + {r}
    requires forall x :: x in s.roles ==> after.roles[x].code == s.roles[x].code
    requires r in s.roles || forall g :: g in s.grants ==> g.role != r
    ensures forall x :: RoleInv(after, x)
  {
    hide Closed;
    forall x
      ensures RoleInv(after, x)
    {
      assert RoleInv(s, x);
      assert LinkedPaths(after, x) == LinkedPaths(s, x);
    }
  }

  lemma CreateUserKeepsInv(s: State, username: string, roles: set<Id>)
    requires Inv(s) && s.users != map[] && CreateUser(s, username, roles).Ok?
    ensures Inv(CreateUser(s, username, roles).value)
  {
    hide RoleInv, HasWithout, PermissionsOf, Administered, AllCanSignOut;
    var after := CreateUser(s, username, roles).value;
    var u := s.nextId;
    ListMatchesCounts(after, u, SIGNOUT);
    forall x, path | x in s.users
      ensures Has(after, x, path) <==> Has(s, x, path)
    {
      SameRoles(s, after, x, path);
    }
    SafetyKept(s, after);
    SameLinks(s, after);
  }

  lemma SameLinks(s: State, after: State)
    requires forall x :: RoleInv(s, x)
    requires SameGrants(s, after)
    ensures forall x :: RoleInv(after, x)
  {
    hide Closed;
    forall x
      ensures RoleInv(after, x)
    {
      assert RoleInv(s, x);
      assert LinkedPaths(after, x) == LinkedPaths(s, x);
    }
  }

  lemma SaveUserKeepsInv(s: State, u: Id, revision: nat, roles: set<Id>)
    requires Inv(s) && SaveUser(s, u, revision, roles).Ok?
    ensures Inv(SaveUser(s, u, revision, roles).value)
  {
    hide RoleInv, HasWithout, PermissionsOf, Administered, AllCanSignOut, GloballySafe;
    var after := SaveUser(s, u, revision, roles).value;
    SafeIsAdministered(after);
    SameLinks(s, after);
  }

  lemma SafeIsAdministered(s: State)
    requires GloballySafe(s)
    ensures Administered(s) && AllCanSignOut(s)
  {
    hide HasWithout;
    GloballySafeMeans(s);
  }

  lemma SetUserStatusKeepsInv(s: State, u: Id, revision: nat, enabled: bool)
    requires Inv(s) && SetUserStatus(s, u, revision, enabled).Ok?
    ensures Inv(SetUserStatus(s, u, revision, enabled).value)
  {
    hide RoleInv, HasWithout, PermissionsOf;
    var after := SetUserStatus(s, u, revision, enabled).value;
    forall x, path
      ensures Has(after, x, path) <==> Has(s, x, path)
    {
      SameRoles(s, after, x, path);
    }
    if enabled {
      ListMatchesCounts(s, u, SIGNOUT);
      if Listed(after, ROLE_SAVE) {
        var x :| x in UsersWith(s, ROLE_SAVE);
        assert x in UsersWith(after, ROLE_SAVE);
      }
    } else {
      DisableUserCount(s, u, ROLE_SAVE);
    }
    SameLinks(s, after);
  }

  /** Replacing the links of one role with a valid set, or with nothing, keeps every role sound. */
  lemma LinksReplaced(s: State, after: State, r: Id, permissions: set<Id>)
    requires forall x :: RoleInv(s, x)
    requires after.catalogue == s.catalogue && after.grants == WithPermissions(s, r, permissions)
    requires after.roles.Keys == s.roles.Keys + {r}
    requires forall x :: x in s.roles ==> after.roles[x].code == s.roles[x].code
    requires if after.roles[r].code == SUPERADMIN then permissions == {} else ValidPermissions(s, permissions)
    ensures forall x :: RoleInv(after, x)
  {
    forall x
      ensures RoleInv(after, x)
    {
      assert RoleInv(s, x);
      hide ReadPath;
      if x == r {
        LinkedAre(s, after, r, permissions);
      } else {
        assert LinkedPaths(after, x) == LinkedPaths(s, x);
      }
    }
  }

  lemma LinkedAre(s: State, after: State, r: Id, permissions: set<Id>)
    requires after.catalogue == s.catalogue && after.grants == WithPermissions(s, r, permissions)
    ensures LinkedPaths(after, r) == PathsOf(s, permissions)
  {
    forall path | path in PathsOf(s, permissions)
      ensures path in LinkedPaths(after, r)
    {
      var p :| p in permissions && p in s.catalogue && s.catalogue[p].enabled && s.catalogue[p].path == path;
      assert Grant(r, p) in after.grants && Grant(r, p).role == r;
    }
  }

  lemma CreateRoleKeepsInv(s: State, code: string, permissions: set<Id>)
    requires Inv(s) && s.users != map[] && CreateRole(s, code, permissions).Ok?
    ensures Inv(CreateRole(s, code, permissions).value)
  {
    hide RoleInv, Administered, AllCanSignOut, ValidSegment, RoleGives;
    var after := CreateRole(s, code, permissions).value;
    forall r, path | r in s.roles
      ensures RoleGives(after, r, path) <==> RoleGives(s, r, path)
    {
      OtherRoleGives(s, after, s.nextId, permissions, r, path);
    }
    forall u, path
      ensures Has(s, u, path) ==> Has(after, u, path)
    {
    }
    SafetyKept(s, after);
    LinksReplaced(s, after, s.nextId, permissions);
  }

  lemma OtherRoleGives(s: State, after: State, r: Id, permissions: set<Id>, x: Id, path: Path)
    requires after.catalogue == s.catalogue && after.grants == WithPermissions(s, r, permissions)
    requires x != r && x in s.roles && x in after.roles && after.roles[x] == s.roles[x]
    ensures RoleGives(after, x, path) <==> RoleGives(s, x, path)
  {
  }

  lemma SaveRoleKeepsInv(s: State, r: Id, revision: nat, permissions: set<Id>)
    requires Inv(s) && SaveRole(s, r, revision, permissions).Ok?
    ensures Inv(SaveRole(s, r, revision, permissions).value)
  {
    hide RoleInv, HasWithout, Administered, AllCanSignOut, GloballySafe, ValidPermissions;
    var after := SaveRole(s, r, revision, permissions).value;
    SafeIsAdministered(after);
    LinksReplaced(s, after, r, if s.roles[r].code == SUPERADMIN then {} else permissions);
    LinksExist(s, r, revision, permissions);
  }

  lemma LinksExist(s: State, r: Id, revision: nat, permissions: set<Id>)
    requires Issued(s) && SaveRole(s, r, revision, permissions).Ok?
    ensures Issued(SaveRole(s, r, revision, permissions).value)
  {
    hide GloballySafe, ReadPath, PathsOf;
  }

  lemma SetRoleStatusKeepsInv(s: State, r: Id, revision: nat, enabled: bool)
    requires Inv(s) && SetRoleStatus(s, r, revision, enabled).Ok?
    ensures Inv(SetRoleStatus(s, r, revision, enabled).value)
  {
    hide RoleInv, HasWithout, Administered, AllCanSignOut, GloballySafe, UsersWithoutRole;
    var after := SetRoleStatus(s, r, revision, enabled).value;
    SafeIsAdministered(after);
    assert after.roles.Keys == s.roles.Keys + {r};
    RolesKept(s, after, r);
  }

  lemma StepKeepsInv(s: State, q: Request)
    requires Inv(s)
    ensures Inv(Next(s, q))
  {
    hide Inv, Bootstrap, CreateUser, SaveUser, SetUserStatus, CreateRole, SaveRole, SetRoleStatus, PermissionsOf;
    if Step(s, q).Ok? {
      match q.action
      case BootstrapAction(username) => BootstrapKeepsInv(s, username);
      case CreateUserAction(username, roles) => CreateUserKeepsInv(s, username, roles);
      case SaveUserAction(user, revision, roles) => SaveUserKeepsInv(s, user, revision, roles);
      case SetUserStatusAction(user, revision, enabled) => SetUserStatusKeepsInv(s, user, revision, enabled);
      case CreateRoleAction(code, permissions) => CreateRoleKeepsInv(s, code, permissions);
      case SaveRoleAction(role, revision, permissions) => SaveRoleKeepsInv(s, role, revision, permissions);
      case SetRoleStatusAction(role, revision, enabled) => SetRoleStatusKeepsInv(s, role, revision, enabled);
    }
  }

  lemma {:induction false} RunKeepsInv(catalogue: map<Id, Permission>, requests: seq<Request>)
    ensures Inv(Run(Installed(catalogue), requests))
    ensures Run(Installed(catalogue), requests).catalogue == catalogue
  {
    hide Inv, Step;
    if |requests| != 0 {
      var before := Run(Installed(catalogue), requests[..|requests| - 1]);
      RunKeepsInv(catalogue, requests[..|requests| - 1]);
      StepKeepsInv(before, requests[|requests| - 1]);
      CatalogueIsFixed(before, requests[|requests| - 1]);
    } else {
      InstalledIsSound(catalogue);
    }
  }

  lemma CatalogueIsFixed(s: State, q: Request)
    ensures Next(s, q).catalogue == s.catalogue
  {
    hide SafeSignout, GloballySafe, ValidPermissions, UsersWithoutRole, OthersWith, Authorized;
  }

  lemma InstalledIsSound(catalogue: map<Id, Permission>)
    ensures Inv(Installed(catalogue))
  {
  }

  // -------------------------------------------------------------- theorems

  /** In every state a run reaches, every enabled user can sign out, and once there are users an enabled one can
      administer roles exactly when the catalogue enables that path at all. */
  lemma NobodyIsLockedOut(catalogue: map<Id, Permission>, requests: seq<Request>)
    requires Run(Installed(catalogue), requests).users != map[]
    ensures var s := Run(Installed(catalogue), requests);
            && (forall u :: u in s.users && s.users[u].enabled ==> SIGNOUT in PermissionsOf(s, u))
            && ((exists u :: u in s.users && s.users[u].enabled && ROLE_SAVE in PermissionsOf(s, u))
                <==> Listed(Installed(catalogue), ROLE_SAVE))
  {
    hide Run, RoleInv, HasWithout, PermissionsOf, Issued;
    RunKeepsInv(catalogue, requests);
    var s := Run(Installed(catalogue), requests);
    forall u, path: Path
      ensures path in PermissionsOf(s, u) <==> Has(s, u, path)
    {
      ListMatchesCounts(s, u, path);
    }
    if Listed(s, ROLE_SAVE) {
      var u :| u in UsersWith(s, ROLE_SAVE);
      assert ROLE_SAVE in PermissionsOf(s, u);
    }
    if u :| u in s.users && s.users[u].enabled && ROLE_SAVE in PermissionsOf(s, u) {
      HasIsListed(s, u, ROLE_SAVE);
    }
  }

  /** Once an administrator exists, the administrator count refuses nothing that the first check let through: only
      a user left without signout stops the disabling of a role. */
  lemma RoleDisabledExactly(s: State, r: Id, revision: nat)
    requires revision >= 1 && r in s.roles && s.roles[r].revision == revision && s.roles[r].enabled
    ensures var after := s.(roles := s.roles[r := s.roles[r].(enabled := false, revision := revision + 1)]);
            SetRoleStatus(s, r, revision, false).Ok?
            <==> UsersWithoutRole(s, ROLE_SAVE, r) != {} && AllCanSignOut(after)
  {
    hide HasWithout, AllCanSignOut;
    DisableRoleCount(s, r, ROLE_SAVE);
    GloballySafeMeans(s.(roles := s.roles[r := s.roles[r].(enabled := false, revision := revision + 1)]));
  }

  /** The permissions of a stored role are closed under "an action needs its read action", and so is whatever a user
      without the wildcard role holds. */
  lemma EffectiveSetIsClosed(catalogue: map<Id, Permission>, requests: seq<Request>, u: Id)
    requires !IsSuperadmin(Run(Installed(catalogue), requests), u)
    ensures Closed(PermissionsOf(Run(Installed(catalogue), requests), u))
  {
    RunKeepsInv(catalogue, requests);
    UnionIsClosed(Run(Installed(catalogue), requests), u);
  }

  lemma UnionIsClosed(s: State, u: Id)
    requires Inv(s) && !IsSuperadmin(s, u)
    ensures Closed(PermissionsOf(s, u))
  {
    hide ReadPath, Issued, Administered, AllCanSignOut;
    forall path | path in PermissionsOf(s, u) && ReadPath(path).Some?
      ensures ReadPath(path).value in PermissionsOf(s, u)
    {
      var p :| p in s.catalogue && s.catalogue[p].enabled && GrantedTo(s, u, p) && s.catalogue[p].path == path;
      var m :| m in s.memberships && m.user == u && EnabledRole(s, m.role) && Grant(m.role, p) in s.grants;
      assert RoleInv(s, m.role);
      assert Grant(m.role, p).role == m.role && path in LinkedPaths(s, m.role);
      var g :| g in s.grants && g.role == m.role && g.permission in s.catalogue && s.catalogue[g.permission].enabled
            && s.catalogue[g.permission].path == ReadPath(path).value;
      assert Grant(m.role, g.permission) == g;
      assert GrantedTo(s, u, g.permission);
    }
  }

  /** The superadmin role is never stored with permissions of its own, and no other role carries its code. */
  lemma WildcardIsUnique(catalogue: map<Id, Permission>, requests: seq<Request>, r: Id)
    requires var s := Run(Installed(catalogue), requests); r in s.roles && s.roles[r].code == SUPERADMIN
    ensures var s := Run(Installed(catalogue), requests);
            && (forall g :: g in s.grants ==> g.role != r)
            && (forall x :: x in s.roles && s.roles[x].code == SUPERADMIN ==> x == r)
  {
    hide Run, Closed, Administered, AllCanSignOut;
    RunKeepsInv(catalogue, requests);
    assert RoleInv(Run(Installed(catalogue), requests), r);
  }

  // -------------------------------------------------- what requests assign

  function RolesOf(memberships: set<Membership>, u: Id): set<Id> {
    set m | m in memberships && m.user == u :: m.role
  }

  function PermissionIdsOf(grants: set<Grant>, r: Id): set<Id> {
    set g | g in grants && g.role == r :: g.permission
  }

  /** The roles a request asks for. */
  function RolesAsked(s: State, a: Action, u: Id): Option<set<Id>> {
    match a
    case BootstrapAction(_) => if u == s.nextId + 1 then Some({s.nextId}) else None
    case CreateUserAction(_, roles) => if u == s.nextId then Some(roles) else None
    case SaveUserAction(user, _, roles) => if u == user then Some(roles) else None
    case _ => None
  }

  /** The permissions a request asks for; none are kept for the superadmin role. */
  function PermissionsAsked(s: State, a: Action, r: Id): Option<set<Id>> {
    match a
    case CreateRoleAction(_, permissions) => if r == s.nextId then Some(permissions) else None
    case SaveRoleAction(role, _, permissions) =>
      if r != role then None
      else if role in s.roles && s.roles[role].code == SUPERADMIN then Some({})
      else Some(permissions)
    case _ => None
  }

  lemma RolesReplaced(s: State, u: Id, roles: set<Id>, x: Id)
    ensures RolesOf(WithRoles(s, u, roles), x) == if x == u then roles else RolesOf(s.memberships, x)
  {
    var after := WithRoles(s, u, roles);
    forall r | r in roles
      ensures r in RolesOf(after, u)
    {
      assert Membership(u, r) in after && Membership(u, r).role == r;
    }
    forall r | x != u && r in RolesOf(s.memberships, x)
      ensures r in RolesOf(after, x)
    {
      assert Membership(x, r) in after;
    }
  }

  lemma PermissionsReplaced(s: State, r: Id, permissions: set<Id>, x: Id)
    ensures PermissionIdsOf(WithPermissions(s, r, permissions), x)
         == if x == r then permissions else PermissionIdsOf(s.grants, x)
  {
    var after := WithPermissions(s, r, permissions);
    forall p | p in permissions
      ensures p in PermissionIdsOf(after, r)
    {
      assert Grant(r, p) in after && Grant(r, p).permission == p;
    }
    forall p | x != r && p in PermissionIdsOf(s.grants, x)
      ensures p in PermissionIdsOf(after, x)
    {
      assert Grant(x, p) in after;
    }
  }

  /** After a request every user has the roles it asked for, or those before it, and every role the permissions. */
  lemma AssignedAsAsked(s: State, a: Action, u: Id, r: Id)
    requires Perform(s, a).Ok?
    ensures var after := Perform(s, a).value;
            && RolesOf(after.memberships, u)
               == (if RolesAsked(s, a, u).Some? then RolesAsked(s, a, u).value else RolesOf(s.memberships, u))
            && PermissionIdsOf(after.grants, r)
               == (if PermissionsAsked(s, a, r).Some? then PermissionsAsked(s, a, r).value
                   else PermissionIdsOf(s.grants, r))
  {
    hide SafeSignout, GloballySafe, ValidPermissions, ValidRoles, UsersWithoutRole, OthersWith, ValidSegment,
      WithRoles, WithPermissions, RolesOf, PermissionIdsOf;
    match a
    case BootstrapAction(_) => RolesReplaced(s, s.nextId + 1, {s.nextId}, u);
    case CreateUserAction(_, roles) => RolesReplaced(s, s.nextId, roles, u);
    case SaveUserAction(user, _, roles) => RolesReplaced(s, user, roles, u);
    case CreateRoleAction(_, permissions) => PermissionsReplaced(s, s.nextId, permissions, r);
    case SaveRoleAction(role, _, permissions) =>
      PermissionsReplaced(s, role, if s.roles[role].code == SUPERADMIN then {} else permissions, r);
    case _ =>
  }

  // ------------------------------------------------- optimistic concurrency

  /** What a write expects to find, and uses up. */
  datatype Token = UserToken(user: Id, revision: nat) | RoleToken(role: Id, revision: nat)

  function TokenOf(a: Action): Option<Token> {
    match a
    case SaveUserAction(user, revision, _) => Some(UserToken(user, revision))
    case SetUserStatusAction(user, revision, _) => Some(UserToken(user, revision))
    case SaveRoleAction(role, revision, _) => Some(RoleToken(role, revision))
    case SetRoleStatusAction(role, revision, _) => Some(RoleToken(role, revision))
    case _ => None
  }

  ghost predicate Spent(s: State, token: Token) {
    match token
    case UserToken(u, revision) => u < s.nextId && u in s.users && s.users[u].revision > revision
    case RoleToken(r, revision) => r < s.nextId && r in s.roles && s.roles[r].revision > revision
  }

  lemma SpentStays(s: State, q: Request, token: Token)
    requires Spent(s, token)
    ensures Spent(Next(s, q), token)
  {
    hide SafeSignout, GloballySafe, ValidPermissions, ValidRoles, UsersWithoutRole, OthersWith, ValidSegment,
      Authorized, WithRoles, WithPermissions, CodeTaken, UsernameTaken;
  }

  lemma {:induction false} SpentForever(s: State, requests: seq<Request>, token: Token)
    requires Spent(s, token)
    ensures Spent(Run(s, requests), token)
  {
    hide Spent, Next;
    if |requests| != 0 {
      SpentForever(s, requests[..|requests| - 1], token);
      SpentStays(Run(s, requests[..|requests| - 1]), requests[|requests| - 1], token);
    }
  }

  lemma StepSpends(s: State, q: Request)
    requires Issued(s) && Step(s, q).Ok? && TokenOf(q.action).Some?
    ensures Spent(Next(s, q), TokenOf(q.action).value)
  {
    hide SafeSignout, GloballySafe, ValidPermissions, ValidRoles, UsersWithoutRole, OthersWith, ValidSegment,
      Authorized;
  }

  lemma SpentIsRefused(s: State, q: Request, token: Token)
    requires Spent(s, token) && TokenOf(q.action) == Some(token)
    ensures Step(s, q).Err?
  {
    hide SafeSignout, GloballySafe, ValidPermissions, ValidRoles, UsersWithoutRole, OthersWith, ValidSegment,
      Authorized;
  }

  /** A user or role revision that one write used up never lets another write through. */
  lemma RevisionIsUsedOnce(s: State, q: Request, requests: seq<Request>, again: Request)
    requires Inv(s) && Step(s, q).Ok? && TokenOf(q.action).Some? && TokenOf(again.action) == TokenOf(q.action)
    ensures Step(Run(Next(s, q), requests), again).Err?
  {
    hide Step, Next, Run, Spent, TokenOf, RoleInv, Administered, AllCanSignOut;
    var token := TokenOf(q.action).value;
    StepSpends(s, q);
    SpentForever(Next(s, q), requests, token);
    SpentIsRefused(Run(Next(s, q), requests), again, token);
  }

  // ------------------------------------------------------- counts and sets

  lemma {:induction false} DistinctSize<T>(ids: seq<T>)
    requires Distinct(ids)
    ensures |set x | x in ids| == |ids|
  {
    if |ids| != 0 {
      var n := |ids| - 1;
      DistinctSize(ids[..n]);
      assert (set x | x in ids) == (set x | x in ids[..n]) + {ids[n]};
    }
  }

  lemma SubsetOfSameSize<T>(a: set<T>, b: set<T>)
    requires a <= b && |a| == |b|
    ensures a == b
  {
    assert |b| == |a| + |b - a| by {
      assert b == a + (b - a);
    }
    assert b - a == {};
  }

  /** For ids without repetition, as many of them are good as there are ids exactly when all of them are. */
  lemma CountIsSubset<T(!new)>(ids: seq<T>, good: T -> bool, found: set<T>)
    requires Distinct(ids)
    requires forall x :: x in found <==> x in ids && good(x)
    ensures |found| == |ids| <==> forall x :: x in ids ==> good(x)
  {
    DistinctSize(ids);
    var all := set x | x in ids;
    if |found| == |ids| {
      SubsetOfSameSize(found, all);
      assert forall x :: x in ids ==> x in all;
    }
    if forall x :: x in ids ==> good(x) {
      assert found == all;
    }
  }
}
