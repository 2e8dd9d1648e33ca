/** Users, roles and permissions: the permission queries, the administration steps and their safety checks. */
module AppModel {
  import opened Results
  import opened Sequences

  // --------------------------------------------------------------- tables

  /** A permission path is "/domain/entity/action"; the table keeps the three parts beside it. */
  datatype Path = Path(domain: string, entity: string, action: string)

  datatype Permission = Permission(path: Path, enabled: bool)

  datatype Account = Account(username: string, enabled: bool, revision: nat)

  datatype Role = Role(code: string, enabled: bool, revision: nat)

  datatype Membership = Membership(user: Id, role: Id)

  datatype Grant = Grant(role: Id, permission: Id)

  datatype State = State(
    catalogue: map<Id, Permission>, users: map<Id, Account>, roles: map<Id, Role>,
    memberships: set<Membership>, grants: set<Grant>, nextId: Id)

  const SUPERADMIN := "superadmin"
  const SIGNOUT := Path("app", "user", "signout")
  const PROFILE := Path("app", "user", "profile")
  const CHANGE_PASSWORD := Path("app", "user", "change-password")
  const ROLE_SAVE := Path("app", "role", "save")

  // -------------------------------------------------------------- queries

  predicate Listed(s: State, path: Path) {
    exists p :: p in s.catalogue && s.catalogue[p].enabled && s.catalogue[p].path == path
  }

  predicate EnabledRole(s: State, r: Id) {
    r in s.roles && s.roles[r].enabled
  }

  predicate EnabledPermission(s: State, p: Id) {
    p in s.catalogue && s.catalogue[p].enabled
  }

  predicate IsSuperadmin(s: State, u: Id) {
    exists m :: m in s.memberships && m.user == u && EnabledRole(s, m.role) && s.roles[m.role].code == SUPERADMIN
  }

  predicate GrantedTo(s: State, u: Id, p: Id) {
    exists m :: m in s.memberships && m.user == u && EnabledRole(s, m.role) && Grant(m.role, p) in s.grants
  }

  /** `GetAppUserPermissions`. */
  function PermissionsOf(s: State, u: Id): set<Path> {
    set p | p in s.catalogue && s.catalogue[p].enabled && (IsSuperadmin(s, u) || GrantedTo(s, u, p)) ::
        s.catalogue[p].path
  }

  /** What an enabled role gives, as the four counting queries have it. */
  predicate RoleGives(s: State, r: Id, path: Path) {
    && EnabledRole(s, r)
    && (|| (s.roles[r].code == SUPERADMIN && Listed(s, path))
        || exists g :: g in s.grants && g.role == r && g.permission in s.catalogue
             && s.catalogue[g.permission].enabled && s.catalogue[g.permission].path == path)
  }

  /** Some role other than `except` gives the user the path. */
  predicate HasWithout(s: State, u: Id, path: Path, except: Option<Id>) {
    exists m :: m in s.memberships && m.user == u && except != Some(m.role) && RoleGives(s, m.role, path)
  }

  predicate Has(s: State, u: Id, path: Path) {
    HasWithout(s, u, path, None)
  }

  /** `CountEnabledUsersWithPermission` counts these. */
  function UsersWith(s: State, path: Path): set<Id> {
    set u | u in s.users && s.users[u].enabled && Has(s, u, path)
  }

  /** `CountOtherEnabledUsersWithPermission`. */
  function OthersWith(s: State, path: Path, except: Id): set<Id> {
    set u | u in s.users && s.users[u].enabled && u != except && Has(s, u, path)
  }

  /** `CountEnabledUsersWithPermissionExcludingRole`. */
  function UsersWithoutRole(s: State, path: Path, except: Id): set<Id> {
    set u | u in s.users && s.users[u].enabled && HasWithout(s, u, path, Some(except))
  }

  /** `CountEnabledUsersMissingPermission`. */
  function UsersMissing(s: State, path: Path): set<Id> {
    set u | u in s.users && s.users[u].enabled && !Has(s, u, path)
  }

  // --------------------------------------------------------------- checks

  /** `ensureGlobalAuthorizationSafety`. */
  predicate GloballySafe(s: State) {
    |UsersWith(s, ROLE_SAVE)| != 0 && |UsersMissing(s, SIGNOUT)| == 0
  }

  predicate SafeSignout(s: State, u: Id) {
    SIGNOUT in PermissionsOf(s, u)
  }

  /** The read permission an action needs; none for the read actions themselves and for the self-service paths. */
  function ReadPath(path: Path): Option<Path> {
    if path == SIGNOUT || path == PROFILE || path == CHANGE_PASSWORD then None
    else
      var read := if path.domain == "led" && path.entity == "opening" then "get" else "query";
      if path.action == read then None else Some(path.(action := read))
  }

  ghost predicate Closed(paths: set<Path>) {
    forall path :: path in paths && ReadPath(path).Some? ==> ReadPath(path).value in paths
  }

  function PathsOf(s: State, permissions: set<Id>): set<Path> {
    set p | p in permissions && p in s.catalogue && s.catalogue[p].enabled :: s.catalogue[p].path
  }

  /** `validatePermissions`. */
  predicate ValidPermissions(s: State, permissions: set<Id>) {
    && (forall p :: p in permissions ==> EnabledPermission(s, p))
    && (forall path ::
          path in PathsOf(s, permissions) && ReadPath(path).Some? ==> ReadPath(path).value in PathsOf(s, permissions))
  }

  predicate ValidRoles(s: State, roles: set<Id>) {
    forall r :: r in roles ==> EnabledRole(s, r)
  }

  predicate IsSegmentChar(c: char) {
    'a' <= c <= 'z' || '0' <= c <= '9' || c == '-'
  }

  predicate ValidSegment(value: string) {
    && |value| > 0 && value[0] != '-' && value[|value| - 1] != '-'
    && (forall i :: 0 < i < |value| ==> value[i - 1] != '-' || value[i] != '-')
    && (forall i :: 0 <= i < |value| ==> IsSegmentChar(value[i]))
  }

  const MIN_USERNAME := 3
  const MAX_USERNAME := 64
  const MAX_CODE := 64

  predicate ValidUsername(username: string) {
    MIN_USERNAME <= |username| <= MAX_USERNAME
  }

  predicate UsernameTaken(s: State, username: string) {
    exists u :: u in s.users && s.users[u].username == username
  }

  predicate CodeTaken(s: State, code: string) {
    exists r :: r in s.roles && s.roles[r].code == code
  }

  // ---------------------------------------------------------------- steps

  function WithRoles(s: State, u: Id, roles: set<Id>): set<Membership> {
    (set m | m in s.memberships && m.user != u) + (set r | r in roles :: Membership(u, r))
  }

  function WithPermissions(s: State, r: Id, permissions: set<Id>): set<Grant> {
    (set g | g in s.grants && g.role != r) + (set p | p in permissions :: Grant(r, p))
  }

  /** The first user and the superadmin role. */
  function Bootstrap(s: State, username: string): Result<State> {
    if !ValidUsername(username) then Err(Validation)
    else if s.users != map[] then Err(Conflict)
    else if forall p :: p in s.catalogue ==> !s.catalogue[p].enabled then Err(Conflict)
    else if CodeTaken(s, SUPERADMIN) then Err(Conflict)
    else
      var r, u := s.nextId, s.nextId + 1;
      var after :=
        s.(roles := s.roles[r := Role(SUPERADMIN, true, 1)], users := s.users[u := Account(username, true, 1)],
                      memberships := WithRoles(s, u, {r}), nextId := s.nextId + 2);
      if SafeSignout(after, u) then Ok(after) else Err(Validation)
  }

  function CreateUser(s: State, username: string, roles: set<Id>): Result<State> {
    if !ValidUsername(username) || roles == {} then Err(Validation)
    else if !ValidRoles(s, roles) then Err(Validation)
    else if UsernameTaken(s, username) then Err(Conflict)
    else
      var u := s.nextId;
      var after := s.(users := s.users[u := Account(username, true, 1)], memberships := WithRoles(s, u, roles),
                      nextId := s.nextId + 1);
      if SafeSignout(after, u) then Ok(after) else Err(Validation)
  }

  function SaveUser(s: State, u: Id, revision: nat, roles: set<Id>): Result<State> {
    if revision < 1 || roles == {} || !ValidRoles(s, roles) then Err(Validation)
    else if u !in s.users then Err(NotFound)
    else if s.users[u].revision != revision then Err(Conflict)
    else
      var after :=
        s.(users := s.users[u := s.users[u].(revision := revision + 1)], memberships := WithRoles(s, u, roles));
      if !SafeSignout(after, u) then Err(Validation)
      else if !GloballySafe(after) then Err(Conflict)
      else Ok(after)
  }

  function SetUserStatus(s: State, u: Id, revision: nat, enabled: bool): Result<State> {
    if revision < 1 then Err(Validation)
    else if !enabled && |OthersWith(s, ROLE_SAVE, u)| == 0 then Err(Conflict)
    else if enabled && !SafeSignout(s, u) then Err(Validation)
    else if u !in s.users then Err(NotFound)
    else if s.users[u].revision != revision || s.users[u].enabled == enabled then Err(Conflict)
    else Ok(s.(users := s.users[u := s.users[u].(enabled := enabled, revision := revision + 1)]))
  }

  function CreateRole(s: State, code: string, permissions: set<Id>): Result<State> {
    if !ValidSegment(code) || |code| > MAX_CODE || permissions == {} then Err(Validation)
    else if code == SUPERADMIN || !ValidPermissions(s, permissions) then Err(Validation)
    else if CodeTaken(s, code) then Err(Conflict)
    else
      var r := s.nextId;
      Ok(s.(roles := s.roles[r := Role(code, true, 1)], grants := WithPermissions(s, r, permissions), nextId := r + 1))
  }

  /** Saving the superadmin role clears its permissions: it has all of them by its code. */
  function SaveRole(s: State, r: Id, revision: nat, permissions: set<Id>): Result<State> {
    if revision < 1 then Err(Validation)
    else if r !in s.roles then Err(NotFound)
    else
      var wildcard := s.roles[r].code == SUPERADMIN;
      if !wildcard && (permissions == {} || !ValidPermissions(s, permissions)) then Err(Validation)
      else if s.roles[r].revision != revision then Err(Conflict)
      else
        var after := s.(roles := s.roles[r := s.roles[r].(revision := revision + 1)],
                        grants := WithPermissions(s, r, if wildcard then {} else permissions));
        if GloballySafe(after) then Ok(after) else Err(Conflict)
  }

  function SetRoleStatus(s: State, r: Id, revision: nat, enabled: bool): Result<State> {
    if revision < 1 then Err(Validation)
    else if !enabled && |UsersWithoutRole(s, ROLE_SAVE, r)| == 0 then Err(Conflict)
    else if r !in s.roles then Err(NotFound)
    else if s.roles[r].revision != revision || s.roles[r].enabled == enabled then Err(Conflict)
    else
      var after := s.(roles := s.roles[r := s.roles[r].(enabled := enabled, revision := revision + 1)]);
      if GloballySafe(after) then Ok(after) else Err(Conflict)
  }

  // ----------------------------------------------------------------- runs

  datatype Action =
    | BootstrapAction(username: string)
    | CreateUserAction(username: string, roles: set<Id>)
    | SaveUserAction(user: Id, revision: nat, roles: set<Id>)
    | SetUserStatusAction(user: Id, revision: nat, enabled: bool)
    | CreateRoleAction(code: string, permissions: set<Id>)
    | SaveRoleAction(role: Id, revision: nat, permissions: set<Id>)
    | SetRoleStatusAction(role: Id, revision: nat, enabled: bool)

  /** The path of the request; the bootstrap command is not a request. */
  function PathOf(a: Action): Option<Path> {
    match a
    case BootstrapAction(_) => None
    case CreateUserAction(_, _) => Some(Path("app", "user", "create"))
    case SaveUserAction(_, _, _) => Some(Path("app", "user", "save"))
    case SetUserStatusAction(_, _, enabled) => Some(Path("app", "user", if enabled then "enable" else "disable"))
    case CreateRoleAction(_, _) => Some(Path("app", "role", "create"))
    case SaveRoleAction(_, _, _) => Some(ROLE_SAVE)
    case SetRoleStatusAction(_, _, enabled) => Some(Path("app", "role", if enabled then "enable" else "disable"))
  }

  /** `Authorize`: an enabled user who could sign out again and holds the path. */
  predicate Authorized(s: State, actor: Id, path: Path) {
    && actor in s.users && s.users[actor].enabled
    && SafeSignout(s, actor) && path in PermissionsOf(s, actor)
  }

  function Perform(s: State, a: Action): Result<State> {
    match a
    case BootstrapAction(username) => Bootstrap(s, username)
    case CreateUserAction(username, roles) => CreateUser(s, username, roles)
    case SaveUserAction(user, revision, roles) => SaveUser(s, user, revision, roles)
    case SetUserStatusAction(user, revision, enabled) => SetUserStatus(s, user, revision, enabled)
    case CreateRoleAction(code, permissions) => CreateRole(s, code, permissions)
    case SaveRoleAction(role, revision, permissions) => SaveRole(s, role, revision, permissions)
    case SetRoleStatusAction(role, revision, enabled) => SetRoleStatus(s, role, revision, enabled)
  }

  datatype Request = Request(actor: Id, action: Action)

  function Step(s: State, q: Request): Result<State> {
    if PathOf(q.action).Some? && !Authorized(s, q.actor, PathOf(q.action).value) then Err(Rejected)
    else Perform(s, q.action)
  }

  /** A refused request rolls its transaction back. */
  function Next(s: State, q: Request): State {
    var r := Step(s, q);
    if r.Ok? then r.value else s
  }

  function Run(s: State, requests: seq<Request>): State {
    if |requests| == 0 then s else Next(Run(s, requests[..|requests| - 1]), requests[|requests| - 1])
  }

  /** The tables after the migrations: a catalogue of permissions with distinct paths, and nobody. */
  function Installed(catalogue: map<Id, Permission>): State {
    State(catalogue, map[], map[], {}, {}, 1)
  }
}
