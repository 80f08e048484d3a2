/** The User resource: its spec, the status of the custom resource, the account in the database, and the steps
    Observe and Update as relations between states. Row order, map order and failing statements are left open. */
module UserModel {
  import opened Strings
  import opened Privileges
  import L = Language
  import R = Roles
  import opened Execution
  import opened Grants
  import opened SetDiff

  datatype Password = NoPassword | WithoutSecret | FromSecret(secret: string)

  datatype Spec = Spec(
    username: string, restricted: bool, policy: string,
    privileges: seq<string>, roles: seq<string>, parameters: map<string, string>,
    usergroup: string, lifetimeCheck: bool, password: Password)

  /** cr.Status.AtProvider. */
  datatype Status = Status(
    privileges: seq<string>, roles: seq<string>, parameters: map<string, string>,
    usergroup: Option<string>, lifetimeCheck: Option<bool>, passwordEnabled: Option<bool>,
        passwordUpToDate: Option<bool>)

  /** The user in the database. Privileges are keyed by the privilege without its option, roles by schema and name. */
  datatype Account = Account(
    privileges: map<Privilege, bool>, roles: map<R.RoleKey, bool>, parameters: map<string, string>,
    usergroup: string, lifetimeCheck: bool, passwordEnabled: bool, password: string)

  /** `schema` is the default schema of the connection, the name of the connecting user. */
  datatype State = State(spec: Spec, status: Status, account: Account, schema: string)

  // ---------------------------------------------------------------- desired side

  /** GetDefaultPrivilege. */
  function DefaultPrivilege(schema: string): string {
    "CREATE ANY ON SCHEMA \"" + schema + "\" WITH GRANT OPTION"
  }

  /** The privileges of handleDefaults. */
  function SpecPrivileges(spec: Spec): seq<string> {
    if spec.policy == "strict" && !spec.restricted && DefaultPrivilege(spec.username) !in spec.privileges
    then spec.privileges + [DefaultPrivilege(spec.username)]
    else spec.privileges
  }

  /** The roles of handleDefaults. */
  function SpecRoles(spec: Spec): seq<string> {
    if !spec.restricted && "PUBLIC" !in spec.roles then spec.roles + ["PUBLIC"] else spec.roles
  }

  datatype Desired = Desired(privileges: seq<string>, roles: seq<string>)

  /** The canonical desired strings, or None when one of them does not parse. */
  function DesiredOf(spec: Spec, schema: string): Option<Desired> {
    match L.Format(SpecPrivileges(spec), schema)
    case Err(_) => None
    case Ok(privileges) =>
      match R.Format(SpecRoles(spec))
      case Err(_) => None
      case Ok(roles) => Some(Desired(privileges, roles))
  }

  // ---------------------------------------------------------------- observed side

  function PrivilegeOf(e: Entry<Privilege>): Privilege {
    e.key.(isGrantable := e.option)
  }

  /** The string of a grant: that of its row in the catalogue, in which names keep the case they were granted in. */
  function RowText(e: Entry<Privilege>): string {
    ToText(L.FromRow(L.RowOf(PrivilegeOf(e))))
  }

  /** The strings QueryPrivileges reports. */
  function PrivilegeTexts(es: set<Entry<Privilege>>): set<string> {
    set e | e in es :: RowText(e)
  }

  lemma RowTextIs(e: Entry<Privilege>)
    requires L.HasRow(PrivilegeOf(e))
    ensures RowText(e) == ToText(PrivilegeOf(e))
  {
    hide ToText, L.FromRow, L.RowOf, L.HasRow;
    L.RowOfIsRead(PrivilegeOf(e));
  }

  /** The string of a granted role, in which schema and name are joined. */
  function RoleText(e: Entry<R.RoleKey>): string {
    R.ToText(R.Role(R.FullName(e.key), e.option))
  }

  /** The strings QueryRoles reports. */
  function RoleTexts(es: set<Entry<R.RoleKey>>): set<string> {
    set e | e in es :: RoleText(e)
  }

  /** queryPasswordAuthentication, without authentication errors. */
  function PasswordCheck(password: Password, account: Account): Option<bool> {
    match password
    case FromSecret(secret) => if account.passwordEnabled then Some(account.password == secret) else Some(false)
    case _ => if account.passwordEnabled then Some(false) else None
  }

  predicate KnownPolicy(policy: string) {
    policy == "strict" || policy == "lax"
  }

  /** FilterManagedPrivileges on sets of strings. */
  function Managed(observed: set<string>, listed: set<string>, previous: set<string>, policy: string,
                   schema: string): set<string> {
    if policy == "lax"
    then set t | t in observed && t != DefaultPrivilege(schema) && (t in listed || t in previous)
    else observed
  }

  // ---------------------------------------------------------------- Observe

  predicate IsPasswordUpToDate(status: Status, spec: Spec) {
    if spec.password.NoPassword? then status.passwordUpToDate.None? else status.passwordUpToDate == Some(true)
  }

  /** upToDate, for users without X.509 mappings. */
  predicate UpToDate(status: Status, spec: Spec, desired: Desired) {
    && IsPasswordUpToDate(status, spec)
    && status.usergroup == Some(spec.usergroup)
    && status.lifetimeCheck == Some(spec.lifetimeCheck)
    && status.parameters == spec.parameters
    && Elems(status.privileges) == Elems(desired.privileges)
    && Elems(status.roles) == Elems(desired.roles)
  }

  /** A successful Observe of an existing user: status is rewritten, the database is not touched. */
  ghost predicate Observed(s: State, t: State, upToDate: bool) {
    && DesiredOf(s.spec, s.schema).Some? && KnownPolicy(s.spec.policy)
    && t == s.(status := t.status)
    && var desired := DesiredOf(s.spec, s.schema).value;
       && Elems(t.status.privileges) ==
          Managed(PrivilegeTexts(Entries(s.account.privileges)), Elems(desired.privileges), Elems(s.status.privileges),
              s.spec.policy, s.schema)
       && Elems(t.status.roles) == RoleTexts(Entries(s.account.roles))
       && t.status.parameters == s.account.parameters
       && t.status.usergroup == Some(s.account.usergroup)
       && t.status.lifetimeCheck == Some(s.account.lifetimeCheck)
       && t.status.passwordEnabled == Some(s.account.passwordEnabled)
       && t.status.passwordUpToDate == PasswordCheck(s.spec.password, s.account)
       && (upToDate <==> UpToDate(t.status, s.spec, desired))
  }

  lemma ObservedFormats(s: State, m: State, upToDate: bool)
    requires Observed(s, m, upToDate)
    ensures m.spec == s.spec && m.schema == s.schema && DesiredOf(s.spec, s.schema).Some? && KnownPolicy(s.spec.policy)
  {
    hide DesiredOf, PrivilegeTexts, RoleTexts, UpToDate;
  }

  // ---------------------------------------------------------------- Update

  /** The roles that statements for the strings name: each is printed as one delimited identifier, which has no
      schema. */
  function ReadEntries(texts: set<string>): set<Entry<R.RoleKey>> {
    set t | t in texts && R.Read(t).Ok? :: RoleEntry(R.Read(t).value)
  }

  function RoleEntry(r: R.Role): Entry<R.RoleKey> {
    Entry(R.RoleKey(None, r.name), r.isGrantable)
  }

  /** The privileges of the status that Update may touch. */
  function ManagedStatus(s: State): set<string> {
    Managed(Elems(s.status.privileges), Elems(s.spec.privileges), Elems(s.status.privileges), s.spec.policy, s.schema)
  }

  function ToGrant(s: State, desired: Desired): set<string> {
    Elems(desired.privileges) - ManagedStatus(s)
  }

  function ToRevoke(s: State, desired: Desired): set<string> {
    ManagedStatus(s) - Elems(desired.privileges)
  }

  /** The strings as ArraysBothDiff hands them on: in any order, each once. */
  ghost predicate IsList(l: seq<string>, texts: set<string>) {
    NoDuplicates(l) && Elems(l) == texts
  }

  /** updatePrivileges: what is executed are the grouped statements of the two lists. */
  ghost predicate PrivilegesStep(s: State, t: State, ok: bool, desired: Desired) {
    && t == s.(status := t.status, account := t.account)
    && t.account == s.account.(privileges := t.account.privileges)
    && t.status == s.status.(privileges := t.status.privileges)
    && (exists toGrant, toRevoke ::
          && IsList(toGrant, ToGrant(s, desired)) && IsList(toRevoke, ToRevoke(s, desired))
          && Executing(s.account.privileges, toGrant, toRevoke, s.schema, t.account.privileges, ok))
    && t.status.privileges == if ok && Elems(desired.privileges) != ManagedStatus(s) then desired.privileges
       else s.status.privileges
  }

  /** UpdateRoles: nothing if a role to grant cannot be read, nothing revoked if a role to revoke cannot be read. */
  ghost predicate RolesRun(db: map<R.RoleKey, bool>, toGrant: set<string>, toRevoke: set<string>,
                           after: map<R.RoleKey, bool>, ok: bool) {
    && Effect(db, ReadEntries(toGrant), KeysOf(ReadEntries(toRevoke)), after, ok)
    && ((exists t | t in toGrant :: R.Read(t).Err?) ==> !ok && after == db)
    && ((exists t | t in toRevoke :: R.Read(t).Err?) ==> !ok && Effect(db, ReadEntries(toGrant), {}, after, false))
  }

  /** updateRoles. */
  ghost predicate RolesStep(s: State, t: State, ok: bool, desired: Desired) {
    && t == s.(status := t.status, account := t.account)
    && t.account == s.account.(roles := t.account.roles)
    && t.status == s.status.(roles := t.status.roles)
    && RolesRun(s.account.roles, Elems(desired.roles) - Elems(s.status.roles), Elems(s.status.roles) -
       Elems(desired.roles), t.account.roles, ok)
    && t.status.roles == if ok && Elems(desired.roles) != Elems(s.status.roles) then desired.roles else s.status.roles
  }

  /** updateParameters: the differences it passes on are always empty, so its statement changes no parameter. */
  ghost predicate ParametersStep(s: State, t: State, ok: bool) {
    && t == s.(status := s.status.(parameters := t.status.parameters))
    && (s.spec.parameters == s.status.parameters ==> ok)
    && t.status.parameters == (if ok then s.spec.parameters else s.status.parameters)
  }

  /** updateUsergroup. */
  ghost predicate UsergroupStep(s: State, t: State, ok: bool) {
    if s.status.usergroup == Some(s.spec.usergroup) then t == s && ok
    else if ok then t ==
        s.(status := s.status.(usergroup := Some(s.spec.usergroup)),
        account := s.account.(usergroup := s.spec.usergroup))
    else t == s
  }

  /** updatePasswordLifetimeCheck. */
  ghost predicate LifetimeStep(s: State, t: State, ok: bool) {
    if s.status.lifetimeCheck == Some(s.spec.lifetimeCheck) then t == s && ok
    else if ok then t ==
        s.(status := s.status.(lifetimeCheck := Some(s.spec.lifetimeCheck)),
        account := s.account.(lifetimeCheck := s.spec.lifetimeCheck))
    else t == s
  }

  /** The password getPassword hands to UpdatePassword. */
  function SecretOf(password: Password): string {
    match password case FromSecret(secret) => secret case _ => ""
  }

  /** updatePassword: toggles password authentication, or sets the password. */
  ghost predicate PasswordStep(s: State, t: State, ok: bool) {
    if s.status.passwordUpToDate != Some(false) then t == s && ok
    else if !ok then t == s
    else if s.spec.password.NoPassword? || s.status.passwordEnabled == Some(false) then
      t == s.(account := s.account.(passwordEnabled := s.status.passwordEnabled != Some(true)))
    else
      t == s.(status := s.status.(passwordUpToDate := Some(true)),
          account := s.account.(password := SecretOf(s.spec.password)))
  }

  ghost predicate Step(i: nat, s: State, t: State, ok: bool, desired: Desired) {
    match i
    case 0 => PrivilegesStep(s, t, ok, desired)
    case 1 => RolesStep(s, t, ok, desired)
    case 2 => ParametersStep(s, t, ok)
    case 3 => UsergroupStep(s, t, ok)
    case 4 => LifetimeStep(s, t, ok)
    case _ => PasswordStep(s, t, ok)
  }

  /** The steps from the i-th on; the first failure ends the update. */
  ghost predicate StepsFrom(i: nat, s: State, t: State, ok: bool, desired: Desired)
    requires i <= 6
    decreases 6 - i
  {
    if i == 6 then t == s && ok
    else exists m, k :: Step(i, s, m, k, desired) && (if k then StepsFrom(i + 1, m, t, ok, desired) else t == m && !ok)
  }

  ghost predicate StepAt(path: seq<State>, i: nat, desired: Desired)
    requires i + 1 < |path|
  {
    Step(i, path[i], path[i + 1], true, desired)
  }

  /** The steps of an update that went well, one after the other. */
  ghost predicate Path(path: seq<State>, desired: Desired) {
    |path| > 0 && forall i | 0 <= i < |path| - 1 :: StepAt(path, i, desired)
  }

  /** Update, with inputs built once at its start: all six steps, or some of them and then one that fails. `ok` means
      that no statement failed. */
  ghost predicate Updated(s: State, t: State, ok: bool) {
    && DesiredOf(s.spec, s.schema).Some? && KnownPolicy(s.spec.policy)
    && exists path :: UpdatePath(path, s, t, ok, DesiredOf(s.spec, s.schema).value)
  }

  ghost predicate UpdatePath(path: seq<State>, s: State, t: State, ok: bool, desired: Desired) {
    && Path(path, desired) && path[0] == s
    && if ok then |path| == 7 && path[6] == t
       else |path| <= 6 && Step(|path| - 1, path[|path| - 1], t, false, desired)
  }

  lemma {:induction false} PathSteps(path: seq<State>, i: nat, s: State, t: State, ok: bool, desired: Desired)
    requires UpdatePath(path, s, t, ok, desired) && i < |path|
    ensures StepsFrom(i, path[i], t, ok, desired)
    decreases |path| - i
  {
    hide Step, StepsFrom;
    if i < |path| - 1 {
      PathSteps(path, i + 1, s, t, ok, desired);
      assert StepAt(path, i, desired);
      StepFirst(i, path[i], path[i + 1], true, t, ok, desired);
    } else if ok {
      NoneLeft(t, desired);
    } else {
      StepFirst(i, path[i], t, false, t, ok, desired);
    }
  }

  lemma StepFirst(i: nat, s: State, m: State, k: bool, t: State, ok: bool, desired: Desired)
    requires i < 6 && Step(i, s, m, k, desired) && (if k then StepsFrom(i + 1, m, t, ok, desired) else t == m && !ok)
    ensures StepsFrom(i, s, t, ok, desired)
  {
    hide Step;
  }

  lemma NoneLeft(t: State, desired: Desired)
    ensures StepsFrom(6, t, t, true, desired)
  {}

  lemma {:induction false} StepsPath(i: nat, s: State, t: State, ok: bool, desired: Desired) returns (path: seq<State>)
    requires i <= 6 && StepsFrom(i, s, t, ok, desired)
    ensures |path| > 0 && path[0] == s
    ensures forall j | 0 <= j < |path| - 1 :: Step(i + j, path[j], path[j + 1], true, desired)
    ensures if ok then i + |path| == 7 && path[|path| - 1] == t
            else i + |path| <= 6 && Step(i + |path| - 1, path[|path| - 1], t, false, desired)
    decreases 6 - i
  {
    hide Step;
    if i == 6 {
      path := [s];
    } else {
      var m, k :| Step(i, s, m, k, desired) && (if k then StepsFrom(i + 1, m, t, ok, desired) else t == m && !ok);
      if k {
        var rest := StepsPath(i + 1, m, t, ok, desired);
        path := [s] + rest;
        forall j | 0 <= j < |path| - 1
          ensures Step(i + j, path[j], path[j + 1], true, desired)
        {
          assert j > 0 ==> path[j] == rest[j - 1] && path[j + 1] == rest[j];
          assert j > 0 ==> Step(i + 1 + (j - 1), rest[j - 1], rest[j], true, desired);
        }
      } else {
        path := [s];
      }
    }
  }

  /** The update step by step: the first failure ends it. */
  lemma UpdatedIff(s: State, t: State, ok: bool)
    requires DesiredOf(s.spec, s.schema).Some? && KnownPolicy(s.spec.policy)
    ensures Updated(s, t, ok) <==> StepsFrom(0, s, t, ok, DesiredOf(s.spec, s.schema).value)
  {
    hide Step, StepsFrom, DesiredOf;
    var desired := DesiredOf(s.spec, s.schema).value;
    if path :| UpdatePath(path, s, t, ok, desired) {
      PathSteps(path, 0, s, t, ok, desired);
    }
    if StepsFrom(0, s, t, ok, desired) {
      var path := StepsPath(0, s, t, ok, desired);
      assert UpdatePath(path, s, t, ok, desired);
    }
  }

  /** Two states with the same spec and the same password, enabled or not. */
  predicate SamePassword(s: State, t: State) {
    && t.spec == s.spec && t.schema == s.schema
    && t.status.passwordEnabled == s.status.passwordEnabled && t.status.passwordUpToDate == s.status.passwordUpToDate
    && t.account.passwordEnabled == s.account.passwordEnabled && t.account.password == s.account.password
  }

  /** One failure-free reconciliation: observe, and update only if needed. */
  ghost predicate Reconciled(s: State, t: State) {
    exists m, upToDate :: Observed(s, m, upToDate) && (if upToDate then t == m else Updated(m, t, true))
  }
}
