/** internal/controller/user/reconciler.go: Observe and Update as they change the status of the custom resource and,
    through the client, the database. Their runs are the runs of the relations in UserModel. */
module UserControllers {
  import opened Strings
  import L = Language
  import R = Roles
  import opened Grants
  import opened SetDiff
  import opened Execution
  import opened UserModel
  import opened Defaults
  import opened UserClients

  datatype UserError = CannotConvert | CannotRead | UnknownPolicy

  /** FilterManagedPrivileges. */
  method FilterManagedPrivileges(observed: seq<string>, specPrivileges: seq<string>, prevPrivileges: seq<string>,
                                 policy: string, schema: string)
      returns (r: Result<seq<string>, UserError>)
    ensures r.Ok? <==> KnownPolicy(policy)
    ensures r.Ok? ==>
            Elems(r.value) == Managed(Elems(observed), Elems(specPrivileges), Elems(prevPrivileges), policy, schema)
  {
    hide DefaultPrivilege;
    if policy == "strict" {
      return Ok(observed);
    } else if policy == "lax" {
      var defaultPrivilege := DefaultPrivilege(schema);
      var managed: seq<string> := [];
      for i := 0 to |observed|
        invariant Elems(managed) ==
                  Managed(Elems(observed[..i]), Elems(specPrivileges), Elems(prevPrivileges), policy, schema)
      {
        var p := observed[i];
        assert Elems(observed[..i + 1]) == Elems(observed[..i]) + {p}
            by { assert observed[..i + 1] == observed[..i] + [p]; }
        assert Elems(managed + [p]) == Elems(managed) + {p};
        if p != defaultPrivilege && (p in specPrivileges || p in prevPrivileges) {
          managed := managed + [p];
        }
      }
      assert observed[..|observed|] == observed;
      return Ok(managed);
    } else {
      return Err(UnknownPolicy);
    }
  }

  // ---------------------------------------------------------------- steps in a row

  /** The first `i` steps went well and led from `s` to `t`. */
  ghost predicate StepsTo(i: nat, s: State, t: State, desired: Desired)
    decreases i
  {
    if i == 0 then t == s
    else
      var j := i - 1;
      exists m :: StepsTo(j, s, m, desired) && Step(j, m, t, true, desired)
  }

  lemma {:induction false} StepsJoined(i: nat, s: State, m: State, t: State, ok: bool, desired: Desired)
    requires i <= 6 && StepsTo(i, s, m, desired) && StepsFrom(i, m, t, ok, desired)
    ensures StepsFrom(0, s, t, ok, desired)
    decreases i
  {
    hide Step;
    if i > 0 {
      var l :| StepsTo(i - 1, s, l, desired) && Step(i - 1, l, m, true, desired);
      assert StepsFrom(i - 1, l, t, ok, desired);
      StepsJoined(i - 1, s, l, t, ok, desired);
    }
  }

  lemma FailedAt(i: nat, s: State, m: State, t: State, desired: Desired)
    requires i < 6 && StepsTo(i, s, m, desired) && Step(i, m, t, false, desired)
    ensures StepsFrom(0, s, t, false, desired)
  {
    hide Step;
    assert StepsFrom(i, m, t, false, desired);
    StepsJoined(i, s, m, t, false, desired);
  }

  lemma AllDone(s: State, t: State, desired: Desired)
    requires StepsTo(6, s, t, desired)
    ensures StepsFrom(0, s, t, true, desired)
  {
    hide Step;
    StepsJoined(6, s, t, t, true, desired);
  }

  lemma OneMore(i: nat, s: State, m: State, t: State, desired: Desired)
    requires StepsTo(i, s, m, desired) && Step(i, m, t, true, desired)
    ensures StepsTo(i + 1, s, t, desired)
  {
    hide Step;
  }

  /** One more step after `i` good ones: the last, or a failure that ends the update, or one to go on from. */
  lemma Advance(i: nat, s: State, m: State, t: State, ok: bool, desired: Desired)
    requires i < 6 && StepsTo(i, s, m, desired) && Step(i, m, t, ok, desired)
    requires DesiredOf(s.spec, s.schema) == Some(desired) && KnownPolicy(s.spec.policy)
    ensures ok ==> StepsTo(i + 1, s, t, desired)
    ensures !ok || i == 5 ==> Updated(s, t, ok)
  {
    hide Step, StepsTo, StepsFrom, DesiredOf, UpdatePath;
    if ok {
      OneMore(i, s, m, t, desired);
      if i == 5 {
        AllDone(s, t, desired);
        UpdatedIff(s, t, ok);
      }
    } else {
      FailedAt(i, s, m, t, desired);
      UpdatedIff(s, t, ok);
    }
  }

  lemma NoStep(s: State, desired: Desired)
    ensures StepsTo(0, s, s, desired)
  {}

  // ---------------------------------------------------------------- the reconciler

  class UserController {
    var spec: Spec
    var status: Status
    const client: UserClient

    constructor (spec: Spec, status: Status, client: UserClient)
      ensures this.spec == spec && this.status == status && this.client == client
    {
      this.spec, this.status, this.client := spec, status, client;
    }

    function Now(): State
      reads this, client
    {
      State(spec, status, client.account, client.username)
    }

    /** handleDefaults and the two formatters. */
    method BuildDesired() returns (desired: Option<Desired>)
      ensures desired == DesiredOf(spec, client.username)
      ensures desired.Some? && QUOTE !in spec.username ==> AsAskedFor(spec, client.username, desired.value)
    {
      hide L.Format, R.Format, AsAskedFor;
      if QUOTE !in spec.username && DesiredOf(spec, client.username).Some? {
        DesiredAsAskedFor(spec, client.username);
      }
      var privileges := L.FormatPrivilegeStrings(SpecPrivileges(spec), client.username);
      if privileges.Err? {
        return None;
      }
      var roles := R.FormatRoleStrings(SpecRoles(spec));
      if roles.Err? {
        return None;
      }
      return Some(Desired(privileges.value, roles.value));
    }

    method Observe() returns (r: Result<bool, UserError>)
      modifies this
      ensures r.Err? ==> Now() == old(Now())
      ensures r.Ok? ==> Observed(old(Now()), Now(), r.value) && status.passwordEnabled.Some?
      ensures DesiredOf(spec, client.username).None? || !KnownPolicy(spec.policy) ==> r.Err?
    {
      hide DesiredOf, PrivilegeTexts, RoleTexts, Entries, Managed;
      var desired := BuildDesired();
      if desired.None? {
        return Err(CannotConvert);
      }
      var readable: bool := *;
      if !readable {
        return Err(CannotRead);
      }
      var privileges := client.QueryPrivileges();
      var roles := client.QueryRoles();
      var a := client.account;
      var managed := FilterManagedPrivileges(privileges, desired.value.privileges, status.privileges, spec.policy,
          client.username);
      if managed.Err? {
        return Err(UnknownPolicy);
      }
      status := Status(managed.value, roles, a.parameters, Some(a.usergroup), Some(a.lifetimeCheck),
          Some(a.passwordEnabled),
                       PasswordCheck(spec.password, a));
      var samePrivileges := ArraysEqual(status.privileges, desired.value.privileges);
      var sameRoles := ArraysEqual(status.roles, desired.value.roles);
      return Ok(&& IsPasswordUpToDate(status, spec) && status.usergroup == Some(spec.usergroup)
                && status.lifetimeCheck == Some(spec.lifetimeCheck) && status.parameters == spec.parameters
                && samePrivileges && sameRoles);
    }

    method UpdatePrivileges(desired: Desired, observed: seq<string>) returns (ok: bool)
      modifies this, client
      ensures spec == old(spec) && status == old(status).(privileges := status.privileges)
      ensures client.account == old(client.account).(privileges := client.account.privileges)
      ensures Elems(observed) == old(ManagedStatus(Now())) ==> PrivilegesStep(old(Now()), Now(), ok, desired)
    {
      hide ManagedStatus, Executing;
      var isEqual, toGrant, toRevoke := ArraysBothDiff(desired.privileges, observed);
      ok := true;
      if !isEqual {
        ok := client.UpdatePrivileges(spec.username, toGrant, toRevoke);
        if ok {
          status := status.(privileges := desired.privileges);
        }
      } else {
        NothingToExecute(client.account.privileges, client.username);
      }
      assert IsList(toGrant, Elems(desired.privileges) - Elems(observed)) &&
          IsList(toRevoke, Elems(observed) - Elems(desired.privileges));
    }

    method UpdateRoles(desired: Desired) returns (ok: bool)
      modifies this, client
      ensures spec == old(spec) && status == old(status).(roles := status.roles)
      ensures client.account == old(client.account).(roles := client.account.roles)
      ensures RolesStep(old(Now()), Now(), ok, desired)
    {
      hide RolesRun;
      var isEqual, toGrant, toRevoke := ArraysBothDiff(desired.roles, status.roles);
      ok := true;
      if !isEqual {
        ok := client.UpdateRoles(spec.username, toGrant, toRevoke);
        if ok {
          status := status.(roles := desired.roles);
        }
      } else {
        assert Elems(desired.roles) - Elems(status.roles) == {} == Elems(status.roles) - Elems(desired.roles);
        NoRolesRun(client.account.roles);
      }
    }

    /** updateParameters: MapsBothDiff has nothing to set or clear. */
    method UpdateParameters() returns (ok: bool)
      modifies this, client
      ensures ParametersStep(old(Now()), Now(), ok)
    {
      var isEqual, toSet, toClear := MapsBothDiff(spec.parameters, status.parameters);
      ok := true;
      if !isEqual {
        ghost var a := client.account;
        ok := client.UpdateParameters(toSet, toClear);
        assert (a.parameters + map[]) - {} == a.parameters;
        if ok {
          status := status.(parameters := spec.parameters);
        }
      }
    }

    method UpdateUsergroup() returns (ok: bool)
      modifies this, client
      ensures UsergroupStep(old(Now()), Now(), ok)
    {
      ok := true;
      if status.usergroup != Some(spec.usergroup) {
        ok := client.UpdateUsergroup(spec.usergroup);
        if ok {
          status := status.(usergroup := Some(spec.usergroup));
        }
      }
    }

    method UpdateLifetimeCheck() returns (ok: bool)
      modifies this, client
      ensures LifetimeStep(old(Now()), Now(), ok)
    {
      ok := true;
      if status.lifetimeCheck != Some(spec.lifetimeCheck) {
        ok := client.UpdatePasswordLifetimeCheck(spec.lifetimeCheck);
        if ok {
          status := status.(lifetimeCheck := Some(spec.lifetimeCheck));
        }
      }
    }

    /** updatePassword; the enabled flag is dereferenced where password authentication is toggled. */
    method UpdatePassword() returns (ok: bool)
      requires status.passwordUpToDate.Some? ==> status.passwordEnabled.Some?
      modifies this, client
      ensures PasswordStep(old(Now()), Now(), ok)
    {
      ok := true;
      if status.passwordUpToDate == Some(false) {
        if spec.password.NoPassword? || status.passwordEnabled == Some(false) {
          ok := client.TogglePasswordAuthentication(status.passwordEnabled.value);
        } else {
          ok := client.UpdatePassword(SecretOf(spec.password));
          if ok {
            status := status.(passwordUpToDate := Some(true));
          }
        }
      }
    }

    method Update() returns (ok: bool)
      requires status.passwordUpToDate.Some? ==> status.passwordEnabled.Some?
      modifies this, client
      ensures DesiredOf(spec, client.username).None? || !KnownPolicy(spec.policy) ==> !ok && Now() == old(Now())
      ensures DesiredOf(spec, client.username).Some? && KnownPolicy(spec.policy) ==> Updated(old(Now()), Now(), ok)
    {
      hide DesiredOf, PrivilegesStep, RolesStep, StepsTo, Managed, Updated;
      ghost var s := Now();
      var desired := BuildDesired();
      if desired.None? {
        return false;
      }
      var observed := FilterManagedPrivileges(status.privileges, spec.privileges, status.privileges, spec.policy,
          client.username);
      if observed.Err? {
        return false;
      }
      var d := desired.value;
      NoStep(s, d);
      ok := UpdatePrivileges(d, observed.value);
      Advance(0, s, s, Now(), ok, d);
      if !ok {
        return;
      }
      ghost var m := Now();
      ok := UpdateRoles(d);
      Advance(1, s, m, Now(), ok, d);
      if !ok {
        return;
      }
      m := Now();
      ok := UpdateParameters();
      Advance(2, s, m, Now(), ok, d);
      if !ok {
        return;
      }
      m := Now();
      ok := UpdateUsergroup();
      Advance(3, s, m, Now(), ok, d);
      if !ok {
        return;
      }
      m := Now();
      ok := UpdateLifetimeCheck();
      Advance(4, s, m, Now(), ok, d);
      if !ok {
        return;
      }
      m := Now();
      ok := UpdatePassword();
      Advance(5, s, m, Now(), ok, d);
    }

    /** One reconciliation: observe, and update only what is not up to date. */
    method Reconcile() returns (ok: bool)
      modifies this, client
      ensures ok ==> Reconciled(old(Now()), Now())
      ensures !ok ==> Now() == old(Now()) || exists m :: Observed(old(Now()), m, false) && Updated(m, Now(), false)
    {
      hide Observed, Updated, DesiredOf;
      ghost var s := Now();
      var observed := Observe();
      if observed.Err? {
        return false;
      }
      ok := true;
      ghost var m := Now();
      assert Observed(s, m, observed.value);
      ObservedFormats(s, m, observed.value);
      if !observed.value {
        ok := Update();
      }
    }
  }

  lemma NoRolesRun(db: map<R.RoleKey, bool>)
    ensures RolesRun(db, {}, {}, db, true)
  {
    hide R.Read;
    var none: set<Entry<R.RoleKey>>, keys: set<R.RoleKey> := {}, {};
    assert ReadEntries({}) == none && KeysOf(none) == keys;
    GrantNone(db);
    RevokeNone(db);
    EffectIs(db, none, keys, none, keys, db, true);
  }
}
