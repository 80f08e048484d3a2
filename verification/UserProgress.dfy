/** When Observe and a failure-free Update are possible, and so when a user converges at all. */
module UserProgress {
  import opened Strings
  import opened Privileges
  import opened Language
  import R = Roles
  import opened Grants
  import opened SetDiff
  import opened Execution
  import opened UserModel
  import opened UserConvergence
  import opened UserControllers
  import opened UserRuns

  lemma {:induction false} ListOf(ts: set<string>) returns (l: seq<string>)
    ensures IsList(l, ts)
    decreases |ts|
  {
    if ts == {} {
      l := [];
    } else {
      var t :| t in ts;
      var rest := ListOf(ts - {t});
      l := rest + [t];
      assert Elems(l) == Elems(rest) + {t};
      assert t !in Elems(rest);
    }
  }

  lemma CanObserve(s: State) returns (m: State, upToDate: bool)
    requires DesiredOf(s.spec, s.schema).Some? && KnownPolicy(s.spec.policy)
    ensures Observed(s, m, upToDate)
  {
    hide DesiredOf, PrivilegeTexts, RoleTexts, Entries, Managed;
    var desired := DesiredOf(s.spec, s.schema).value;
    var privileges := ListOf(Managed(PrivilegeTexts(Entries(s.account.privileges)), Elems(desired.privileges),
        Elems(s.status.privileges), s.spec.policy, s.schema));
    var roles := ListOf(RoleTexts(Entries(s.account.roles)));
    var a := s.account;
    m := s.(status := Status(privileges, roles, a.parameters, Some(a.usergroup), Some(a.lifetimeCheck),
        Some(a.passwordEnabled),
                             PasswordCheck(s.spec.password, a)));
    upToDate := UpToDate(m.status, s.spec, desired);
  }

  /** All strings that an update has to pass on can be read. */
  ghost predicate Passable(s: State, desired: Desired) {
    && (forall t | t in ToGrant(s, desired) + ToRevoke(s, desired) :: Parse(t, s.schema).Ok?)
    && (forall t | t in Elems(desired.roles) + Elems(s.status.roles) &&
       !(t in Elems(desired.roles) && t in Elems(s.status.roles)) :: R.Read(t).Ok?)
  }

  lemma ListParses(l: seq<string>, ts: set<string>, schema: string)
    requires IsList(l, ts)
    ensures ParseAll(l, schema).Ok? <==> forall t | t in ts :: Parse(t, schema).Ok?
  {
    hide Parse;
    ParseAllIs(l, schema);
    assert forall i | 0 <= i < |l| :: l[i] in Elems(l);
  }

  lemma RolesCanRun(db: map<R.RoleKey, bool>, toGrant: set<string>, toRevoke: set<string>)
      returns (after: map<R.RoleKey, bool>)
    requires forall t | t in toGrant + toRevoke :: R.Read(t).Ok?
    ensures RolesRun(db, toGrant, toRevoke, after, true)
  {
    hide R.Read, ReadEntries, Grant, Revoke, KeysOf;
    var es, ks := ReadEntries(toGrant), KeysOf(ReadEntries(toRevoke));
    after := Revoke(Grant(db, es), ks);
    EffectIs(db, es, ks, es, ks, after, true);
  }

  lemma CanGrant(s: State, desired: Desired) returns (t: State)
    requires Passable(s, desired)
    ensures StepsTo(2, s, t, desired)
  {
    hide StepsTo, Executing, RolesRun, ToGrant, ToRevoke, Parse, R.Read;
    var toGrant := ListOf(ToGrant(s, desired));
    var toRevoke := ListOf(ToRevoke(s, desired));
    ListParses(toGrant, ToGrant(s, desired), s.schema);
    ListParses(toRevoke, ToRevoke(s, desired), s.schema);
    var after := CanExecute(s.account.privileges, toGrant, toRevoke, s.schema);
    var m := s.(account := s.account.(privileges := after),
                status := s.status.(privileges := if Elems(desired.privileges) != ManagedStatus(s)
                    then desired.privileges else s.status.privileges));
    assert Step(0, s, m, true, desired);
    NoStep(s, desired);
    OneMore(0, s, s, m, desired);
    var roles := RolesCanRun(m.account.roles, Elems(desired.roles) - Elems(m.status.roles), Elems(m.status.roles) -
        Elems(desired.roles));
    t := m.(account := m.account.(roles := roles),
            status := m.status.(roles := if Elems(desired.roles) != Elems(m.status.roles) then desired.roles
                else m.status.roles));
    assert Step(1, m, t, true, desired);
    OneMore(1, s, m, t, desired);
  }

  lemma CanUpdate(s: State) returns (t: State)
    requires DesiredOf(s.spec, s.schema).Some? && KnownPolicy(s.spec.policy)
    requires Passable(s, DesiredOf(s.spec, s.schema).value)
    ensures Updated(s, t, true)
  {
    hide DesiredOf, StepsTo, StepsFrom, PrivilegesStep, RolesStep, UpdatePath, Passable;
    var desired := DesiredOf(s.spec, s.schema).value;
    var s2 := CanGrant(s, desired);
    var s3 := s2.(status := s2.status.(parameters := s2.spec.parameters));
    OneMore(2, s, s2, s3, desired);
    var s4 := if s3.status.usergroup == Some(s3.spec.usergroup) then s3
              else s3.(status := s3.status.(usergroup := Some(s3.spec.usergroup)),
                  account := s3.account.(usergroup := s3.spec.usergroup));
    OneMore(3, s, s3, s4, desired);
    var s5 := if s4.status.lifetimeCheck == Some(s4.spec.lifetimeCheck) then s4
              else s4.(status := s4.status.(lifetimeCheck := Some(s4.spec.lifetimeCheck)),
                  account := s4.account.(lifetimeCheck := s4.spec.lifetimeCheck));
    OneMore(4, s, s4, s5, desired);
    t := if s5.status.passwordUpToDate != Some(false) then s5
         else if s5.spec.password.NoPassword? || s5.status.passwordEnabled == Some(false) then
           s5.(account := s5.account.(passwordEnabled := s5.status.passwordEnabled != Some(true)))
         else
           s5.(status := s5.status.(passwordUpToDate := Some(true)),
               account := s5.account.(password := SecretOf(s5.spec.password)));
    OneMore(5, s, s5, t, desired);
    AllDone(s, t, desired);
    UpdatedIff(s, t, true);
  }

  /** An update can succeed exactly when all strings it has to pass on can be read. */
  lemma UpdatePossibleIff(s: State)
    requires DesiredOf(s.spec, s.schema).Some? && KnownPolicy(s.spec.policy)
    ensures (exists t :: Updated(s, t, true)) <==> Passable(s, DesiredOf(s.spec, s.schema).value)
  {
    hide DesiredOf, Updated, Passable;
    if t :| Updated(s, t, true) {
      UpdatePassed(s, t);
    }
    if Passable(s, DesiredOf(s.spec, s.schema).value) {
      var t := CanUpdate(s);
    }
  }

  lemma UpdatePassed(s: State, t: State)
    requires DesiredOf(s.spec, s.schema).Some? && KnownPolicy(s.spec.policy) && Updated(s, t, true)
    ensures Passable(s, DesiredOf(s.spec, s.schema).value)
  {
    hide DesiredOf, StepsFrom, UpdatePath, Executing, ToGrant, ToRevoke, Parse, R.Read;
    var desired := DesiredOf(s.spec, s.schema).value;
    UpdatedIff(s, t, true);
    var m := NextStep(0, s, t, desired);
    var n := NextStep(1, m, t, desired);
    var toGrant, toRevoke :| IsList(toGrant, ToGrant(s, desired)) && IsList(toRevoke, ToRevoke(s, desired)) &&
                             Executing(s.account.privileges, toGrant, toRevoke, s.schema, m.account.privileges, true);
    CannotExecute(s.account.privileges, toGrant, toRevoke, s.schema, m.account.privileges);
    ListParses(toGrant, ToGrant(s, desired), s.schema);
    ListParses(toRevoke, ToRevoke(s, desired), s.schema);
    assert RolesRun(m.account.roles, Elems(desired.roles) - Elems(s.status.roles), Elems(s.status.roles) -
        Elems(desired.roles), n.account.roles, true);
  }

  // ---------------------------------------------------------------- convergence

  /** Without obstruction an observed user can be updated. */
  lemma ObservedPassable(s: State, m: State, upToDate: bool)
    requires Setting(s) && !Obstructed(s) && Observed(s, m, upToDate)
    ensures Passable(m, DesiredOf(s.spec, s.schema).value)
  {
    hide DesiredOf, PrivilegeTexts, RoleTexts, WantedPrivileges, WantedRoles, Entries, UpToDate, SoundEntries, Parse;
    hide R.Read;
    hide Obstructed, Carried, Undisturbed, NameTexts, Joined, Seen, MovableEntries;
    var wanted := WantedPrivileges(s.spec, s.schema);
    WantedTexts(s.spec, s.schema);
    MovesOnly(s);
    MovableParse(wanted - Seen(s), s.schema);
    MovableParse(Seen(s) - wanted, s.schema);
    JoinedTexts(Entries(s.account.roles));
    NameTextsRead(WantedRoles(s.spec));
    NameTextsRead(Joined(Entries(s.account.roles)));
  }

  lemma MovableParse(es: set<Entry<Privilege>>, schema: string)
    requires MovableEntries(es, schema)
    ensures forall t | t in PrivilegeTexts(es) :: Parse(t, schema).Ok?
  {
    hide Parse, RowText, Movable;
    forall t | t in PrivilegeTexts(es)
      ensures Parse(t, schema).Ok?
    {
      var e :| e in es && RowText(e) == t;
      MovableText(e, schema);
    }
  }

  lemma NameTextsRead(es: set<Entry<string>>)
    ensures forall t | t in NameTexts(es) :: R.Read(t).Ok?
  {
    hide R.Read, NameText;
    forall t | t in NameTexts(es)
      ensures R.Read(t).Ok?
    {
      var e :| e in es && NameText(e) == t;
      NameTextReads(e);
    }
  }

  /** Without obstruction every state has a failure-free reconciliation. */
  lemma CanReconcile(s: State) returns (t: State)
    requires Setting(s) && !Obstructed(s)
    ensures Reconciled(s, t)
  {
    hide DesiredOf, Updated, Observed, Obstructed, Passable, Setting;
    SettingFormats(s);
    var m, upToDate := CanObserve(s);
    if upToDate {
      t := m;
    } else {
      ObservedPassable(s, m, upToDate);
      ObservedFormats(s, m, upToDate);
      t := CanUpdate(m);
    }
  }

  /** After any run of failures and foreign changes, two failure-free reconciliations that make the next Observe report
      up to date exist if and only if the spec can be settled and no grant that the provider cannot move is in its
      way. */
  lemma ConvergesIff(run: seq<State>)
    requires Run(run) && Setting(run[0]) && Orderly(run)
    ensures (exists t, u, v :: Reconciled(run[|run| - 1], t) && Reconciled(t, u) && Observed(u, v, true))
       <==> Settleable(run[|run| - 1]) && !Obstructed(run[|run| - 1])
  {
    hide Move, Setting, Settleable, Obstructed, Reconciled, Observed, Foreign, Kept;
    var s := run[|run| - 1];
    RunKept(run);
    if t, u, v :| Reconciled(s, t) && Reconciled(t, u) && Observed(u, v, true) {
      Converges(run, t, u, v, true);
    }
    if Settleable(s) && !Obstructed(s) {
      var t := CanReconcile(s);
      SecondCan(s, t);
      var u := CanReconcile(t);
      SecondCan(t, u);
      SettingFormats(u);
      var v, upToDate := CanObserve(u);
      Converges(run, t, u, v, upToDate);
    }
  }

  lemma SecondCan(s: State, t: State)
    requires Setting(s) && !Obstructed(s) && Reconciled(s, t)
    ensures Setting(t) && !Obstructed(t)
  {
    hide Setting, Obstructed, Reconciled, LooksMet, UpdatedAccount;
    SettingFormats(s);
    ReconcileIsExact(s, t);
    PassUnobstructed(s, t);
  }
}
