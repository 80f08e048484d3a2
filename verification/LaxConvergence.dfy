/** Convergence under the lax policy: when failure-free reconciliations make Observe report up to date, from every state
    and for any number of them. */
module LaxConvergence {
  import opened Strings
  import opened Privileges
  import R = Roles
  import opened Grouping
  import opened Statements
  import opened Grants
  import opened SetDiff
  import opened Execution
  import opened UserModel
  import opened UserConvergence
  import opened UserProgress
  import opened UserRuns
  import opened LaxSafety

  // ---------------------------------------------------------------- the setting

  function HeldStrings(s: State): set<string> {
    PrivilegeTexts(Entries(s.account.privileges))
  }

  function ListedStrings(s: State): set<string> {
    PrivilegeTexts(WantedPrivileges(s.spec, s.schema))
  }

  /** What is held, was managed and is no longer listed. */
  function DroppedStrings(s: State): set<string> {
    (HeldStrings(s) * Elems(s.status.privileges)) - ListedStrings(s) - {DefaultPrivilege(s.schema)}
  }

  /** The grants that statements for these strings revoke. */
  function Dropped(s: State): set<Privilege> {
    KeysOf(Sends(DroppedStrings(s), s.schema))
  }

  /** A sound spec, and strings to revoke that can stand in lists and do not name a grant that the provider cannot
      move. */
  ghost predicate LaxSetting(s: State) {
    && s.spec.policy == "lax" && s.spec.usergroup != "" && DesiredOf(s.spec, s.schema).Some?
    && SoundEntries(WantedPrivileges(s.spec, s.schema), s.schema)
    && Carried(DroppedStrings(s), s.schema)
    && forall e | e in Entries(s.account.privileges) && !Movable(e.key, s.schema) :: e.key !in Dropped(s)
  }

  /** All that is listed is held, nothing is left to be revoked, and the default privilege is not listed. */
  ghost predicate LaxLooks(s: State) {
    && ListedStrings(s) <= HeldStrings(s) && DroppedStrings(s) == {} && DefaultPrivilege(s.schema) !in ListedStrings(s)
    && OthersLook(s)
  }

  /** The strings an observed status holds. */
  lemma ObservedStrings(s: State, m: State, upToDate: bool)
    requires s.spec.policy == "lax" && Observed(s, m, upToDate)
    ensures Elems(DesiredOf(s.spec, s.schema).value.privileges) == ListedStrings(s)
    ensures Elems(m.status.privileges) ==
            ((HeldStrings(s) * ListedStrings(s)) + DroppedStrings(s)) - {DefaultPrivilege(s.schema)}
    ensures ManagedStatus(m) == Elems(m.status.privileges)
  {
    hide PrivilegeTexts, RoleTexts, WantedPrivileges, DesiredOf, Entries, DefaultPrivilege, UpToDate;
    WantedTexts(s.spec, s.schema);
  }

  /** Under lax, Observe reports up to date exactly when it looks so, in every state. */
  lemma LaxObserveIsExact(s: State, m: State, upToDate: bool)
    requires s.spec.policy == "lax" && Observed(s, m, upToDate)
    ensures upToDate <==> LaxLooks(s)
  {
    hide PrivilegeTexts, RoleTexts, WantedPrivileges, WantedRoles, DesiredOf, NameTexts, Joined, Entries;
    hide DefaultPrivilege;
    hide ListedStrings, HeldStrings, ManagedStatus, Managed;
    ObservedStrings(s, m, upToDate);
    WantedTexts(s.spec, s.schema);
    JoinedTexts(Entries(s.account.roles));
    NameTextsMinus(Joined(Entries(s.account.roles)), WantedRoles(s.spec));
    StringsIff(Elems(m.status.privileges), HeldStrings(s), ListedStrings(s), DroppedStrings(s),
        DefaultPrivilege(s.schema));
  }

  lemma StringsIff(managed: set<string>, held: set<string>, listed: set<string>, dropped: set<string>, default: string)
    requires managed == ((held * listed) + dropped) - {default} && dropped !! listed && default !in dropped
    ensures managed == listed <==> listed <= held && dropped == {} && default !in listed
  {
    if managed == listed {
      forall t | t in listed
        ensures t in held && t != default
      {
        assert t in managed;
      }
      assert forall t | t in dropped :: t in managed;
    }
  }

  // ---------------------------------------------------------------- one update

  /** A failure-free update of what was just observed. */
  lemma LaxUpdate(s: State, m: State, upToDate: bool, t: State)
    requires LaxSetting(s) && DefaultPrivilege(s.schema) !in ListedStrings(s)
    requires Observed(s, m, upToDate) && Updated(m, t, true)
    ensures t.account.privileges ==
            Revoke(Grant(s.account.privileges, Sends(ListedStrings(s) - HeldStrings(s), s.schema)), Dropped(s))
  {
    hide DesiredOf, Sends, Carried, KeysOf, UpdatePath, Grant, Revoke, Observed, DroppedStrings, HeldStrings;
    hide ManagedStatus;
    hide SoundEntries, WantedPrivileges, PrivilegeTexts, DefaultPrivilege, Movable, Updated;
    ObservedParts(s, m, upToDate);
    SoundSends(WantedPrivileges(s.spec, s.schema), s.schema);
    CarriedBoth(ListedStrings(s), DroppedStrings(s), s.schema);
    UpdateSends(m, t, true, ListedStrings(s) + DroppedStrings(s));
  }

  lemma ObservedParts(s: State, m: State, upToDate: bool)
    requires s.spec.policy == "lax" && DefaultPrivilege(s.schema) !in ListedStrings(s) && Observed(s, m, upToDate)
    ensures var desired := DesiredOf(s.spec, s.schema).value;
            && m == s.(status := m.status)
            && ToGrant(m, desired) == ListedStrings(s) - HeldStrings(s) && ToRevoke(m, desired) == DroppedStrings(s)
  {
    hide PrivilegeTexts, RoleTexts, WantedPrivileges, DesiredOf, Entries, DefaultPrivilege, UpToDate;
    hide ListedStrings, HeldStrings, Managed, ManagedStatus;
    ObservedStrings(s, m, upToDate);
  }

  /** After a failure-free reconciliation the status holds exactly the listed strings, so that nothing is left to
      revoke. */
  lemma ReconciledStatus(s: State, t: State)
    requires s.spec.policy == "lax" && Reconciled(s, t)
    ensures Kept(s, t) && Elems(t.status.privileges) == ListedStrings(s) && DroppedStrings(t) == {}
  {
    hide DesiredOf, Updated, Observed, ListedStrings, HeldStrings, ManagedStatus, LaxLooks, DefaultPrivilege;
    var m, upToDate :| Observed(s, m, upToDate) && (if upToDate then t == m else Updated(m, t, true));
    ObserveKept(s, m, upToDate);
    ObservedStrings(s, m, upToDate);
    SameStrings(s, t);
    if upToDate {
      LaxObserveIsExact(s, m, upToDate);
      LaxLooksManaged(s);
    } else {
      UpdateKept(m, t, true);
      UpdateFrame(m, t);
    }
  }

  lemma SameStrings(s: State, t: State)
    ensures t.spec == s.spec && t.schema == s.schema ==> ListedStrings(t) == ListedStrings(s)
    ensures t.account.privileges == s.account.privileges ==> HeldStrings(t) == HeldStrings(s)
  {}

  lemma LaxLooksManaged(s: State)
    requires LaxLooks(s)
    ensures ((HeldStrings(s) * ListedStrings(s)) + DroppedStrings(s)) - {DefaultPrivilege(s.schema)} == ListedStrings(s)
  {
    hide ListedStrings, HeldStrings, DefaultPrivilege, OthersLook;
  }

  // ---------------------------------------------------------------- what is seen

  /** The wanted grants that are taken to be there because a grant that the provider cannot move has their string. */
  ghost function Covered(s: State): set<Entry<Privilege>> {
    set e | e in WantedPrivileges(s.spec, s.schema) &&
        RowText(e) in PrivilegeTexts(Fixed(s.account.privileges, s.schema))
  }

  ghost function Missing(s: State): set<Entry<Privilege>> {
    WantedPrivileges(s.spec, s.schema) - (Entries(s.account.privileges) + Covered(s))
  }

  /** A wanted grant that the provider cannot move is not there. */
  ghost predicate LaxObstructed(s: State) {
    exists e | e in WantedPrivileges(s.spec, s.schema) :: !Movable(e.key, s.schema) && RowText(e) !in HeldStrings(s)
  }

  /** The string of a wanted grant is held exactly when the grant is, or is covered. */
  lemma HeldIff(s: State, e: Entry<Privilege>)
    requires SoundEntries(WantedPrivileges(s.spec, s.schema), s.schema) && e in WantedPrivileges(s.spec, s.schema)
    ensures RowText(e) in HeldStrings(s) <==> e in Entries(s.account.privileges) + Covered(s)
  {
    hide RowText, SoundKey, Legible, WantedPrivileges, Movable, Free, Parse, EntryOf;
    var db, schema := s.account.privileges, s.schema;
    HeldSplit(db, schema);
    if RowText(e) in HeldStrings(s) {
      var f :| f in Entries(db) && RowText(f) == RowText(e);
      if f in Fixed(db, schema) {
        assert RowText(f) in PrivilegeTexts(Fixed(db, schema));
      } else {
        SoundLegible(f, schema);
        SoundLegible(e, schema);
        EntryText(f, schema);
        EntryText(e, schema);
      }
    }
    if e in Covered(s) {
      var f :| f in Fixed(db, schema) && RowText(f) == RowText(e);
      assert f in Entries(db);
    }
  }

  lemma MissingStrings(s: State)
    requires SoundEntries(WantedPrivileges(s.spec, s.schema), s.schema)
    ensures ListedStrings(s) - HeldStrings(s) == PrivilegeTexts(Missing(s))
    ensures ListedStrings(s) <= HeldStrings(s) <==>
            WantedPrivileges(s.spec, s.schema) <= Entries(s.account.privileges) + Covered(s)
    ensures !LaxObstructed(s) ==> MovableEntries(Missing(s), s.schema)
  {
    hide RowText, SoundKey, WantedPrivileges, Movable, Covered, HeldStrings;
    forall e | e in WantedPrivileges(s.spec, s.schema)
      ensures RowText(e) in HeldStrings(s) <==> e in Entries(s.account.privileges) + Covered(s)
      ensures RowText(e) in ListedStrings(s)
    {
      HeldIff(s, e);
    }
  }

  /** The strings of movable grants are sent to these grants. */
  lemma MovableSendsAll(es: set<Entry<Privilege>>, schema: string)
    requires MovableEntries(es, schema)
    ensures Sends(PrivilegeTexts(es), schema) == es
  {
    hide Parse, RowText, Movable, PrivilegeOf, Reach;
    forall e | e in es
      ensures Parse(RowText(e), schema) == Ok(PrivilegeOf(e)) && PrivilegeOf(e).isGrantable == e.option &&
              Reach(PrivilegeOf(e)) == Some(e.key)
    {
      MovableSound(e.key, schema);
      MovableReach(e, schema);
    }
    forall e | e in es
      ensures e in Sends(PrivilegeTexts(es), schema)
    {
      assert RowText(e) in PrivilegeTexts(es);
      assert e == Entry(e.key, e.option);
    }
  }

  lemma MovableReach(e: Entry<Privilege>, schema: string)
    requires Movable(e.key, schema)
    ensures Parse(RowText(e), schema) == Ok(PrivilegeOf(e)) && PrivilegeOf(e).isGrantable == e.option &&
            Reach(PrivilegeOf(e)) == Some(e.key)
  {
    hide Parse, RowText, SoundKey, PrivilegeOf, Reach, Direct, ToText;
    SoundReach(e, schema);
  }

  // ---------------------------------------------------------------- one reconciliation

  /** What is missing is granted, and what was given up revoked. */
  lemma LaxReconcile(s: State, t: State)
    requires LaxSetting(s) && DefaultPrivilege(s.schema) !in ListedStrings(s) && !LaxObstructed(s) && Reconciled(s, t)
    ensures t.account.privileges ==
            LaxPass(s.account.privileges, Covered(s), WantedPrivileges(s.spec, s.schema), Dropped(s))
  {
    hide DesiredOf, Updated, Observed, ListedStrings, HeldStrings, DroppedStrings, LaxObstructed, OthersLook, Covered;
    hide DefaultPrivilege;
    hide Entries, WantedPrivileges, Grant, Revoke, Sends, SoundEntries, Movable, Carried, MovableEntries;
    hide PrivilegeTexts, KeysOf;
    var m, upToDate :| Observed(s, m, upToDate) && (if upToDate then t == m else Updated(m, t, true));
    MissingStrings(s);
    MovableSendsAll(Missing(s), s.schema);
    if upToDate {
      LaxObserveIsExact(s, m, upToDate);
      ObserveKept(s, m, upToDate);
      NothingMissing(s);
    } else {
      LaxUpdate(s, m, upToDate, t);
    }
  }

  lemma NothingMissing(s: State)
    requires WantedPrivileges(s.spec, s.schema) <= Entries(s.account.privileges) + Covered(s) && DroppedStrings(s) == {}
    ensures LaxPass(s.account.privileges, Covered(s), WantedPrivileges(s.spec, s.schema), Dropped(s)) ==
            s.account.privileges
  {
    hide Entries, WantedPrivileges, Covered, DroppedStrings;
    NothingSent(s.schema);
    assert Missing(s) == {};
    GrantNone(s.account.privileges);
  }

  lemma NothingSent(schema: string)
    ensures KeysOf(Sends({}, schema)) == {}
  {}

  lemma FixedStays(s: State, t: State)
    requires LaxSetting(s) && !LaxObstructed(s) && Kept(s, t)
    requires t.account.privileges ==
             LaxPass(s.account.privileges, Covered(s), WantedPrivileges(s.spec, s.schema), Dropped(s))
    ensures Covered(t) == Covered(s) && !LaxObstructed(t)
  {
    hide Movable, Dropped, WantedPrivileges, RowText, Grant, Revoke, SoundKey, Carried, DesiredOf;
    var db, schema := s.account.privileges, s.schema;
    MissingStrings(s);
    forall e
      ensures e in Fixed(t.account.privileges, schema) <==> e in Fixed(db, schema)
    {
      if !Movable(e.key, schema) {
        FixedAt(s, t.account.privileges, e);
      }
    }
    assert Covered(t) == Covered(s);
    forall w | w in WantedPrivileges(s.spec, schema) && !Movable(w.key, schema)
      ensures RowText(w) in HeldStrings(t)
    {
      var e :| e in Entries(db) && RowText(e) == RowText(w);
      MovableDiffers(e, w, s);
      assert e in Fixed(t.account.privileges, schema);
    }
  }

  lemma FixedAt(s: State, after: map<Privilege, bool>, e: Entry<Privilege>)
    requires MovableEntries(Missing(s), s.schema) && !Movable(e.key, s.schema)
    requires e.key in s.account.privileges ==> e.key !in Dropped(s)
    requires after == Revoke(Grant(s.account.privileges, Missing(s)), Dropped(s))
    ensures e in Entries(after) <==> e in Entries(s.account.privileges)
  {
    hide Movable, Dropped, Missing, Grant, Revoke;
    MovedAt(s.account.privileges, Missing(s), Dropped(s), e.key);
    assert Entry(e.key, true) !in Missing(s) && Entry(e.key, false) !in Missing(s);
    assert e == Entry(e.key, e.option);
    HasIff(after, e.key, e.option);
    HasIff(s.account.privileges, e.key, e.option);
  }

  /** A wanted grant that the provider cannot move is not granted. */
  lemma LaxObstructedStays(s: State, t: State)
    requires s.spec.policy == "lax" && SoundEntries(WantedPrivileges(s.spec, s.schema), s.schema) && Reconciled(s, t)
    requires LaxObstructed(s)
    ensures LaxObstructed(t)
  {
    hide Observed, Updated, SoundKey, Movable, RowText, WantedPrivileges, Entries;
    ReconciledStatus(s, t);
    AddedMovable(s, t);
    var w :| w in WantedPrivileges(s.spec, s.schema) && !Movable(w.key, s.schema) && RowText(w) !in HeldStrings(s);
    forall e | e in Entries(t.account.privileges)
      ensures RowText(e) != RowText(w)
    {
      MovableDiffers(e, w, s);
    }
  }

  lemma AddedMovable(s: State, t: State)
    requires s.spec.policy == "lax" && SoundEntries(WantedPrivileges(s.spec, s.schema), s.schema) && Reconciled(s, t)
    ensures forall e | e in Entries(t.account.privileges) ::
            e in Entries(s.account.privileges) || Movable(e.key, s.schema)
  {
    hide DesiredOf, Sends, Carried, KeysOf, UpdatePath, StepsFrom, Observed, ManagedStatus, Executing;
    hide SoundEntries, WantedPrivileges, PrivilegeTexts, DefaultPrivilege, Movable, Entries;
    var m, upToDate :| Observed(s, m, upToDate) && (if upToDate then t == m else Updated(m, t, true));
    ObserveKept(s, m, upToDate);
    if !upToDate {
      var desired := DesiredOf(s.spec, s.schema).value;
      UpdatedIff(m, t, true);
      var n, k := PrivilegesFirst(m, t, true, desired);
      WantedTexts(s.spec, s.schema);
      SoundSends(WantedPrivileges(s.spec, s.schema), s.schema);
      var toGrant, toRevoke :| IsList(toGrant, ToGrant(m, desired)) && IsList(toRevoke, ToRevoke(m, desired)) &&
                               Executing(m.account.privileges, toGrant, toRevoke, s.schema, n.account.privileges, k);
      ExecutingKeeps(m.account.privileges, toGrant, toRevoke, ListedStrings(s), s.schema, n.account.privileges, k);
      SendsPart(Elems(toGrant), ListedStrings(s), s.schema);
    }
  }

  lemma OthersReconciled(s: State, t: State)
    requires s.spec.policy == "lax" && Reconciled(s, t)
    ensures OthersUpdated(s, t.account)
  {
    hide DesiredOf, UpdatePath, StepsFrom, Observed, PrivilegesStep, RolesStep, OthersUpdated, ListedStrings;
    hide HeldStrings, OthersLook;
    var m, upToDate :| Observed(s, m, upToDate) && (if upToDate then t == m else Updated(m, t, true));
    ObserveKept(s, m, upToDate);
    if upToDate {
      LaxObserveIsExact(s, m, upToDate);
      OthersStay(s);
    } else {
      var desired := DesiredOf(s.spec, s.schema).value;
      UpdatedIff(m, t, true);
      var n := NextStep(0, m, t, desired);
      OthersPass(s, m, upToDate, n, t);
    }
  }

  // ---------------------------------------------------------------- any number of reconciliations

  /** What is listed can be reached: the default privilege is not listed, every grant that the provider cannot move is
      there, and none is listed without its option and there with it, unless this is given up. */
  ghost predicate LaxSettleable(s: State) {
    && DefaultPrivilege(s.schema) !in ListedStrings(s)
    && !LaxObstructed(s)
    && (forall k :: !StuckAt(s.account.privileges, Covered(s), WantedPrivileges(s.spec, s.schema), Dropped(s), k))
    && OthersSettle(s)
  }

  lemma LaxKept(s: State, t: State)
    requires LaxSetting(s) && Reconciled(s, t)
    ensures LaxSetting(t) && Kept(s, t) && Dropped(t) == {} && DroppedStrings(t) == {}
  {
    hide DesiredOf, Reconciled, SoundEntries, WantedPrivileges, Movable, DroppedStrings, Entries;
    ReconciledStatus(s, t);
    NothingSent(s.schema);
    SendsPart({}, {}, s.schema);
    NothingCarried(s.schema);
  }

  lemma NothingCarried(schema: string)
    ensures Carried({}, schema)
  {}

  /** Whether a list can be settled does not change on the way. */
  lemma LaxSettleableStays(s: State, t: State)
    requires LaxSetting(s) && Reconciled(s, t)
    ensures LaxSettleable(t) <==> LaxSettleable(s)
  {
    hide Reconciled, LaxSetting, LaxObstructed, OthersSettle, OthersUpdated, StuckAt, LaxPass, Covered;
    hide WantedPrivileges, Dropped;
    hide ListedStrings, DefaultPrivilege, DroppedStrings, SoundEntries;
    var db, wanted := s.account.privileges, WantedPrivileges(s.spec, s.schema);
    LaxKept(s, t);
    SettingParts(s);
    SameStrings(s, t);
    OthersReconciled(s, t);
    OthersOnce(s, t);
    if LaxObstructed(s) {
      LaxObstructedStays(s, t);
    } else if DefaultPrivilege(s.schema) !in ListedStrings(s) {
      LaxReconcile(s, t);
      FixedStays(s, t);
      LaxPasses(db, Covered(s), wanted, Dropped(s));
    }
  }

  lemma SettingParts(s: State)
    requires LaxSetting(s)
    ensures s.spec.policy == "lax" && DesiredOf(s.spec, s.schema).Some? &&
            SoundEntries(WantedPrivileges(s.spec, s.schema), s.schema)
  {
    hide DesiredOf, SoundEntries, WantedPrivileges, Carried, DroppedStrings, Dropped, Entries, Movable;
  }

  lemma OthersOnce(s: State, t: State)
    requires OthersUpdated(s, t.account) && Kept(s, t)
    ensures OthersSettle(t) <==> OthersSettle(s)
  {
    hide OwnRoles, SchemaRoles, Joined, WantedRoles, ShadowPass, CanSettle;
    ShadowPasses(OwnRoles(s.account.roles), Joined(SchemaRoles(s.account.roles)), WantedRoles(s.spec));
  }

  /** Two failure-free reconciliations are enough, if anything is. */
  lemma LaxTwoReconciliationsIff(s: State, t: State, u: State)
    requires LaxSetting(s) && Reconciled(s, t) && Reconciled(t, u)
    ensures LaxLooks(u) <==> LaxSettleable(s)
    ensures LaxSetting(u)
  {
    hide Reconciled, LaxSetting, LaxObstructed, OthersSettle, OthersLook, OthersUpdated, StuckAt, LaxPass, Covered;
    hide WantedPrivileges;
    hide Dropped, ListedStrings, HeldStrings, DefaultPrivilege, DroppedStrings, SoundEntries, Entries;
    var db, wanted := s.account.privileges, WantedPrivileges(s.spec, s.schema);
    LaxKept(s, t);
    LaxKept(t, u);
    SettingParts(s);
    SettingParts(t);
    SettingParts(u);
    SameStrings(s, t);
    SameStrings(t, u);
    OthersReconciled(s, t);
    OthersReconciled(t, u);
    OthersTwice(s, t, u);
    if LaxObstructed(s) {
      LaxObstructedStays(s, t);
      LaxObstructedStays(t, u);
      ObstructedMissing(u);
    } else if DefaultPrivilege(s.schema) !in ListedStrings(s) {
      LaxReconcile(s, t);
      FixedStays(s, t);
      LaxReconcile(t, u);
      FixedStays(t, u);
      LaxPasses(db, Covered(s), wanted, Dropped(s));
      MissingStrings(u);
    }
  }

  lemma ObstructedMissing(s: State)
    requires LaxObstructed(s)
    ensures !(ListedStrings(s) <= HeldStrings(s))
  {
    hide RowText, Movable, WantedPrivileges, HeldStrings;
    var e :| e in WantedPrivileges(s.spec, s.schema) && !Movable(e.key, s.schema) && RowText(e) !in HeldStrings(s);
    assert RowText(e) in ListedStrings(s);
  }

  ghost predicate Reconciliations(states: seq<State>) {
    |states| > 0 && forall i | 0 < i < |states| :: Reconciled(states[i - 1], states[i])
  }

  lemma {:induction false} ManyReconciliations(states: seq<State>)
    requires Reconciliations(states) && LaxSetting(states[0])
    ensures LaxSetting(states[|states| - 1]) && (LaxSettleable(states[|states| - 1]) <==> LaxSettleable(states[0]))
    decreases |states|
  {
    hide Reconciled, LaxSetting, LaxSettleable;
    if |states| > 1 {
      var shorter := states[..|states| - 1];
      ManyReconciliations(shorter);
      assert Reconciled(states[|states| - 2], states[|states| - 1]);
      LaxSettleableStays(states[|states| - 2], states[|states| - 1]);
      LaxKept(states[|states| - 2], states[|states| - 1]);
    }
  }

  /** Convergence under lax: after two or more failure-free reconciliations Observe reports up to date if and only if
      the list could be settled at the start. What cannot be settled is never reported up to date, however often it is
      reconciled. */
  lemma LaxConverges(states: seq<State>, v: State, upToDate: bool)
    requires Reconciliations(states) && |states| >= 3 && LaxSetting(states[0]) &&
             Observed(states[|states| - 1], v, upToDate)
    ensures upToDate <==> LaxSettleable(states[0])
  {
    hide Reconciled, LaxSetting, LaxSettleable, LaxLooks, Observed;
    var n := |states|;
    var first := states[..n - 2];
    ManyReconciliations(first);
    assert first[|first| - 1] == states[n - 3];
    assert Reconciled(states[n - 3], states[n - 2]) && Reconciled(states[n - 2], states[n - 1]);
    LaxTwoReconciliationsIff(states[n - 3], states[n - 2], states[n - 1]);
    SettingParts(states[n - 1]);
    LaxObserveIsExact(states[n - 1], v, upToDate);
  }

  /** A privilege that is first listed without its option while the user holds it with the option never settles. */
  lemma FirstListedNever(s: State, k: Privilege)
    requires s.status.privileges == [] && Has(s.account.privileges, k, true)
    requires Entry(k, false) in WantedPrivileges(s.spec, s.schema) - Covered(s)
    ensures !LaxSettleable(s)
  {
    hide LaxObstructed, OthersSettle, Covered, WantedPrivileges, ListedStrings, HeldStrings, DefaultPrivilege;
    assert DroppedStrings(s) == {};
    NothingSent(s.schema);
    assert StuckAt(s.account.privileges, Covered(s), WantedPrivileges(s.spec, s.schema), Dropped(s), k);
  }

  /** Without an unreadable string to revoke every state has a failure-free reconciliation. */
  lemma LaxCanReconcile(s: State) returns (t: State)
    requires LaxSetting(s) && DefaultPrivilege(s.schema) !in ListedStrings(s)
    requires forall r | r in DroppedStrings(s) :: Parse(r, s.schema).Ok?
    ensures Reconciled(s, t)
  {
    hide DesiredOf, Updated, Observed, LaxSetting, Passable, ListedStrings, DroppedStrings, Parse, DefaultPrivilege;
    SettingParts(s);
    var m, upToDate := CanObserve(s);
    if upToDate {
      t := m;
    } else {
      LaxPassable(s, m, upToDate);
      ObservedFormats(s, m, upToDate);
      t := CanUpdate(m);
    }
  }

  lemma LaxPassable(s: State, m: State, upToDate: bool)
    requires LaxSetting(s) && DefaultPrivilege(s.schema) !in ListedStrings(s) && Observed(s, m, upToDate)
    requires forall r | r in DroppedStrings(s) :: Parse(r, s.schema).Ok?
    ensures Passable(m, DesiredOf(s.spec, s.schema).value)
  {
    hide PrivilegeTexts, RoleTexts, WantedPrivileges, WantedRoles, DesiredOf, Entries, UpToDate, SoundEntries, Parse;
    hide R.Read;
    hide ListedStrings, HeldStrings, DroppedStrings, ToGrant, ToRevoke, ManagedStatus, Managed, NameTexts, Joined;
    hide DefaultPrivilege;
    hide LaxSetting, Movable;
    SettingParts(s);
    ObservedParts(s, m, upToDate);
    ListedParse(s);
    WantedTexts(s.spec, s.schema);
    JoinedTexts(Entries(s.account.roles));
    NameTextsRead(WantedRoles(s.spec));
    NameTextsRead(Joined(Entries(s.account.roles)));
  }

  lemma ListedParse(s: State)
    requires SoundEntries(WantedPrivileges(s.spec, s.schema), s.schema)
    ensures forall r | r in ListedStrings(s) :: Parse(r, s.schema).Ok?
  {
    hide Parse, RowText, SoundKey, WantedPrivileges, Legible;
    forall r | r in ListedStrings(s)
      ensures Parse(r, s.schema).Ok?
    {
      var e :| e in WantedPrivileges(s.spec, s.schema) && RowText(e) == r;
      SoundLegible(e, s.schema);
      EntryText(e, s.schema);
    }
  }
}
