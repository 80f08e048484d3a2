/** Whole runs of the user reconciler under the strict policy: from every state, and so after every run of failing
    statements and foreign grants, two failure-free reconciliations make Observe report up to date exactly when the spec
    can be settled and nothing that the provider cannot move stands in the way. */
module UserRuns {
  import opened Strings
  import opened Privileges
  import opened RoundTrip
  import opened Grammar
  import R = Roles
  import opened Grouping
  import opened Statements
  import opened Grants
  import opened SetDiff
  import opened Execution
  import opened UserModel
  import opened UserConvergence

  // ---------------------------------------------------------------- runs

  /** Somebody else changes the account, but not its parameters. */
  ghost predicate Foreign(s: State, t: State) {
    t == s.(account := t.account) && t.account.parameters == s.account.parameters
  }

  /** One event of a run with a fixed spec: Observe, Update with or without a failure, or a foreign change. */
  ghost predicate Move(s: State, t: State) {
    (exists upToDate :: Observed(s, t, upToDate)) || (exists ok :: Updated(s, t, ok)) || Foreign(s, t)
  }

  ghost predicate Run(states: seq<State>) {
    |states| > 0 && forall i | 0 < i < |states| :: Move(states[i - 1], states[i])
  }

  /** Foreign changes stay in the setting of the theorem. */
  ghost predicate Orderly(states: seq<State>) {
    forall i | 0 < i < |states| :: Foreign(states[i - 1], states[i]) ==> Setting(states[i])
  }

  /** What no event changes while the spec is fixed. */
  predicate Kept(s: State, t: State) {
    t.spec == s.spec && t.schema == s.schema && t.account.parameters == s.account.parameters
  }

  // ---------------------------------------------------------------- where statements go

  /** The text of a sound grant parses, and its statement goes to a sound grant without a dot, to itself if it has
      none. */
  lemma SoundReach(e: Entry<Privilege>, schema: string)
    requires SoundKey(e.key, schema)
    ensures var p := PrivilegeOf(e);
            && Parse(RowText(e), schema) == Ok(p) && RowText(e) == ToText(p) && Listable(p) && p.isGrantable == e.option
            && Reach(p).Some? && SoundKey(Reach(p).value, schema) && Direct(Reach(p).value)
            && (Direct(e.key) ==> Reach(p).value == e.key)
  {
    hide Parse, ToText, RowText, Canonical, PlainName, Reach, Sent, Direct;
    SoundLegible(e, schema);
    EntryText(e, schema);
    var p := PrivilegeOf(e);
    assert BaseOf(p) == e.key;
    SameDirect(p, e.key);
    if Direct(e.key) {
      ReachSelf(p);
    } else {
      ElsewhereSound(e.key, p, schema);
    }
  }

  lemma SameDirect(p: Privilege, k: Privilege)
    requires k == p.(isGrantable := false)
    ensures (Direct(p) <==> Direct(k)) && Sent(p) == Sent(k)
  {}

  lemma ElsewhereSound(k: Privilege, p: Privilege, schema: string)
    requires SoundKey(k, schema) && !Direct(k) && k == p.(isGrantable := false)
    ensures Reach(p) == Some(Sent(p)) && SoundKey(Sent(p), schema) && Direct(Sent(p))
  {
    hide Reach, Sent, PlainName, NameShape, Bare, SpecialPrefix;
    SameDirect(p, k);
    ReachElsewhere(p);
    SplitAgain(p);
  }

  /** The strings of sound grants go to grants that can be moved. */
  lemma SoundSends(es: set<Entry<Privilege>>, schema: string)
    requires SoundEntries(es, schema)
    ensures Carried(PrivilegeTexts(es), schema)
    ensures forall k | k in KeysOf(Sends(PrivilegeTexts(es), schema)) :: Movable(k, schema)
  {
    hide Parse, ToText, RowText, SoundKey, PrivilegeOf, Listable, Reach, Direct;
    var ts := PrivilegeTexts(es);
    forall t | t in ts && Parse(t, schema).Ok?
      ensures CarriedAs(t, Parse(t, schema).value)
      ensures Reach(Parse(t, schema).value).Some? && Movable(Reach(Parse(t, schema).value).value, schema)
    {
      var e :| e in es && RowText(e) == t;
      SoundReach(e, schema);
    }
  }

  /** The string of a movable grant goes to this grant. */
  lemma MovableSends(e: Entry<Privilege>, schema: string)
    requires Movable(e.key, schema)
    ensures Carried({RowText(e)}, schema) && KeysOf(Sends({RowText(e)}, schema)) == {e.key}
  {
    hide Parse, ToText, RowText, SoundKey, PrivilegeOf, Listable, Reach, Direct;
    SoundReach(e, schema);
    var p := PrivilegeOf(e);
    assert Sends({RowText(e)}, schema) == {Entry(Reach(p).value, p.isGrantable)};
  }

  /** The setting for what is held after an update: old grants, and grants that can be moved. */
  lemma StillCarried(held: set<Entry<Privilege>>, after: set<Entry<Privilege>>, schema: string)
    requires Carried(PrivilegeTexts(held), schema)
    requires forall e | e in after :: e in held || Movable(e.key, schema)
    ensures Carried(PrivilegeTexts(after), schema)
  {
    hide Parse, CarriedAs, RowText, Movable;
    forall t | t in PrivilegeTexts(after) && Parse(t, schema).Ok?
      ensures CarriedAs(t, Parse(t, schema).value)
    {
      var e :| e in after && RowText(e) == t;
      if e in held {
        assert t in PrivilegeTexts(held);
      } else {
        MovableSends(e, schema);
      }
    }
  }

  lemma SentFrom(texts: set<string>, schema: string, k: Privilege) returns (t: string)
    requires k in KeysOf(Sends(texts, schema))
    ensures t in texts && k in KeysOf(Sends({t}, schema))
  {
    hide Parse, Reach;
    t :| t in texts && Parse(t, schema).Ok? && Reach(Parse(t, schema).value).Some? &&
        Reach(Parse(t, schema).value).value == k;
    assert Entry(k, Parse(t, schema).value.isGrantable) in Sends({t}, schema);
  }

  lemma StillUndisturbed(held: set<Entry<Privilege>>, after: set<Entry<Privilege>>, wanted: set<Entry<Privilege>>,
                         schema: string)
    requires Undisturbed(held, wanted, schema)
    requires forall e | e in after :: e in held || Movable(e.key, schema)
    ensures Undisturbed(after, wanted, schema)
  {
    hide Sends, KeysOf, RowText, Movable;
    var all := PrivilegeTexts(held) + PrivilegeTexts(wanted);
    forall e | e in after + wanted && !Movable(e.key, schema)
      ensures e.key !in KeysOf(Sends(PrivilegeTexts(after) + PrivilegeTexts(wanted), schema))
    {
      if e.key in KeysOf(Sends(PrivilegeTexts(after) + PrivilegeTexts(wanted), schema)) {
        var t := SentFrom(PrivilegeTexts(after) + PrivilegeTexts(wanted), schema, e.key);
        if t in all {
          SendsPart({t}, all, schema);
        } else {
          var f :| f in after && RowText(f) == t;
          MovableSends(f, schema);
        }
      }
    }
  }

  lemma PrivilegesKept(s: State, t: State, ok: bool)
    requires Setting(s) && PrivilegesStep(s, t, ok, DesiredOf(s.spec, s.schema).value)
    ensures Setting(t)
  {
    hide PrivilegeTexts, WantedPrivileges, DesiredOf, Sends, Executing, SoundEntries, ManagedStatus, Carried, KeysOf;
    hide Entries;
    hide Undisturbed, Movable;
    var wanted, held := WantedPrivileges(s.spec, s.schema), Entries(s.account.privileges);
    var desired := DesiredOf(s.spec, s.schema).value;
    WantedTexts(s.spec, s.schema);
    SoundSends(wanted, s.schema);
    var toGrant, toRevoke :| IsList(toGrant, ToGrant(s, desired)) && IsList(toRevoke, ToRevoke(s, desired)) &&
                             Executing(s.account.privileges, toGrant, toRevoke, s.schema, t.account.privileges, ok);
    ExecutingKeeps(s.account.privileges, toGrant, toRevoke, PrivilegeTexts(wanted), s.schema, t.account.privileges, ok);
    SendsPart(Elems(toGrant), PrivilegeTexts(wanted), s.schema);
    StillCarried(held, Entries(t.account.privileges), s.schema);
    StillUndisturbed(held, Entries(t.account.privileges), wanted, s.schema);
  }

  lemma StepKept(i: nat, s: State, t: State, ok: bool)
    requires DesiredOf(s.spec, s.schema).Some? && Step(i, s, t, ok, DesiredOf(s.spec, s.schema).value)
    ensures Kept(s, t) && (Setting(s) ==> Setting(t))
  {
    hide PrivilegeTexts, RoleTexts, WantedPrivileges, SoundEntries, DesiredOf, Executing, Entries, RolesRun, ToGrant;
    hide ToRevoke;
    hide Carried, Undisturbed;
    if i == 0 && Setting(s) {
      PrivilegesKept(s, t, ok);
    }
  }

  lemma {:induction false} StepsKept(i: nat, s: State, t: State, ok: bool)
    requires i <= 6 && DesiredOf(s.spec, s.schema).Some? && StepsFrom(i, s, t, ok, DesiredOf(s.spec, s.schema).value)
    ensures Kept(s, t) && (Setting(s) ==> Setting(t))
    decreases 6 - i
  {
    hide Step, DesiredOf, Setting;
    var desired := DesiredOf(s.spec, s.schema).value;
    if i < 6 {
      var m, k :| Step(i, s, m, k, desired) && (if k then StepsFrom(i + 1, m, t, ok, desired) else t == m && !ok);
      StepKept(i, s, m, k);
      if k {
        StepsKept(i + 1, m, t, ok);
      }
    }
  }

  lemma UpdateKept(s: State, t: State, ok: bool)
    requires Updated(s, t, ok)
    ensures Kept(s, t) && (Setting(s) ==> Setting(t))
  {
    hide StepsFrom, DesiredOf, Setting, UpdatePath;
    UpdatedIff(s, t, ok);
    StepsKept(0, s, t, ok);
  }

  lemma ObserveKept(s: State, t: State, upToDate: bool)
    requires Observed(s, t, upToDate)
    ensures Kept(s, t) && t.account == s.account && (Setting(s) <==> Setting(t))
  {
    hide DesiredOf, PrivilegeTexts, RoleTexts, UpToDate, WantedPrivileges, SoundEntries, Carried, Undisturbed;
  }

  lemma MoveKept(s: State, t: State)
    requires Move(s, t)
    ensures Kept(s, t)
    ensures Setting(s) && (Foreign(s, t) ==> Setting(t)) ==> Setting(t)
  {
    hide Observed, Updated, Setting;
    if upToDate :| Observed(s, t, upToDate) {
      ObserveKept(s, t, upToDate);
    } else if ok :| Updated(s, t, ok) {
      UpdateKept(s, t, ok);
    }
  }

  lemma {:induction false} RunKept(run: seq<State>)
    requires Run(run)
    ensures Kept(run[0], run[|run| - 1])
    ensures Setting(run[0]) && Orderly(run) ==> Setting(run[|run| - 1])
    decreases |run|
  {
    hide Move, Setting, Foreign;
    if |run| > 1 {
      var shorter := run[..|run| - 1];
      RunKept(shorter);
      assert Orderly(run) ==> Orderly(shorter);
      assert Move(run[|run| - 2], run[|run| - 1]);
      MoveKept(run[|run| - 2], run[|run| - 1]);
    }
  }

  // ---------------------------------------------------------------- what can never be met

  /** What a spec must not ask for: a grant with and without its option, other parameters, a password without a
      secret. */
  ghost predicate Attainable(s: State) {
    && Consistent(WantedPrivileges(s.spec, s.schema))
    && Consistent(WantedRoles(s.spec))
    && s.account.parameters == s.spec.parameters
    && !s.spec.password.WithoutSecret?
  }

  lemma MetAttainable(s: State)
    requires Met(s)
    ensures Attainable(s)
  {
    hide WantedPrivileges, WantedRoles, OwnRoles, SchemaRoles, Joined, Schemaless;
    InconsistentNever(s.account.privileges, WantedPrivileges(s.spec, s.schema));
    RolesMetIff(s.account.roles, WantedRoles(s.spec));
    JoinedIs(s.account.roles);
    NoneJoined();
    assert Entries(OwnRoles(s.account.roles)) == WantedRoles(s.spec);
    InconsistentNever(OwnRoles(s.account.roles), WantedRoles(s.spec));
  }

  lemma NoneJoined()
    ensures Joined({}) == {}
  {}

  /** No run, however long and whatever fails or interferes, meets a spec that is not attainable at its start. */
  lemma UnattainableNever(run: seq<State>)
    requires Run(run) && Met(run[|run| - 1])
    ensures Attainable(run[0])
  {
    hide Met, Setting, Consistent, Move;
    RunKept(run);
    MetAttainable(run[|run| - 1]);
  }

  // ---------------------------------------------------------------- obstructions

  /** The statements of an update that was just observed, with all that they are sent to. */
  lemma ObservedEffect(s: State, m: State, upToDate: bool, t: State, ok: bool)
    requires Setting(s) && Observed(s, m, upToDate) && PrivilegesStep(m, t, ok, DesiredOf(s.spec, s.schema).value)
    ensures var db, schema := s.account.privileges, s.schema;
            var held, wanted := PrivilegeTexts(Entries(db)), PrivilegeTexts(WantedPrivileges(s.spec, schema));
            && Effect(db, Sends(wanted - held, schema), KeysOf(Sends(held - wanted, schema)), t.account.privileges, ok)
            && ((exists r | r in held - wanted :: Parse(r, schema).Err?) ==>
                  !ok && Effect(db, Sends(wanted - held, schema), {}, t.account.privileges, false))
  {
    hide PrivilegeTexts, RoleTexts, WantedPrivileges, DesiredOf, Sends, Executing, Carried, KeysOf, Entries, UpToDate;
    hide Effect;
    hide Parse, Undisturbed, SoundEntries;
    var db, schema := s.account.privileges, s.schema;
    var held, wanted := PrivilegeTexts(Entries(db)), PrivilegeTexts(WantedPrivileges(s.spec, schema));
    var desired := DesiredOf(s.spec, schema).value;
    WantedTexts(s.spec, schema);
    SoundSends(WantedPrivileges(s.spec, schema), schema);
    assert ManagedStatus(m) == held;
    var toGrant, toRevoke :| IsList(toGrant, ToGrant(m, desired)) && IsList(toRevoke, ToRevoke(m, desired)) &&
                             Executing(db, toGrant, toRevoke, schema, t.account.privileges, ok);
    CarriedBoth(wanted, held, schema);
    ExecutingEffect(db, toGrant, toRevoke, wanted + held, schema, t.account.privileges, ok);
  }

  lemma CarriedBoth(ts: set<string>, us: set<string>, schema: string)
    requires Carried(ts, schema) && Carried(us, schema)
    ensures Carried(ts + us, schema)
  {
    hide Parse, CarriedAs;
  }

  lemma EffectElsewhere(db: map<Privilege, bool>, grants: set<Entry<Privilege>>, revokes: set<Privilege>,
                        after: map<Privilege, bool>, ok: bool, k: Privilege)
    requires Effect(db, grants, revokes, after, ok) && k !in KeysOf(grants) && k !in revokes
    ensures forall g :: Entry(k, g) in Entries(after) <==> Entry(k, g) in Entries(db)
  {
    hide Grant, Revoke, Entries;
    var es, ks :| es <= grants && ks <= revokes && after == Revoke(Grant(db, es), ks);
    assert KeysOf(es) <= KeysOf(grants);
    MovedAt(db, es, ks, k);
    InKeysOf(es, k);
    forall g
      ensures Entry(k, g) in Entries(after) <==> Entry(k, g) in Entries(db)
    {
      HasIff(after, k, g);
      HasIff(db, k, g);
    }
  }

  /** An update that was just observed does not move what cannot be moved. */
  lemma ImmovableStays(s: State, m: State, upToDate: bool, t: State, ok: bool, e: Entry<Privilege>)
    requires Setting(s) && Observed(s, m, upToDate) && PrivilegesStep(m, t, ok, DesiredOf(s.spec, s.schema).value)
    requires e in Entries(s.account.privileges) + WantedPrivileges(s.spec, s.schema) && !Movable(e.key, s.schema)
    ensures e in Entries(t.account.privileges) <==> e in Entries(s.account.privileges)
  {
    hide RoleTexts, WantedPrivileges, DesiredOf, Sends, KeysOf, Entries, UpToDate, Effect, Parse, SoundEntries, Carried;
    hide Movable;
    hide PrivilegesStep, Observed, PrivilegeTexts;
    var db, schema := s.account.privileges, s.schema;
    var held, wanted := PrivilegeTexts(Entries(db)), PrivilegeTexts(WantedPrivileges(s.spec, schema));
    ObservedEffect(s, m, upToDate, t, ok);
    SendsPart(wanted - held, held + wanted, schema);
    SendsPart(held - wanted, held + wanted, schema);
    EffectElsewhere(db, Sends(wanted - held, schema), KeysOf(Sends(held - wanted, schema)), t.account.privileges, ok,
        e.key);
    assert e == Entry(e.key, e.option);
  }

  /** And what it adds can be moved. */
  lemma AddedIsMovable(s: State, m: State, upToDate: bool, t: State, ok: bool)
    requires Setting(s) && Observed(s, m, upToDate) && PrivilegesStep(m, t, ok, DesiredOf(s.spec, s.schema).value)
    ensures forall e | e in Entries(t.account.privileges) ::
            e in Entries(s.account.privileges) || Movable(e.key, s.schema)
  {
    hide RoleTexts, WantedPrivileges, DesiredOf, Sends, KeysOf, Entries, UpToDate, Parse, SoundEntries, Carried;
    hide Movable, Executing;
    hide PrivilegeTexts, Undisturbed, ManagedStatus;
    var wanted := WantedPrivileges(s.spec, s.schema);
    var desired := DesiredOf(s.spec, s.schema).value;
    WantedTexts(s.spec, s.schema);
    SoundSends(wanted, s.schema);
    var toGrant, toRevoke :| IsList(toGrant, ToGrant(m, desired)) && IsList(toRevoke, ToRevoke(m, desired)) &&
                             Executing(m.account.privileges, toGrant, toRevoke, s.schema, t.account.privileges, ok);
    ExecutingKeeps(m.account.privileges, toGrant, toRevoke, PrivilegeTexts(wanted), s.schema, t.account.privileges, ok);
    SendsPart(Elems(toGrant), PrivilegeTexts(wanted), s.schema);
  }

  lemma UnreadableText(e: Entry<Privilege>, wanted: set<Entry<Privilege>>, schema: string)
    requires Unreadable(e, schema) && SoundEntries(wanted, schema)
    ensures Parse(RowText(e), schema).Err? && RowText(e) !in PrivilegeTexts(wanted) && !Movable(e.key, schema)
  {
    hide Parse, RowText, SoundKey, PrivilegeOf, Legible;
    forall f | f in wanted
      ensures RowText(f) != RowText(e)
    {
      SoundLegible(f, schema);
      EntryText(f, schema);
    }
    if SoundKey(e.key, schema) {
      SoundLegible(e, schema);
      EntryText(e, schema);
    }
  }

  /** A held grant whose text cannot be read blocks every update at its first step: no update succeeds, nothing is
      revoked, roles, usergroup and password are not touched, and the grant stays. */
  lemma BlockedStays(s: State, m: State, upToDate: bool, t: State, ok: bool, e: Entry<Privilege>)
    requires Setting(s) && Observed(s, m, upToDate) && Updated(m, t, ok)
    requires e in Entries(s.account.privileges) && Unreadable(e, s.schema)
    ensures !upToDate && !ok && t.account == s.account.(privileges := t.account.privileges)
    ensures e in Entries(t.account.privileges) && Setting(t)
  {
    hide Unreadable, DesiredOf, StepsFrom, UpdatePath, PrivilegesStep, RolesStep, Setting, Observed, Entries;
    ObserveKept(s, m, upToDate);
    UpdateKept(m, t, ok);
    SettingFormats(s);
    UpdatedIff(m, t, ok);
    var n, k := GrantsStep(m, t, ok, DesiredOf(s.spec, s.schema).value);
    BlockedStep(s, m, upToDate, n, k, e);
  }

  lemma SettingFormats(s: State)
    requires Setting(s)
    ensures DesiredOf(s.spec, s.schema).Some? && s.spec.policy == "strict" &&
            SoundEntries(WantedPrivileges(s.spec, s.schema), s.schema)
  {
    hide DesiredOf, WantedPrivileges, SoundEntries, Carried, Undisturbed;
  }

  lemma GrantsStep(s: State, t: State, ok: bool, desired: Desired) returns (m: State, k: bool)
    requires StepsFrom(0, s, t, ok, desired)
    ensures PrivilegesStep(s, m, k, desired) && if k then StepsFrom(1, m, t, ok, desired) else t == m && !ok
  {
    hide PrivilegesStep, RolesStep;
    m, k :| Step(0, s, m, k, desired) && (if k then StepsFrom(1, m, t, ok, desired) else t == m && !ok);
  }

  lemma BlockedStep(s: State, m: State, upToDate: bool, t: State, ok: bool, e: Entry<Privilege>)
    requires Setting(s) && Observed(s, m, upToDate) && PrivilegesStep(m, t, ok, DesiredOf(s.spec, s.schema).value)
    requires e in Entries(s.account.privileges) && Unreadable(e, s.schema)
    ensures !upToDate && !ok && e in Entries(t.account.privileges)
    ensures t.account == s.account.(privileges := t.account.privileges)
  {
    hide WantedPrivileges, WantedRoles, DesiredOf, Sends, Entries, Unreadable, UpToDate, Effect, Parse, RowText;
    hide SoundEntries;
    hide Carried, Undisturbed, Executing, Movable, RoleTexts, KeysOf, Joined, OtherwiseMet;
    var held, wanted := Entries(s.account.privileges), WantedPrivileges(s.spec, s.schema);
    UnreadableText(e, wanted, s.schema);
    ObservedEffect(s, m, upToDate, t, ok);
    assert RowText(e) in PrivilegeTexts(held) - PrivilegeTexts(wanted);
    ImmovableStays(s, m, upToDate, t, ok, e);
    ObserveIsExact(s, m, upToDate);
  }

  /** What the provider cannot move it does not move: an obstruction survives every failure-free reconciliation. */
  lemma ObstructedStays(s: State, t: State)
    requires Setting(s) && Obstructed(s) && Reconciled(s, t)
    ensures Obstructed(t) && Setting(t) && Kept(s, t)
  {
    hide Observed, Updated, Setting, Obstructed, LooksMet;
    var m, upToDate :| Observed(s, m, upToDate) && (if upToDate then t == m else Updated(m, t, true));
    ObserveKept(s, m, upToDate);
    SettingFormats(s);
    ObserveIsExact(s, m, upToDate);
    ObstructedLooks(s);
    UpdateKept(m, t, true);
    ObstructionLeft(s, m, t);
  }

  lemma ObstructedLooks(s: State)
    requires SoundEntries(WantedPrivileges(s.spec, s.schema), s.schema)
    ensures LooksMet(s) ==> !Obstructed(s)
  {
    hide Obstructed, WantedPrivileges, WantedRoles, SoundEntries, PrivilegeTexts, Joined, OtherwiseMet, Seen, Entries;
    LooksIff(s);
  }

  lemma ObstructionLeft(s: State, m: State, t: State)
    requires Setting(s) && Obstructed(s) && Observed(s, m, false) && Updated(m, t, true) && Kept(s, t)
    ensures Obstructed(t)
  {
    hide DesiredOf, StepsFrom, UpdatePath, PrivilegesStep, RolesStep, Setting, Observed, Obstructed;
    ObserveKept(s, m, false);
    SettingFormats(s);
    UpdatedIff(m, t, true);
    var n, k := GrantsStep(m, t, true, DesiredOf(s.spec, s.schema).value);
    GrantsLast(n, t, DesiredOf(s.spec, s.schema).value);
    ObstructionStep(s, m, n, k);
    SameObstruction(n.(spec := s.spec, schema := s.schema), t);
  }

  lemma ObstructionStep(s: State, m: State, t: State, ok: bool)
    requires Setting(s) && Obstructed(s) && Observed(s, m, false) &&
             PrivilegesStep(m, t, ok, DesiredOf(s.spec, s.schema).value)
    ensures Obstructed(t.(spec := s.spec, schema := s.schema))
  {
    hide DesiredOf, PrivilegesStep, Setting, Observed, WantedPrivileges, RowText, Movable;
    var u := t.(spec := s.spec, schema := s.schema);
    var schema, wanted := s.schema, WantedPrivileges(s.spec, s.schema);
    SettingFormats(s);
    if e :| e in Fixed(s.account.privileges, schema) && RowText(e) !in PrivilegeTexts(wanted) {
      ImmovableStays(s, m, false, t, ok, e);
      assert e in Fixed(u.account.privileges, schema);
    } else {
      var w :| w in wanted && !Movable(w.key, schema) && RowText(w) !in PrivilegeTexts(Entries(s.account.privileges));
      AddedIsMovable(s, m, false, t, ok);
      forall e | e in Entries(t.account.privileges)
        ensures RowText(e) != RowText(w)
      {
        MovableDiffers(e, w, s);
      }
    }
  }

  /** No movable grant has the text of a wanted one that is not movable. */
  lemma MovableDiffers(e: Entry<Privilege>, w: Entry<Privilege>, s: State)
    requires SoundKey(w.key, s.schema) && !Movable(w.key, s.schema)
    ensures Movable(e.key, s.schema) ==> RowText(e) != RowText(w)
  {
    hide RowText, SoundKey, Legible, Direct, Parse;
    if Movable(e.key, s.schema) {
      SoundLegible(e, s.schema);
      SoundLegible(w, s.schema);
      EntryText(e, s.schema);
      EntryText(w, s.schema);
    }
  }

  /** The steps after the first leave the privileges alone. */
  lemma GrantsLast(m: State, t: State, desired: Desired)
    requires StepsFrom(1, m, t, true, desired)
    ensures t.account.privileges == m.account.privileges
  {
    hide StepsFrom, PrivilegesStep, RolesRun;
    var n := NextStep(1, m, t, desired);
    var o := MiddleSteps(n, t, desired);
    FinalStep(o, t, desired);
  }

  /** A role of a schema is never moved, whatever is observed or updated. */
  lemma SchemaRoleStays(s: State, t: State, ok: bool)
    requires Updated(s, t, ok)
    ensures SchemaRoles(t.account.roles) == SchemaRoles(s.account.roles)
  {
    hide DesiredOf, StepsFrom, UpdatePath, SchemaRoles;
    UpdatedIff(s, t, ok);
    SchemaRoleSteps(0, s, t, ok, DesiredOf(s.spec, s.schema).value);
  }

  lemma {:induction false} SchemaRoleSteps(i: nat, s: State, t: State, ok: bool, desired: Desired)
    requires i <= 6 && StepsFrom(i, s, t, ok, desired)
    ensures SchemaRoles(t.account.roles) == SchemaRoles(s.account.roles)
    decreases 6 - i
  {
    hide Step, SchemaRoles;
    if i < 6 {
      var m, k :| Step(i, s, m, k, desired) && (if k then StepsFrom(i + 1, m, t, ok, desired) else t == m && !ok);
      SchemaRoleStep(i, s, m, k, desired);
      if k {
        SchemaRoleSteps(i + 1, m, t, ok, desired);
      }
    }
  }

  lemma SchemaRoleStep(i: nat, s: State, t: State, ok: bool, desired: Desired)
    requires Step(i, s, t, ok, desired)
    ensures SchemaRoles(t.account.roles) == SchemaRoles(s.account.roles)
  {
    hide Executing, SchemaRoles, Grant, Revoke, KeysOf, ReadEntries, ToGrant, ToRevoke;
    if i == 1 {
      var toGrant, toRevoke := Elems(desired.roles) - Elems(s.status.roles), Elems(s.status.roles) -
          Elems(desired.roles);
      assert Effect(s.account.roles, ReadEntries(toGrant), KeysOf(ReadEntries(toRevoke)), t.account.roles, ok);
      SchemalessEffect(s.account.roles, toGrant, toRevoke, t.account.roles, ok);
    }
  }

  lemma SchemalessEffect(db: map<R.RoleKey, bool>, toGrant: set<string>, toRevoke: set<string>,
                         after: map<R.RoleKey, bool>, ok: bool)
    requires Effect(db, ReadEntries(toGrant), KeysOf(ReadEntries(toRevoke)), after, ok)
    ensures SchemaRoles(after) == SchemaRoles(db)
  {
    hide Grant, Revoke, R.Read, SchemaRoles;
    var es, ks :|
        es <= ReadEntries(toGrant) && ks <= KeysOf(ReadEntries(toRevoke)) && after == Revoke(Grant(db, es), ks);
    forall e
      ensures e in SchemaRoles(after) <==> e in SchemaRoles(db)
    {
      SchemaRoleAt(db, after, es, ks, e);
    }
  }

  // ---------------------------------------------------------------- convergence

  /** The lists can be settled by passes, given what is seen of immovable grants and of roles of a schema; the
      parameters are those of the account, and a password has a secret. */
  ghost predicate Settleable(s: State) {
    && CanSettle(Free(s.account.privileges, s.schema), Shadow(s.account.privileges, s.schema),
       WantedPrivileges(s.spec, s.schema))
    && OthersSettle(s)
  }

  /** No grant is there with the wrong option only, and the password needs at most one statement. */
  ghost predicate OnePassEnough(s: State) {
    && (forall k :: !OptionOff(Free(s.account.privileges, s.schema), Shadow(s.account.privileges, s.schema),
       WantedPrivileges(s.spec, s.schema), k))
    && (forall n :: !OptionOff(OwnRoles(s.account.roles), Joined(SchemaRoles(s.account.roles)), WantedRoles(s.spec), n))
    && (s.spec.password.FromSecret? && !s.account.passwordEnabled ==> s.account.password == s.spec.password.secret)
  }

  /** What looks met is unobstructed and settled. */
  lemma LooksParts(s: State)
    requires SoundEntries(WantedPrivileges(s.spec, s.schema), s.schema)
    ensures LooksMet(s) <==>
            && !Obstructed(s)
            && Settled(Free(s.account.privileges, s.schema), Shadow(s.account.privileges, s.schema),
               WantedPrivileges(s.spec, s.schema))
            && Settled(OwnRoles(s.account.roles), Joined(SchemaRoles(s.account.roles)), WantedRoles(s.spec))
            && OtherwiseMet(s)
  {
    hide Obstructed, Free, Shadow, OwnRoles, SchemaRoles, Joined, WantedPrivileges, WantedRoles, PrivilegeTexts;
    hide Entries, OtherwiseMet;
    LooksIff(s);
    JoinedIs(s.account.roles);
  }

  /** What else looks met is left alone by a pass. */
  lemma OthersStay(s: State)
    requires OthersLook(s)
    ensures OthersUpdated(s, s.account)
  {
    hide OwnRoles, SchemaRoles, Joined, WantedRoles, Entries, ShadowPass;
    JoinedIs(s.account.roles);
    SettledStays(OwnRoles(s.account.roles), Joined(SchemaRoles(s.account.roles)), WantedRoles(s.spec));
  }

  /** Everything but the privileges can be settled. */
  ghost predicate OthersSettle(s: State) {
    && CanSettle(OwnRoles(s.account.roles), Joined(SchemaRoles(s.account.roles)), WantedRoles(s.spec))
    && s.account.parameters == s.spec.parameters
    && !s.spec.password.WithoutSecret?
  }

  lemma OthersTwice(s: State, t: State, u: State)
    requires OthersUpdated(s, t.account) && Kept(s, t) && OthersUpdated(t, u.account) && Kept(t, u)
    ensures OthersLook(u) <==> OthersSettle(s)
    ensures OthersSettle(t) <==> OthersSettle(s)
  {
    hide OwnRoles, SchemaRoles, Joined, WantedRoles, Entries, ShadowPass, CanSettle;
    JoinedIs(u.account.roles);
    ShadowPasses(OwnRoles(s.account.roles), Joined(SchemaRoles(s.account.roles)), WantedRoles(s.spec));
  }

  /** What looks met is left alone by a pass. */
  lemma LooksStays(s: State)
    requires SoundEntries(WantedPrivileges(s.spec, s.schema), s.schema) && LooksMet(s)
    ensures UpdatedAccount(s, s.account)
  {
    hide Obstructed, Free, Shadow, Fixed, WantedPrivileges, Entries, PrivilegeTexts, OthersLook, OthersUpdated;
    hide ShadowPass, SoundEntries;
    LooksIff(s);
    SettledStays(Free(s.account.privileges, s.schema), Shadow(s.account.privileges, s.schema),
        WantedPrivileges(s.spec, s.schema));
    OthersStay(s);
  }

  /** A failure-free reconciliation without obstruction is one pass, which is nothing if the spec looks met. */
  lemma ReconcileIsExact(s: State, t: State)
    requires Setting(s) && !Obstructed(s) && Reconciled(s, t)
    ensures UpdatedAccount(s, t.account) && (LooksMet(s) ==> t.account == s.account)
    ensures Kept(s, t) && Setting(t)
  {
    hide Setting, LooksMet, UpdatedAccount, Observed, Updated, Obstructed;
    var m, upToDate :| Observed(s, m, upToDate) && (if upToDate then t == m else Updated(m, t, true));
    SettingFormats(s);
    ObserveIsExact(s, m, upToDate);
    ObserveKept(s, m, upToDate);
    if upToDate {
      LooksStays(s);
    } else {
      UpdateIsExact(s, m, t);
      UpdateKept(m, t, true);
    }
  }

  /** A pass does not obstruct. */
  lemma PassUnobstructed(s: State, t: State)
    requires SoundEntries(WantedPrivileges(s.spec, s.schema), s.schema)
    requires !Obstructed(s) && UpdatedAccount(s, t.account) && Kept(s, t)
    ensures !Obstructed(t)
    ensures Shadow(t.account.privileges, t.schema) == Shadow(s.account.privileges, s.schema)
  {
    hide WantedPrivileges, WantedRoles, ShadowPass, Movable, OwnRoles, SchemaRoles, Joined, RowText, Free;
    var schema, wanted := s.schema, WantedPrivileges(s.spec, s.schema);
    forall w | w in wanted && !Movable(w.key, schema)
      ensures RowText(w) in PrivilegeTexts(Entries(t.account.privileges))
    {
      var e :| e in Entries(s.account.privileges) && RowText(e) == RowText(w);
      MovableDiffers(e, w, s);
      assert e in Fixed(t.account.privileges, schema);
    }
  }

  /** One pass over everything, and whether the next one is needed. */
  lemma PassLooks(s: State, t: State)
    requires SoundEntries(WantedPrivileges(s.spec, s.schema), s.schema)
    requires !Obstructed(s) && UpdatedAccount(s, t.account) && Kept(s, t)
    ensures LooksMet(t) <==> Settleable(s) && OnePassEnough(s)
    ensures Settleable(t) <==> Settleable(s)
  {
    hide Obstructed, Free, Shadow, Fixed, OwnRoles, SchemaRoles, Joined, WantedPrivileges, WantedRoles, Entries;
    hide LooksMet, ShadowPass;
    hide Settled, CanSettle, OptionOff, SoundEntries;
    PassUnobstructed(s, t);
    LooksParts(t);
    ShadowPasses(Free(s.account.privileges, s.schema), Shadow(s.account.privileges, s.schema),
        WantedPrivileges(s.spec, s.schema));
    ShadowPasses(OwnRoles(s.account.roles), Joined(SchemaRoles(s.account.roles)), WantedRoles(s.spec));
  }

  /** Two passes over everything. */
  lemma TwoPassesLook(s: State, t: State, u: State)
    requires SoundEntries(WantedPrivileges(s.spec, s.schema), s.schema)
    requires !Obstructed(s) && UpdatedAccount(s, t.account) && Kept(s, t)
    requires !Obstructed(t) && UpdatedAccount(t, u.account) && Kept(t, u)
    ensures LooksMet(u) <==> Settleable(s)
  {
    hide Obstructed, Free, Shadow, Fixed, WantedPrivileges, Entries, ShadowPass, PrivilegeTexts, OthersLook;
    hide OthersUpdated, OthersSettle;
    hide CanSettle, SoundEntries;
    PassUnobstructed(s, t);
    PassUnobstructed(t, u);
    LooksIff(u);
    OthersTwice(s, t, u);
    ShadowPasses(Free(s.account.privileges, s.schema), Shadow(s.account.privileges, s.schema),
        WantedPrivileges(s.spec, s.schema));
  }

  /** Without obstruction one failure-free reconciliation makes the spec look met exactly when it can be settled and one
      pass is enough. */
  lemma OneReconciliationIff(s: State, t: State)
    requires Setting(s) && !Obstructed(s) && Reconciled(s, t)
    ensures LooksMet(t) <==> Settleable(s) && OnePassEnough(s)
  {
    hide Setting, Settleable, OnePassEnough, Reconciled, LooksMet, Obstructed, UpdatedAccount;
    SettingFormats(s);
    ReconcileIsExact(s, t);
    PassLooks(s, t);
  }

  /** From every state, two failure-free reconciliations make the spec look met exactly when it can be settled and
      nothing obstructs; and it is met exactly when moreover every immovable grant has a text of its own and no role has
      a schema. */
  lemma TwoReconciliationsIff(s: State, t: State, u: State)
    requires Setting(s) && Reconciled(s, t) && Reconciled(t, u)
    ensures LooksMet(u) <==> Settleable(s) && !Obstructed(s)
    ensures Met(u) <==>
            LooksMet(u) && LegibleEntries(Fixed(s.account.privileges, s.schema), s.schema) &&
            SchemaRoles(s.account.roles) == {}
    ensures Kept(s, u) && Setting(u)
  {
    hide Setting, Settleable, Reconciled, LooksMet, Obstructed, UpdatedAccount, Met, Fixed, SchemaRoles, LegibleEntries;
    SettingFormats(s);
    if Obstructed(s) {
      ObstructedStays(s, t);
      ObstructedStays(t, u);
      SettingFormats(u);
      ObstructedLooks(u);
      MetLooks(u);
    } else {
      ReconcileIsExact(s, t);
      PassUnobstructed(s, t);
      ReconcileIsExact(t, u);
      TwoPassesLook(s, t, u);
      SettingFormats(u);
      PartsStay(s, t);
      PartsStay(t, u);
      FixedLegible(u);
    }
  }

  lemma PartsStay(s: State, t: State)
    requires UpdatedAccount(s, t.account) && Kept(s, t)
    ensures Fixed(t.account.privileges, t.schema) == Fixed(s.account.privileges, s.schema)
    ensures SchemaRoles(t.account.roles) == SchemaRoles(s.account.roles)
  {
    hide Free, Fixed, Shadow, OwnRoles, SchemaRoles, Joined, WantedPrivileges, WantedRoles, ShadowPass;
  }

  lemma MetLooks(s: State)
    requires SoundEntries(WantedPrivileges(s.spec, s.schema), s.schema)
    ensures Met(s) ==> LooksMet(s)
  {
    hide Met, LooksMet, WantedPrivileges, SoundEntries, LegibleEntries;
    AllLegible(WantedPrivileges(s.spec, s.schema), s.schema);
    MetIff(s);
  }

  /** The held grants are legible exactly when the immovable ones are. */
  lemma FixedLegible(s: State)
    requires SoundEntries(WantedPrivileges(s.spec, s.schema), s.schema)
    ensures Met(s) <==>
            LooksMet(s) && LegibleEntries(Fixed(s.account.privileges, s.schema), s.schema) &&
            SchemaRoles(s.account.roles) == {}
  {
    hide Met, LooksMet, WantedPrivileges, Legible, Free, Fixed, SchemaRoles, SoundKey;
    AllLegible(WantedPrivileges(s.spec, s.schema), s.schema);
    MetIff(s);
    HeldSplit(s.account.privileges, s.schema);
    AllLegible(Entries(Free(s.account.privileges, s.schema)), s.schema);
  }

  /** Convergence: after any run of observations, failing updates and foreign changes, two failure-free reconciliations
      make the next Observe report up to date if and only if, at the end of the run, the spec can be settled and no
      grant that the provider cannot move is in its way; and then a further reconciliation changes nothing. The spec is
      then really met if and only if no immovable grant is taken for another and no role of a schema is held. */
  lemma Converges(run: seq<State>, t: State, u: State, v: State, upToDate: bool)
    requires Run(run) && Setting(run[0]) && Orderly(run)
    requires Reconciled(run[|run| - 1], t) && Reconciled(t, u) && Observed(u, v, upToDate)
    ensures var s := run[|run| - 1];
            && (upToDate <==> Settleable(s) && !Obstructed(s))
            && (Met(u) <==>
                upToDate && LegibleEntries(Fixed(s.account.privileges, s.schema), s.schema) &&
                SchemaRoles(s.account.roles) == {})
    ensures upToDate ==> forall w | Reconciled(v, w) :: w.account == u.account
  {
    hide Setting, Reconciled, Met, Move, Observed, Obstructed, Settleable, LooksMet, Foreign, UpdatedAccount;
    var s := run[|run| - 1];
    RunKept(run);
    TwoReconciliationsIff(s, t, u);
    SettingFormats(u);
    ObserveIsExact(u, v, upToDate);
    if upToDate {
      ObserveKept(u, v, upToDate);
      LooksOnlyAccount(u, v);
      SettingFormats(v);
      ObstructedLooks(v);
      forall w | Reconciled(v, w)
        ensures w.account == u.account
      {
        ReconcileIsExact(v, w);
      }
    }
  }

  lemma LooksOnlyAccount(s: State, t: State)
    requires t.account == s.account && t.spec == s.spec && t.schema == s.schema
    ensures LooksMet(t) <==> LooksMet(s)
  {}

  /** Where nothing is taken for something else, a list can be settled exactly when it is consistent. */
  lemma PlainSettleable(s: State)
    requires Shadow(s.account.privileges, s.schema) == {} && SchemaRoles(s.account.roles) == {}
    ensures Settleable(s) <==> Attainable(s)
  {
    hide Free, Shadow, OwnRoles, SchemaRoles, WantedPrivileges, WantedRoles, Consistent, CanSettle;
    NoneJoined();
    NoShadow(Free(s.account.privileges, s.schema), WantedPrivileges(s.spec, s.schema));
    NoShadow(OwnRoles(s.account.roles), WantedRoles(s.spec));
  }
}
