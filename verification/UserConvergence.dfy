/** One reconciliation under the strict policy: when Observe reports up to date, and what a failure-free update makes of
    the account. */
module UserConvergence {
  import opened Strings
  import opened Quoting
  import opened Grammar
  import opened Privileges
  import opened RoundTrip
  import opened Language
  import R = Roles
  import opened Grouping
  import opened Statements
  import opened Grants
  import opened SetDiff
  import opened Execution
  import opened UserModel

  // ---------------------------------------------------------------- strings and entries

  /** The text of the grant reads back to it. */
  ghost predicate Legible(e: Entry<Privilege>, schema: string) {
    !e.key.isGrantable && Canonical(PrivilegeOf(e), schema)
  }

  /** The text of the grant cannot be read, such as that of a privilege on a PSE with a space in its name. */
  predicate Unreadable(e: Entry<Privilege>, schema: string) {
    Parse(RowText(e), schema).Err?
  }

  ghost predicate LegibleEntries(es: set<Entry<Privilege>>, schema: string) {
    forall e | e in es :: Legible(e, schema)
  }

  function ParsedEntries(texts: set<string>, schema: string): set<Entry<Privilege>> {
    set t | t in texts && Parse(t, schema).Ok? :: EntryOf(Parse(t, schema).value)
  }

  lemma EntryText(e: Entry<Privilege>, schema: string)
    requires Legible(e, schema)
    ensures Parse(RowText(e), schema) == Ok(PrivilegeOf(e)) && EntryOf(PrivilegeOf(e)) == e
    ensures RowText(e) == ToText(PrivilegeOf(e))
  {
    hide Parse, ToText, Canonical, RowText;
    CanonicalHasRow(PrivilegeOf(e), schema);
    RowTextIs(e);
    CanonicalParses(PrivilegeOf(e), schema);
  }

  /** The strings of a set of legible grants parse back to exactly these grants. */
  lemma ParseTexts(es: set<Entry<Privilege>>, schema: string)
    requires LegibleEntries(es, schema)
    ensures ParsedEntries(PrivilegeTexts(es), schema) == es
  {
    hide Parse, RowText, Legible, PrivilegeOf, EntryOf;
    var ts := PrivilegeTexts(es);
    forall e | e in es
      ensures e in ParsedEntries(ts, schema)
    {
      EntryText(e, schema);
      assert RowText(e) in ts;
    }
    forall t | t in ts && Parse(t, schema).Ok?
      ensures EntryOf(Parse(t, schema).value) in es
    {
      var e :| e in es && RowText(e) == t;
      EntryText(e, schema);
    }
  }

  /** Differences of string sets are differences of grants. */
  lemma TextsMinus(es: set<Entry<Privilege>>, fs: set<Entry<Privilege>>, schema: string)
    requires LegibleEntries(es, schema) && LegibleEntries(fs, schema)
    ensures PrivilegeTexts(es) - PrivilegeTexts(fs) == PrivilegeTexts(es - fs)
    ensures ParsedEntries(PrivilegeTexts(es) - PrivilegeTexts(fs), schema) == es - fs
  {
    hide Parse, RowText, Legible, PrivilegeOf, EntryOf;
    var ts, us := PrivilegeTexts(es), PrivilegeTexts(fs);
    forall e | e in es
      ensures RowText(e) in us <==> e in fs
    {
      if RowText(e) in us {
        var f :| f in fs && RowText(f) == RowText(e);
        EntryText(e, schema);
        EntryText(f, schema);
      }
    }
    assert ts - us == PrivilegeTexts(es - fs);
    ParseTexts(es - fs, schema);
  }

  lemma TextsEqual(es: set<Entry<Privilege>>, fs: set<Entry<Privilege>>, schema: string)
    requires LegibleEntries(es, schema) && LegibleEntries(fs, schema)
    ensures PrivilegeTexts(es) == PrivilegeTexts(fs) <==> es == fs
  {
    hide PrivilegeTexts, ParsedEntries, LegibleEntries;
    ParseTexts(es, schema);
    ParseTexts(fs, schema);
  }

  // ---------------------------------------------------------------- strings and roles

  /** The roles by the names under which they are reported. */
  function Joined(es: set<Entry<R.RoleKey>>): set<Entry<string>> {
    set e | e in es :: Entry(R.FullName(e.key), e.option)
  }

  /** The roles without schema of these names. */
  function Schemaless(es: set<Entry<string>>): set<Entry<R.RoleKey>> {
    set e | e in es :: Entry(R.RoleKey(None, e.key), e.option)
  }

  function NameText(e: Entry<string>): string {
    R.ToText(R.Role(e.key, e.option))
  }

  function NameTexts(es: set<Entry<string>>): set<string> {
    set e | e in es :: NameText(e)
  }

  lemma NameTextReads(e: Entry<string>)
    ensures R.Read(NameText(e)) == Ok(R.Role(e.key, e.option))
  {
    R.RoleRoundTrip(R.Role(e.key, e.option));
  }

  lemma JoinedTexts(es: set<Entry<R.RoleKey>>)
    ensures RoleTexts(es) == NameTexts(Joined(es))
  {
    hide R.ToText;
    forall e | e in es
      ensures RoleText(e) == NameText(Entry(R.FullName(e.key), e.option))
    {}
    forall f | f in Joined(es)
      ensures NameText(f) in RoleTexts(es)
    {
      var e :| e in es && Entry(R.FullName(e.key), e.option) == f;
      assert NameText(f) == RoleText(e);
    }
    forall e | e in es
      ensures RoleText(e) in NameTexts(Joined(es))
    {
      assert Entry(R.FullName(e.key), e.option) in Joined(es);
    }
  }

  /** The statement for a string names the role without schema of its name. */
  lemma ReadTexts(es: set<Entry<string>>)
    ensures ReadEntries(NameTexts(es)) == Schemaless(es)
  {
    hide R.Read, NameText;
    var ts := NameTexts(es);
    forall f | f in Schemaless(es)
      ensures f in ReadEntries(ts)
    {
      var e :| e in es && Entry(R.RoleKey(None, e.key), e.option) == f;
      NameTextReads(e);
      assert NameText(e) in ts;
      assert RoleEntry(R.Read(NameText(e)).value) == f;
    }
    forall f | f in ReadEntries(ts)
      ensures f in Schemaless(es)
    {
      var t :| t in ts && R.Read(t).Ok? && RoleEntry(R.Read(t).value) == f;
      var e :| e in es && NameText(e) == t;
      NameTextReads(e);
    }
  }

  lemma NameTextsMinus(es: set<Entry<string>>, fs: set<Entry<string>>)
    ensures NameTexts(es) - NameTexts(fs) == NameTexts(es - fs)
    ensures NameTexts(es) == NameTexts(fs) <==> es == fs
  {
    hide NameText;
    forall e, f | NameText(e) == NameText(f)
      ensures e == f
    {
      NameTextReads(e);
      NameTextReads(f);
    }
    assert NameTexts(es) - NameTexts(fs) == NameTexts(es - fs);
    if NameTexts(es) == NameTexts(fs) {
      forall e | e in es ensures e in fs { assert NameText(e) in NameTexts(es); }
      forall e | e in fs ensures e in es { assert NameText(e) in NameTexts(fs); }
    }
  }

  // ---------------------------------------------------------------- the target of the spec

  /** The grants the spec asks for. */
  function WantedPrivileges(spec: Spec, schema: string): set<Entry<Privilege>> {
    match ParseAll(SpecPrivileges(spec), schema)
    case Ok(ps) => set p | p in ps :: EntryOf(p)
    case Err(_) => {}
  }

  function WantedRoles(spec: Spec): set<Entry<string>> {
    match R.ReadAll(SpecRoles(spec))
    case Ok(rs) => set r | r in rs :: Entry(r.name, r.isGrantable)
    case Err(_) => {}
  }

  lemma WantedTexts(spec: Spec, schema: string)
    requires DesiredOf(spec, schema).Some?
    ensures Elems(DesiredOf(spec, schema).value.privileges) == PrivilegeTexts(WantedPrivileges(spec, schema))
    ensures Elems(DesiredOf(spec, schema).value.roles) == NameTexts(WantedRoles(spec))
  {
    hide ToText, R.ToText, ParseAll, R.ReadAll, PrivilegeTexts, NameTexts, EntryOf;
    var texts := SpecPrivileges(spec);
    ParsedTexts(texts, ParseAll(texts, schema).value, schema);
    WantedRoleTexts(spec);
  }

  lemma ParsedTexts(texts: seq<string>, ps: seq<Privilege>, schema: string)
    requires ParseAll(texts, schema) == Ok(ps)
    ensures Elems(Texts(ps)) == PrivilegeTexts(set p | p in ps :: EntryOf(p))
  {
    hide ToText, ParseAll, RowText, EntryOf;
    var ts, es := Texts(ps), set p | p in ps :: EntryOf(p);
    forall i | 0 <= i < |ps|
      ensures RowText(EntryOf(ps[i])) == ts[i] && EntryOf(ps[i]) in es
    {
      ParsedText(texts, ps, schema, i);
    }
    forall e | e in es
      ensures RowText(e) in ts
    {
      var p :| p in ps && EntryOf(p) == e;
      var i :| 0 <= i < |ps| && ps[i] == p;
      assert ts[i] == RowText(e);
    }
  }

  lemma ParsedText(texts: seq<string>, ps: seq<Privilege>, schema: string, i: nat)
    requires ParseAll(texts, schema) == Ok(ps) && i < |ps|
    ensures RowText(EntryOf(ps[i])) == ToText(ps[i])
  {
    hide ToText, ParseAll, RowText, HasRow, Parse;
    ParseAllIs(texts, schema);
    ParsedHasRow(texts[i], schema);
    assert PrivilegeOf(EntryOf(ps[i])) == ps[i];
    RowTextIs(EntryOf(ps[i]));
  }

  lemma WantedRoleTexts(spec: Spec)
    requires R.ReadAll(SpecRoles(spec)).Ok?
    ensures Elems(R.Texts(R.ReadAll(SpecRoles(spec)).value)) == NameTexts(WantedRoles(spec))
  {
    hide R.ToText, R.ReadAll;
    var rs := R.ReadAll(SpecRoles(spec)).value;
    var ts := R.Texts(rs);
    forall t | t in ts
      ensures t in NameTexts(WantedRoles(spec))
    {
      var i :| 0 <= i < |ts| && ts[i] == t;
      assert Entry(rs[i].name, rs[i].isGrantable) in WantedRoles(spec);
      assert R.Role(rs[i].name, rs[i].isGrantable) == rs[i];
      assert NameText(Entry(rs[i].name, rs[i].isGrantable)) == t;
    }
    forall e | e in WantedRoles(spec)
      ensures NameText(e) in ts
    {
      var r :| r in rs && Entry(r.name, r.isGrantable) == e;
      var i :| 0 <= i < |rs| && rs[i] == r;
      assert ts[i] == R.ToText(r);
    }
  }

  /** The default privilege of a user without quotes in the name is a canonical string for the privilege on the user's
      own schema. */
  lemma DefaultIsCanonical(username: string, schema: string)
    requires QUOTE !in username
    ensures Format([DefaultPrivilege(username)], schema) == Ok([DefaultPrivilege(username)])
    ensures Parse(DefaultPrivilege(username), schema) == Ok(Privilege(Schema, "CREATE ANY", username, "", true))
  {
    hide Parse, Format, NameShape, ToText, DefaultPrivilege;
    var p := Privilege(Schema, "CREATE ANY", username, "", true);
    DefaultText(username);
    CreateAnyIsName();
    FormatKeepsCanonical([p], schema);
    assert Texts([p]) == [ToText(p)];
    CanonicalParses(p, schema);
  }

  lemma DefaultText(username: string)
    requires QUOTE !in username
    ensures DefaultPrivilege(username) == ToText(Privilege(Schema, "CREATE ANY", username, "", true))
  {
    hide Escape;
    EscapeId(username, QUOTE);
    OpeningText();
    var q := [QUOTE] + username + [QUOTE];
    assert "CREATE ANY ON SCHEMA \"" + username + "\" WITH GRANT OPTION" ==
        "CREATE ANY" + (" ON SCHEMA " + q) + " WITH GRANT OPTION";
  }

  lemma OpeningText()
    ensures "CREATE ANY ON SCHEMA \"" == "CREATE ANY" + " ON SCHEMA " + [QUOTE]
    ensures "\" WITH GRANT OPTION" == [QUOTE] + " WITH GRANT OPTION"
  {}

  lemma CreateAnyIsName()
    ensures NameShape("CREATE ANY")
  {}

  // ---------------------------------------------------------------- what statements move

  /** A grant that the language can carry with and without its option, alone and in a list. */
  ghost predicate SoundKey(k: Privilege, schema: string) {
    && !k.isGrantable && Canonical(k, schema) && Canonical(k.(isGrantable := true), schema) && Canonical(k, "")
    && Listable(k) && (Direct(k) || Sent(k).subIdentifier != "")
  }

  /** A grant that the provider can grant and revoke: its text reads back, and its statement names it and no other. */
  ghost predicate Movable(k: Privilege, schema: string) {
    SoundKey(k, schema) && Direct(k)
  }

  ghost predicate SoundEntries(es: set<Entry<Privilege>>, schema: string) {
    forall e | e in es :: SoundKey(e.key, schema)
  }

  lemma SoundLegible(e: Entry<Privilege>, schema: string)
    requires SoundKey(e.key, schema)
    ensures Legible(e, schema)
  {
    hide Canonical, Listable, Direct, Sent;
    assert PrivilegeOf(e) == (if e.option then e.key.(isGrantable := true) else e.key);
  }

  lemma AllLegible(es: set<Entry<Privilege>>, schema: string)
    requires SoundEntries(es, schema)
    ensures LegibleEntries(es, schema)
  {
    hide SoundKey, Legible;
    forall e | e in es
      ensures Legible(e, schema)
    {
      SoundLegible(e, schema);
    }
  }

  /** The held grants that the provider can move. */
  ghost function Free(db: map<Privilege, bool>, schema: string): map<Privilege, bool> {
    map k | k in db && Movable(k, schema) :: db[k]
  }

  /** The held grants that it cannot move: the text cannot be read, or reads as another grant, or the schema or special
      name has a dot. */
  ghost function Fixed(db: map<Privilege, bool>, schema: string): set<Entry<Privilege>> {
    set e | e in Entries(db) && !Movable(e.key, schema)
  }

  /** What these are taken for. */
  ghost function Shadow(db: map<Privilege, bool>, schema: string): set<Entry<Privilege>> {
    ParsedEntries(PrivilegeTexts(Fixed(db, schema)), schema)
  }

  /** The roles without schema, which statements move. */
  function OwnRoles(roles: map<R.RoleKey, bool>): map<string, bool> {
    map k | k in roles && k.schema.None? :: k.name := roles[k]
  }

  /** The roles of a schema, which they do not. */
  function SchemaRoles(roles: map<R.RoleKey, bool>): set<Entry<R.RoleKey>> {
    set e | e in Entries(roles) && e.key.schema.Some?
  }

  lemma JoinedIs(roles: map<R.RoleKey, bool>)
    ensures Joined(Entries(roles)) == Entries(OwnRoles(roles)) + Joined(SchemaRoles(roles))
  {
    var es := Entries(roles);
    forall f
      ensures f in Joined(es) <==> f in Entries(OwnRoles(roles)) + Joined(SchemaRoles(roles))
    {
      if f in Joined(es) {
        var e :| e in es && Entry(R.FullName(e.key), e.option) == f;
        if e.key.schema.None? {
          assert e.key.name in OwnRoles(roles);
          OwnRoleAt(roles, e.key.name);
        } else {
          assert e in SchemaRoles(roles);
        }
      }
      if f in Entries(OwnRoles(roles)) {
        OwnRoleAt(roles, f.key);
        var e := Entry(R.RoleKey(None, f.key), f.option);
        assert e in es;
        assert R.FullName(e.key) == f.key;
      }
      if f in Joined(SchemaRoles(roles)) {
        var e :| e in SchemaRoles(roles) && Entry(R.FullName(e.key), e.option) == f;
        assert e in es;
      }
    }
  }

  lemma OwnRoleAt(roles: map<R.RoleKey, bool>, n: string)
    ensures n in OwnRoles(roles) <==> R.RoleKey(None, n) in roles
    ensures n in OwnRoles(roles) ==> OwnRoles(roles)[n] == roles[R.RoleKey(None, n)]
  {
    if n in OwnRoles(roles) {
      var k :| k in roles && k.schema.None? && k.name == n;
      assert k == R.RoleKey(None, n);
    }
    if R.RoleKey(None, n) in roles {
      assert R.RoleKey(None, n).name == n;
    }
  }

  // ---------------------------------------------------------------- the setting

  /** No statement for a held or wanted string names a grant that the provider cannot move. */
  ghost predicate Undisturbed(held: set<Entry<Privilege>>, wanted: set<Entry<Privilege>>, schema: string) {
    forall e | e in held + wanted && !Movable(e.key, schema) ::
      e.key !in KeysOf(Sends(PrivilegeTexts(held) + PrivilegeTexts(wanted), schema))
  }

  /** The setting of the convergence theorem: strict policy, a usergroup, strings that parse, a sound spec, and an
      account whose strings can stand in lists and whose immovable grants are not named by the statements of others. */
  ghost predicate Setting(s: State) {
    && s.spec.policy == "strict" && s.spec.usergroup != "" && DesiredOf(s.spec, s.schema).Some?
    && SoundEntries(WantedPrivileges(s.spec, s.schema), s.schema)
    && Carried(PrivilegeTexts(Entries(s.account.privileges)), s.schema)
    && Undisturbed(Entries(s.account.privileges), WantedPrivileges(s.spec, s.schema), s.schema)
  }

  /** Everything the spec asks for is the case. */
  ghost predicate Met(s: State) {
    && Entries(s.account.privileges) == WantedPrivileges(s.spec, s.schema)
    && Entries(s.account.roles) == Schemaless(WantedRoles(s.spec))
    && OtherwiseMet(s)
  }

  /** Everything else: parameters, usergroup, lifetime check and password. */
  predicate OtherwiseMet(s: State) {
    && s.account.parameters == s.spec.parameters
    && s.account.usergroup == s.spec.usergroup
    && s.account.lifetimeCheck == s.spec.lifetimeCheck
    && PasswordMet(s)
  }

  /** It looks so in the strings. */
  ghost predicate LooksMet(s: State) {
    && PrivilegeTexts(Entries(s.account.privileges)) == PrivilegeTexts(WantedPrivileges(s.spec, s.schema))
    && OthersLook(s)
  }

  /** All but the privileges. */
  ghost predicate OthersLook(s: State) {
    Joined(Entries(s.account.roles)) == WantedRoles(s.spec) && OtherwiseMet(s)
  }

  predicate PasswordMet(s: State) {
    match s.spec.password
    case NoPassword => !s.account.passwordEnabled
    case WithoutSecret => false
    case FromSecret(secret) => s.account.passwordEnabled && s.account.password == secret
  }

  /** Observe reports up to date exactly when the strings look so, in every state. */
  lemma ObserveIsExact(s: State, t: State, upToDate: bool)
    requires s.spec.policy == "strict" && Observed(s, t, upToDate)
    ensures upToDate <==> LooksMet(s)
  {
    hide PrivilegeTexts, RoleTexts, WantedPrivileges, WantedRoles, DesiredOf, NameTexts, Joined, Entries;
    WantedTexts(s.spec, s.schema);
    JoinedTexts(Entries(s.account.roles));
    NameTextsMinus(Joined(Entries(s.account.roles)), WantedRoles(s.spec));
  }

  /** What looks met is met exactly when every held grant has a text of its own and no held role has a schema. */
  lemma MetIff(s: State)
    requires LegibleEntries(WantedPrivileges(s.spec, s.schema), s.schema)
    ensures Met(s) <==>
            LooksMet(s) && LegibleEntries(Entries(s.account.privileges), s.schema) && SchemaRoles(s.account.roles) == {}
  {
    hide PrivilegeTexts, WantedPrivileges, WantedRoles, Legible;
    var held, wanted := Entries(s.account.privileges), WantedPrivileges(s.spec, s.schema);
    if LegibleEntries(held, s.schema) {
      TextsEqual(held, wanted, s.schema);
    }
    RolesMetIff(s.account.roles, WantedRoles(s.spec));
  }

  lemma RolesMetIff(roles: map<R.RoleKey, bool>, wanted: set<Entry<string>>)
    ensures Entries(roles) == Schemaless(wanted) <==> Joined(Entries(roles)) == wanted && SchemaRoles(roles) == {}
  {
    if Entries(roles) == Schemaless(wanted) {
      JoinedSchemaless(wanted);
    }
    if Joined(Entries(roles)) == wanted && SchemaRoles(roles) == {} {
      forall e | e in Entries(roles)
        ensures e in Schemaless(wanted)
      {
        assert e.key.schema.None? by { assert e !in SchemaRoles(roles); }
        assert Entry(R.FullName(e.key), e.option) in wanted;
        assert e == Entry(R.RoleKey(None, e.key.name), e.option);
      }
      forall f | f in Schemaless(wanted)
        ensures f in Entries(roles)
      {
        var w :| w in wanted && Entry(R.RoleKey(None, w.key), w.option) == f;
        var e :| e in Entries(roles) && Entry(R.FullName(e.key), e.option) == w;
        assert e.key.schema.None? by { assert e !in SchemaRoles(roles); }
        assert e == f;
      }
    }
  }

  lemma JoinedSchemaless(es: set<Entry<string>>)
    ensures Joined(Schemaless(es)) == es
  {
    forall e | e in es
      ensures e in Joined(Schemaless(es))
    {
      var f := Entry(R.RoleKey(None, e.key), e.option);
      assert f in Schemaless(es) && Entry(R.FullName(f.key), f.option) == e;
    }
  }

  // ---------------------------------------------------------------- obstructions

  /** A grant has to be moved that the provider cannot move. */
  ghost predicate Obstructed(s: State) {
    var held, wanted := Entries(s.account.privileges), WantedPrivileges(s.spec, s.schema);
    || (exists e | e in Fixed(s.account.privileges, s.schema) :: RowText(e) !in PrivilegeTexts(wanted))
    || (exists e | e in wanted :: !Movable(e.key, s.schema) && RowText(e) !in PrivilegeTexts(held))
  }

  /** What is seen of the grants: those that can be moved, and what the others are taken for. */
  ghost function Seen(s: State): set<Entry<Privilege>> {
    Entries(Free(s.account.privileges, s.schema)) + Shadow(s.account.privileges, s.schema)
  }

  lemma HeldSplit(db: map<Privilege, bool>, schema: string)
    ensures Entries(db) == Entries(Free(db, schema)) + Fixed(db, schema)
    ensures SoundEntries(Entries(Free(db, schema)), schema)
  {
    hide Movable;
    forall e | e in Entries(db)
      ensures e in Entries(Free(db, schema)) + Fixed(db, schema)
    {
      assert Movable(e.key, schema) ==> e.key in Free(db, schema);
    }
    forall e | e in Entries(Free(db, schema))
      ensures SoundKey(e.key, schema)
    {
      assert Movable(e.key, schema);
      MovableSound(e.key, schema);
    }
  }

  lemma MovableSound(k: Privilege, schema: string)
    requires Movable(k, schema)
    ensures SoundKey(k, schema)
  {
    hide SoundKey;
  }

  /** If all immovable grants look wanted, the strings held are those of what is seen, and this has a text of its
      own. */
  lemma SeenTexts(s: State)
    requires SoundEntries(WantedPrivileges(s.spec, s.schema), s.schema)
    requires forall e | e in Fixed(s.account.privileges, s.schema) ::
             RowText(e) in PrivilegeTexts(WantedPrivileges(s.spec, s.schema))
    ensures Shadow(s.account.privileges, s.schema) <= WantedPrivileges(s.spec, s.schema)
    ensures LegibleEntries(Seen(s), s.schema)
    ensures PrivilegeTexts(Entries(s.account.privileges)) == PrivilegeTexts(Seen(s))
  {
    hide Parse, RowText, SoundKey, Legible, EntryOf, PrivilegeOf, Movable, WantedPrivileges;
    var db, schema, wanted := s.account.privileges, s.schema, WantedPrivileges(s.spec, s.schema);
    var fixed, shadow := Fixed(db, schema), Shadow(db, schema);
    HeldSplit(db, schema);
    AllLegible(wanted, schema);
    AllLegible(Entries(Free(db, schema)), schema);
    forall e | e in fixed
      ensures exists w ::
              w in wanted && RowText(w) == RowText(e) && Parse(RowText(e), schema).Ok? &&
              EntryOf(Parse(RowText(e), schema).value) == w
    {
      var w :| w in wanted && RowText(w) == RowText(e);
      EntryText(w, schema);
    }
    forall w | w in shadow
      ensures w in wanted && RowText(w) in PrivilegeTexts(fixed)
    {
      var t :| t in PrivilegeTexts(fixed) && Parse(t, schema).Ok? && EntryOf(Parse(t, schema).value) == w;
      var e :| e in fixed && RowText(e) == t;
    }
    forall e | e in fixed
      ensures RowText(e) in PrivilegeTexts(shadow)
    {
      var w :| w in wanted && RowText(w) == RowText(e) && Parse(RowText(e), schema).Ok? &&
          EntryOf(Parse(RowText(e), schema).value) == w;
      assert RowText(e) in PrivilegeTexts(fixed);
      assert w in shadow;
    }
    TextsOfBoth(Entries(Free(db, schema)), fixed);
    TextsOfBoth(Entries(Free(db, schema)), shadow);
    assert PrivilegeTexts(fixed) == PrivilegeTexts(shadow);
  }

  lemma TextsOfBoth(es: set<Entry<Privilege>>, fs: set<Entry<Privilege>>)
    ensures PrivilegeTexts(es + fs) == PrivilegeTexts(es) + PrivilegeTexts(fs)
  {
    hide RowText;
  }

  /** The privileges look as wanted exactly when nothing obstructs and what is seen is what is wanted. */
  lemma LooksIff(s: State)
    requires SoundEntries(WantedPrivileges(s.spec, s.schema), s.schema)
    ensures PrivilegeTexts(Entries(s.account.privileges)) == PrivilegeTexts(WantedPrivileges(s.spec, s.schema))
       <==> !Obstructed(s) && Seen(s) == WantedPrivileges(s.spec, s.schema)
  {
    hide RowText, SoundKey, Movable, WantedPrivileges, Shadow, Free, Legible;
    var held, wanted := Entries(s.account.privileges), WantedPrivileges(s.spec, s.schema);
    if PrivilegeTexts(held) == PrivilegeTexts(wanted) {
      forall e | e in held ensures RowText(e) in PrivilegeTexts(held) {}
      forall e | e in wanted ensures RowText(e) in PrivilegeTexts(wanted) {}
      assert !Obstructed(s);
    }
    if !Obstructed(s) {
      SeenTexts(s);
      AllLegible(wanted, s.schema);
      TextsEqual(Seen(s), wanted, s.schema);
    }
  }

  // ---------------------------------------------------------------- one update

  function PasswordEnabledAfter(s: State): bool {
    if s.spec.password.NoPassword? then false
    else if s.account.passwordEnabled then true
    else s.spec.password.FromSecret?
  }

  function PasswordAfter(s: State): string {
    if s.account.passwordEnabled && !s.spec.password.NoPassword? && !PasswordMet(s) then SecretOf(s.spec.password)
        else s.account.password
  }

  lemma NextStep(i: nat, s: State, t: State, desired: Desired) returns (m: State)
    requires i < 6 && StepsFrom(i, s, t, true, desired)
    ensures Step(i, s, m, true, desired) && StepsFrom(i + 1, m, t, true, desired)
  {
    hide Step;
    var n, k :| Step(i, s, n, k, desired) && (if k then StepsFrom(i + 1, n, t, true, desired) else t == n && !true);
    m := n;
  }

  ghost predicate MovableEntries(es: set<Entry<Privilege>>, schema: string) {
    forall e | e in es :: Movable(e.key, schema)
  }

  lemma MovableGroupable(e: Entry<Privilege>, schema: string)
    requires Movable(e.key, schema)
    ensures Groupable(PrivilegeOf(e)) && Listable(PrivilegeOf(e)) && BaseOf(PrivilegeOf(e)) == e.key
  {
    hide Canonical, PlainName;
  }

  /** A list of the strings of movable grants can be grouped, and stands for these grants. */
  lemma MovableList(texts: seq<string>, es: set<Entry<Privilege>>, schema: string)
    requires IsList(texts, PrivilegeTexts(es)) && MovableEntries(es, schema)
    ensures GroupableTexts(texts, schema)
    ensures EntriesOf(ParseAll(texts, schema).value) == es && BasesOf(ParseAll(texts, schema).value) == KeysOf(es)
  {
    hide Parse, RowText, ToText, Movable, PrivilegeOf, EntryOf, Groupable, Listable, BaseOf;
    ParseAllIs(texts, schema);
    forall i | 0 <= i < |texts|
      ensures exists e ::
              && e in es && ToText(PrivilegeOf(e)) == texts[i] && Parse(texts[i], schema) == Ok(PrivilegeOf(e))
                          && Groupable(PrivilegeOf(e)) && Listable(PrivilegeOf(e))
    {
      assert texts[i] in Elems(texts);
      var e :| e in es && RowText(e) == texts[i];
      MovableText(e, schema);
    }
    var ps := ParseAll(texts, schema).value;
    CarriedOnce(texts, ps);
    MovableParsed(texts, ps, es, schema);
  }

  lemma MovableText(e: Entry<Privilege>, schema: string)
    requires Movable(e.key, schema)
    ensures Parse(RowText(e), schema) == Ok(PrivilegeOf(e)) && RowText(e) == ToText(PrivilegeOf(e)) &&
            EntryOf(PrivilegeOf(e)) == e
    ensures Groupable(PrivilegeOf(e)) && Listable(PrivilegeOf(e)) && BaseOf(PrivilegeOf(e)) == e.key
  {
    hide Parse, ToText, RowText, SoundKey, Groupable, Listable, Legible;
    SoundLegible(e, schema);
    EntryText(e, schema);
    MovableGroupable(e, schema);
  }

  lemma MovableParsed(texts: seq<string>, ps: seq<Privilege>, es: set<Entry<Privilege>>, schema: string)
    requires Elems(texts) == PrivilegeTexts(es) && MovableEntries(es, schema)
    requires |ps| == |texts| && forall i | 0 <= i < |texts| :: Parse(texts[i], schema) == Ok(ps[i])
    ensures EntriesOf(ps) == es && BasesOf(ps) == KeysOf(es)
  {
    hide Parse, RowText, ToText, Movable, PrivilegeOf, EntryOf, Groupable, Listable, BaseOf;
    forall p | p in ps
      ensures EntryOf(p) in es && BaseOf(p) in KeysOf(es)
    {
      var i :| 0 <= i < |ps| && ps[i] == p;
      assert texts[i] in Elems(texts);
      var e :| e in es && RowText(e) == texts[i];
      MovableText(e, schema);
    }
    forall e | e in es
      ensures e in EntriesOf(ps) && e.key in BasesOf(ps)
    {
      MovableText(e, schema);
      assert RowText(e) in Elems(texts);
      var i :| 0 <= i < |texts| && texts[i] == RowText(e);
      assert ps[i] in ps;
    }
  }

  /** Without obstruction, what an update grants and revokes can be moved. */
  lemma MovesOnly(s: State)
    requires SoundEntries(WantedPrivileges(s.spec, s.schema), s.schema) && !Obstructed(s)
    ensures MovableEntries(WantedPrivileges(s.spec, s.schema) - Seen(s), s.schema)
    ensures MovableEntries(Seen(s) - WantedPrivileges(s.spec, s.schema), s.schema)
    ensures var held, wanted := PrivilegeTexts(Entries(s.account.privileges)),
            PrivilegeTexts(WantedPrivileges(s.spec, s.schema));
            && wanted - held == PrivilegeTexts(WantedPrivileges(s.spec, s.schema) - Seen(s))
            && held - wanted == PrivilegeTexts(Seen(s) - WantedPrivileges(s.spec, s.schema))
  {
    hide RowText, SoundKey, Movable, WantedPrivileges, Shadow, Legible;
    var db, schema, wanted := s.account.privileges, s.schema, WantedPrivileges(s.spec, s.schema);
    SeenTexts(s);
    AllLegible(wanted, schema);
    TextsMinus(wanted, Seen(s), schema);
    TextsMinus(Seen(s), wanted, schema);
    forall e | e in wanted - Seen(s)
      ensures Movable(e.key, schema)
    {
      assert RowText(e) in PrivilegeTexts(wanted - Seen(s));
    }
    forall e | e in Seen(s) - wanted
      ensures Movable(e.key, schema)
    {
      assert e in Entries(Free(db, schema));
    }
  }

  /** What becomes of the movable and the immovable grants. */
  lemma MovedParts(db: map<Privilege, bool>, after: map<Privilege, bool>, grants: set<Entry<Privilege>>,
                   revokes: set<Entry<Privilege>>, schema: string)
    requires MovableEntries(grants, schema) && MovableEntries(revokes, schema)
    requires after == Revoke(Grant(db, grants), KeysOf(revokes))
    ensures Free(after, schema) == Revoke(Grant(Free(db, schema), grants), KeysOf(revokes))
    ensures Fixed(after, schema) == Fixed(db, schema)
  {
    hide Movable;
    forall k | k in KeysOf(grants) + KeysOf(revokes)
      ensures Movable(k, schema)
    {}
    forall k | !Movable(k, schema)
      ensures (k in after <==> k in db) && (k in db ==> after[k] == db[k])
    {
      assert Entry(k, true) in grants ==> k in KeysOf(grants);
    }
    forall e
      ensures e in Fixed(after, schema) <==> e in Fixed(db, schema)
    {
      assert e == Entry(e.key, e.option);
      HasIff(after, e.key, e.option);
      HasIff(db, e.key, e.option);
    }
  }

  /** Without obstruction the grouped statements are exactly one pass over what is seen, and leave the rest alone. */
  lemma PrivilegesPass(s: State, t: State, db: map<Privilege, bool>)
    requires Setting(s) && !Obstructed(s) && s.account.privileges == db
    requires Elems(s.status.privileges) == PrivilegeTexts(Entries(db))
    requires PrivilegesStep(s, t, true, DesiredOf(s.spec, s.schema).value)
    ensures Free(t.account.privileges, s.schema) ==
            ShadowPass(Free(db, s.schema), Shadow(db, s.schema), WantedPrivileges(s.spec, s.schema))
    ensures Fixed(t.account.privileges, s.schema) == Fixed(db, s.schema)
  {
    hide PrivilegeTexts, WantedPrivileges, SoundEntries, DesiredOf, Grant, Revoke, KeysOf, Entries, Executing;
    hide Movable, EntriesOf, BasesOf, ParseAll, AllGroupable, Carried, Undisturbed, Free, Fixed, Shadow, MovableEntries;
    hide Obstructed;
    var schema, wanted := s.schema, WantedPrivileges(s.spec, s.schema);
    var desired := DesiredOf(s.spec, schema).value;
    WantedTexts(s.spec, schema);
    MovesOnly(s);
    var toGrant, toRevoke :| IsList(toGrant, ToGrant(s, desired)) && IsList(toRevoke, ToRevoke(s, desired)) &&
                             Executing(db, toGrant, toRevoke, schema, t.account.privileges, true);
    MovableList(toGrant, wanted - Seen(s), schema);
    MovableList(toRevoke, Seen(s) - wanted, schema);
    UpdateEffect(db, toGrant, toRevoke, schema, t.account.privileges, true);
    MovedParts(db, t.account.privileges, wanted - Seen(s), Seen(s) - wanted, schema);
  }

  /** Statements over roles without schema, seen from both kinds of roles. */
  lemma RolesMoved(db: map<R.RoleKey, bool>, after: map<R.RoleKey, bool>, grants: set<Entry<string>>,
                   revokes: set<Entry<string>>)
    requires after == Revoke(Grant(db, Schemaless(grants)), KeysOf(Schemaless(revokes)))
    ensures OwnRoles(after) == Revoke(Grant(OwnRoles(db), grants), KeysOf(revokes))
    ensures SchemaRoles(after) == SchemaRoles(db)
  {
    hide Grant, Revoke, OwnRoles;
    forall n
      ensures n in OwnRoles(after) <==> n in Revoke(Grant(OwnRoles(db), grants), KeysOf(revokes))
      ensures n in OwnRoles(after) ==> OwnRoles(after)[n] == Revoke(Grant(OwnRoles(db), grants), KeysOf(revokes))[n]
    {
      RoleMovedAt(db, after, grants, revokes, n);
    }
    forall e
      ensures e in SchemaRoles(after) <==> e in SchemaRoles(db)
    {
      SchemaRoleAt(db, after, Schemaless(grants), KeysOf(Schemaless(revokes)), e);
    }
  }

  lemma RoleMovedAt(db: map<R.RoleKey, bool>, after: map<R.RoleKey, bool>, grants: set<Entry<string>>,
                    revokes: set<Entry<string>>, n: string)
    requires after == Revoke(Grant(db, Schemaless(grants)), KeysOf(Schemaless(revokes)))
    ensures n in OwnRoles(after) <==> n in Revoke(Grant(OwnRoles(db), grants), KeysOf(revokes))
    ensures n in OwnRoles(after) ==> OwnRoles(after)[n] == Revoke(Grant(OwnRoles(db), grants), KeysOf(revokes))[n]
  {
    hide OwnRoles, Grant, Revoke, KeysOf, Schemaless;
    var k := R.RoleKey(None, n);
    OwnRoleAt(after, n);
    OwnRoleAt(db, n);
    InSchemaless(grants, n);
    InSchemaless(revokes, n);
    InKeysOf(revokes, n);
    InKeysOf(Schemaless(revokes), k);
    MovedAt(db, Schemaless(grants), KeysOf(Schemaless(revokes)), k);
    MovedAt(OwnRoles(db), grants, KeysOf(revokes), n);
  }

  lemma InSchemaless(es: set<Entry<string>>, n: string)
    ensures forall g :: Entry(R.RoleKey(None, n), g) in Schemaless(es) <==> Entry(n, g) in es
  {
    forall g
      ensures Entry(R.RoleKey(None, n), g) in Schemaless(es) <==> Entry(n, g) in es
    {
      if Entry(R.RoleKey(None, n), g) in Schemaless(es) {
        var e :| e in es && Entry(R.RoleKey(None, e.key), e.option) == Entry(R.RoleKey(None, n), g);
        assert e == Entry(n, g);
      }
    }
  }

  lemma SchemaRoleAt(db: map<R.RoleKey, bool>, after: map<R.RoleKey, bool>, es: set<Entry<R.RoleKey>>,
                     ks: set<R.RoleKey>, e: Entry<R.RoleKey>)
    requires after == Revoke(Grant(db, es), ks)
    requires (forall f | f in es :: f.key.schema.None?) && (forall k | k in ks :: k.schema.None?)
    ensures e in SchemaRoles(after) <==> e in SchemaRoles(db)
  {
    if e.key.schema.Some? {
      assert e == Entry(e.key, e.option);
      HasIff(after, e.key, e.option);
      HasIff(db, e.key, e.option);
      assert e.key !in KeysOf(es);
      assert Entry(e.key, true) !in es;
    }
  }

  lemma RolesPass(s: State, t: State, db: map<R.RoleKey, bool>)
    requires DesiredOf(s.spec, s.schema).Some? && s.account.roles == db
    requires Elems(s.status.roles) == RoleTexts(Entries(db))
    requires RolesStep(s, t, true, DesiredOf(s.spec, s.schema).value)
    ensures OwnRoles(t.account.roles) == ShadowPass(OwnRoles(db), Joined(SchemaRoles(db)), WantedRoles(s.spec))
    ensures SchemaRoles(t.account.roles) == SchemaRoles(db)
  {
    hide RoleTexts, NameTexts, WantedRoles, DesiredOf, ReadEntries, Grant, Revoke, KeysOf, Entries, OwnRoles;
    hide SchemaRoles, Joined, Schemaless;
    var seen, wanted := Joined(Entries(db)), WantedRoles(s.spec);
    WantedTexts(s.spec, s.schema);
    JoinedTexts(Entries(db));
    NameTextsMinus(wanted, seen);
    NameTextsMinus(seen, wanted);
    ReadTexts(wanted - seen);
    ReadTexts(seen - wanted);
    JoinedIs(db);
    RolesMoved(db, t.account.roles, wanted - seen, seen - wanted);
  }

  /** The parameters, the usergroup and the lifetime check. */
  lemma MiddleSteps(s: State, t: State, desired: Desired) returns (m: State)
    requires StepsFrom(2, s, t, true, desired)
    ensures StepsFrom(5, m, t, true, desired) && SamePassword(s, m)
    ensures m.account == s.account.(
              usergroup := if s.status.usergroup == Some(s.spec.usergroup) then s.account.usergroup
                  else s.spec.usergroup,
              lifetimeCheck := if s.status.lifetimeCheck == Some(s.spec.lifetimeCheck) then s.account.lifetimeCheck
                  else s.spec.lifetimeCheck)
  {
    hide StepsFrom, PrivilegesStep, RolesStep, PasswordStep;
    var s3 := NextStep(2, s, t, desired);
    var s4 := NextStep(3, s3, t, desired);
    m := NextStep(4, s4, t, desired);
  }

  lemma FinalStep(s: State, t: State, desired: Desired)
    requires StepsFrom(5, s, t, true, desired)
    ensures PasswordStep(s, t, true)
  {
    hide StepsFrom, PasswordStep;
    var m := NextStep(5, s, t, desired);
    Finished(m, t, desired);
  }

  /** What a failure-free update makes of the account that was just observed. */
  ghost predicate UpdatedAccount(s: State, a: Account) {
    && Free(a.privileges, s.schema) ==
       ShadowPass(Free(s.account.privileges, s.schema), Shadow(s.account.privileges, s.schema),
           WantedPrivileges(s.spec, s.schema))
    && Fixed(a.privileges, s.schema) == Fixed(s.account.privileges, s.schema)
    && OthersUpdated(s, a)
  }

  /** All but the privileges. */
  ghost predicate OthersUpdated(s: State, a: Account) {
    && OwnRoles(a.roles) ==
       ShadowPass(OwnRoles(s.account.roles), Joined(SchemaRoles(s.account.roles)), WantedRoles(s.spec))
    && SchemaRoles(a.roles) == SchemaRoles(s.account.roles)
    && a.parameters == s.account.parameters
    && a.usergroup == s.spec.usergroup && a.lifetimeCheck == s.spec.lifetimeCheck
    && a.passwordEnabled == PasswordEnabledAfter(s) && a.password == PasswordAfter(s)
  }

  /** A failure-free update of what was just observed, field by field. */
  lemma UpdateIsExact(s: State, m: State, t: State)
    requires Setting(s) && !Obstructed(s) && Observed(s, m, false) && Updated(m, t, true)
    ensures UpdatedAccount(s, t.account) && t.spec == s.spec && t.schema == s.schema
  {
    hide PrivilegeTexts, RoleTexts, WantedPrivileges, SoundEntries, DesiredOf, Executing, StepsFrom, OthersUpdated;
    hide ShadowPass, Entries, UpdatePath, Movable, Free, Fixed, Shadow, Carried, Undisturbed, UpToDate;
    hide Obstructed, PasswordCheck;
    var desired := DesiredOf(s.spec, s.schema).value;
    UpdatedIff(m, t, true);
    var s1 := NextStep(0, m, t, desired);
    SameObstruction(s, m);
    PrivilegesPass(m, s1, s.account.privileges);
    OthersPass(s, m, false, s1, t);
  }

  lemma OthersPass(s: State, m: State, upToDate: bool, s1: State, t: State)
    requires Observed(s, m, upToDate)
    requires var desired := DesiredOf(s.spec, s.schema).value;
             PrivilegesStep(m, s1, true, desired) && StepsFrom(1, s1, t, true, desired)
    ensures OthersUpdated(s, t.account) && t.account.privileges == s1.account.privileges && t.spec == s.spec &&
            t.schema == s.schema
  {
    hide PrivilegeTexts, RoleTexts, WantedRoles, DesiredOf, RolesRun, Executing, StepsFrom;
    hide ShadowPass, Entries, OwnRoles, SchemaRoles, Joined, UpToDate, ToGrant, ToRevoke, ManagedStatus, Managed;
    var desired := DesiredOf(s.spec, s.schema).value;
    var s2 := NextStep(1, s1, t, desired);
    var s5 := MiddleSteps(s2, t, desired);
    FinalStep(s5, t, desired);
    assert s1.account.roles == s.account.roles && s1.status.roles == m.status.roles;
    RolesPass(s1, s2, s.account.roles);
  }

  lemma SameObstruction(s: State, t: State)
    requires t.spec == s.spec && t.schema == s.schema && t.account.privileges == s.account.privileges
    ensures Obstructed(s) <==> Obstructed(t)
    ensures Setting(s) <==> Setting(t)
  {}

  lemma Finished(s: State, t: State, desired: Desired)
    requires StepsFrom(6, s, t, true, desired)
    ensures t == s
  {}
}
