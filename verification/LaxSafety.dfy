/** Whole runs under the lax policy, with spec edits, foreign grants and failures: only what was once listed in the
    spec, and no longer is, is ever revoked. */
module LaxSafety {
  import opened Strings
  import opened Privileges
  import opened Grammar
  import opened RoundTrip
  import opened Language
  import opened Grouping
  import opened Statements
  import opened Grants
  import opened SetDiff
  import opened Execution
  import opened UserModel
  import opened UserConvergence
  import opened UserProgress

  ghost predicate Edited(s: State, t: State) {
    t == s.(spec := t.spec)
  }

  ghost predicate Interfered(s: State, t: State) {
    t == s.(account := t.account)
  }

  ghost predicate LaxMove(s: State, t: State) {
    Edited(s, t) || Interfered(s, t) || (exists upToDate :: Observed(s, t, upToDate)) ||
        (exists ok :: Updated(s, t, ok))
  }

  /** A run from an empty status, under the lax policy throughout. */
  ghost predicate LaxRun(run: seq<State>) {
    && |run| > 0 && run[0].status.privileges == []
    && (forall i | 0 <= i < |run| :: run[i].spec.policy == "lax")
    && (forall i | 0 < i < |run| :: LaxMove(run[i - 1], run[i]))
  }

  /** The canonical strings of the privileges a spec lists. */
  function ListedIn(s: State): set<string> {
    match DesiredOf(s.spec, s.schema)
    case Some(desired) => Elems(desired.privileges)
    case None => {}
  }

  function Listed(run: seq<State>): set<string> {
    if run == [] then {} else Listed(run[..|run| - 1]) + ListedIn(run[|run| - 1])
  }

  lemma {:induction false} InListed(run: seq<State>, text: string) returns (i: nat)
    requires text in Listed(run)
    ensures i < |run| && text in ListedIn(run[i])
    decreases |run|
  {
    hide ListedIn;
    if text in ListedIn(run[|run| - 1]) {
      i := |run| - 1;
    } else {
      i := InListed(run[..|run| - 1], text);
    }
  }

  // ---------------------------------------------------------------- the status remembers only listed strings

  lemma StepStatus(i: nat, s: State, t: State, ok: bool, desired: Desired)
    requires Step(i, s, t, ok, desired)
    ensures t.status.privileges == s.status.privileges || t.status.privileges == desired.privileges
    ensures t.spec == s.spec && t.schema == s.schema
    ensures i > 0 ==> t.account.privileges == s.account.privileges && t.status.privileges == s.status.privileges
  {
    hide Executing, RolesRun;
  }

  lemma {:induction false} StepsStatus(i: nat, s: State, t: State, ok: bool, desired: Desired)
    requires i <= 6 && StepsFrom(i, s, t, ok, desired)
    ensures t.status.privileges == s.status.privileges || t.status.privileges == desired.privileges
    ensures t.spec == s.spec && t.schema == s.schema
    ensures i > 0 ==> t.account.privileges == s.account.privileges && t.status.privileges == s.status.privileges
    decreases 6 - i
  {
    hide Step;
    if i < 6 {
      var m, k :| Step(i, s, m, k, desired) && (if k then StepsFrom(i + 1, m, t, ok, desired) else t == m && !ok);
      StepStatus(i, s, m, k, desired);
      if k {
        StepsStatus(i + 1, m, t, ok, desired);
      }
    }
  }

  lemma MoveStatus(s: State, t: State)
    requires s.spec.policy == "lax" && LaxMove(s, t)
    ensures Elems(t.status.privileges) <= Elems(s.status.privileges) + ListedIn(s)
    ensures t.schema == s.schema
  {
    hide StepsFrom, DesiredOf, PrivilegeTexts, RoleTexts, UpToDate, Entries, UpdatePath;
    if ok :| Updated(s, t, ok) {
      UpdatedIff(s, t, ok);
      StepsStatus(0, s, t, ok, DesiredOf(s.spec, s.schema).value);
    }
  }

  lemma {:induction false} StatusListed(run: seq<State>)
    requires LaxRun(run)
    ensures Elems(run[|run| - 1].status.privileges) <= Listed(run)
    decreases |run|
  {
    hide LaxMove, ListedIn;
    if |run| > 1 {
      StatusListed(run[..|run| - 1]);
      assert LaxMove(run[|run| - 2], run[|run| - 1]);
      MoveStatus(run[|run| - 2], run[|run| - 1]);
    }
  }

  /** Every string an update passes to revoke is the canonical form of a privilege listed in an earlier spec of the run,
      and of none listed in the current one. */
  lemma RevokesOnlyListed(run: seq<State>, desired: Desired, text: string) returns (i: nat, p: Privilege)
    requires LaxRun(run)
    requires var s := run[|run| - 1]; DesiredOf(s.spec, s.schema) == Some(desired) && text in ToRevoke(s, desired)
    ensures i < |run| - 1 && ParseAll(run[i].spec.privileges, run[i].schema).Ok?
    ensures p in ParseAll(run[i].spec.privileges, run[i].schema).value && ToText(p) == text
    ensures var s := run[|run| - 1];
            && ParseAll(s.spec.privileges, s.schema).Ok?
            && forall q | q in ParseAll(s.spec.privileges, s.schema).value :: ToText(q) != text
  {
    hide LaxMove, ToText, ListedIn, DesiredOf, ParseAll;
    var s := run[|run| - 1];
    StatusListed(run);
    i := InListed(run, text);
    p := ListedText(run[i], text);
    NotListed(s, desired, text);
  }

  lemma ListedText(s: State, text: string) returns (p: Privilege)
    requires s.spec.policy == "lax" && text in ListedIn(s)
    ensures ParseAll(s.spec.privileges, s.schema).Ok?
    ensures p in ParseAll(s.spec.privileges, s.schema).value && ToText(p) == text
  {
    hide ToText, ParseAll;
    var ps := ParseAll(s.spec.privileges, s.schema).value;
    var j :| 0 <= j < |Texts(ps)| && Texts(ps)[j] == text;
    p := ps[j];
  }

  lemma NotListed(s: State, desired: Desired, text: string)
    requires s.spec.policy == "lax" && DesiredOf(s.spec, s.schema) == Some(desired) &&
             text !in Elems(desired.privileges)
    ensures text !in ListedIn(s) && ParseAll(s.spec.privileges, s.schema).Ok?
    ensures forall q | q in ParseAll(s.spec.privileges, s.schema).value :: ToText(q) != text
  {
    hide ToText, ParseAll;
    var ps := ParseAll(s.spec.privileges, s.schema).value;
    forall q | q in ps
      ensures ToText(q) in Texts(ps)
    {
      var j :| 0 <= j < |ps| && ps[j] == q;
      assert Texts(ps)[j] == ToText(q);
    }
  }

  /** What is revoked after an Observe: exactly what the database holds, an earlier status managed and the spec no
      longer lists, but never the default privilege. */
  lemma LaxRevokesExactly(s: State, m: State, upToDate: bool, desired: Desired)
    requires s.spec.policy == "lax" && Observed(s, m, upToDate) && DesiredOf(s.spec, s.schema) == Some(desired)
    ensures ToRevoke(m, desired) ==
            (PrivilegeTexts(Entries(s.account.privileges)) * Elems(s.status.privileges)) - Elems(desired.privileges) -
                {DefaultPrivilege(s.schema)}
  {
    hide DesiredOf, PrivilegeTexts, RoleTexts, UpToDate, Entries, DefaultPrivilege;
  }

  // ---------------------------------------------------------------- the database

  ghost predicate SameAt(s: State, t: State, k: Privilege) {
    && (k in s.account.privileges <==> k in t.account.privileges)
    && (k in s.account.privileges ==> t.account.privileges[k] == s.account.privileges[k])
  }

  lemma EffectAt(s: State, t: State, k: Privilege, grants: set<Entry<Privilege>>, revokes: set<Privilege>, ok: bool)
    requires Effect(s.account.privileges, grants, revokes, t.account.privileges, ok)
    requires k !in KeysOf(grants) && k !in revokes
    ensures SameAt(s, t, k)
  {
    var es, ks :| es <= grants && ks <= revokes && t.account.privileges == Revoke(Grant(s.account.privileges, es), ks);
    assert KeysOf(es) <= KeysOf(grants);
    assert Entry(k, true) in es ==> k in KeysOf(es);
  }

  /** The statements of an update of carried strings, with all that they are sent to. */
  lemma UpdateSends(s: State, t: State, ok: bool, all: set<string>)
    requires Updated(s, t, ok) && Carried(all, s.schema)
    requires var desired := DesiredOf(s.spec, s.schema).value; ToGrant(s, desired) + ToRevoke(s, desired) <= all
    ensures var desired := DesiredOf(s.spec, s.schema).value;
            exists k :: && (ok ==> k)
                        && Effect(s.account.privileges, Sends(ToGrant(s, desired), s.schema),
                           KeysOf(Sends(ToRevoke(s, desired), s.schema)),
                                  t.account.privileges, k)
  {
    hide DesiredOf, StepsFrom, Effect, Sends, Carried, KeysOf, UpdatePath, ToGrant, ToRevoke, Executing, Parse;
    var desired := DesiredOf(s.spec, s.schema).value;
    UpdatedIff(s, t, ok);
    var m, k := PrivilegesFirst(s, t, ok, desired);
    var toGrant, toRevoke :| IsList(toGrant, ToGrant(s, desired)) && IsList(toRevoke, ToRevoke(s, desired)) &&
                             Executing(s.account.privileges, toGrant, toRevoke, s.schema, m.account.privileges, k);
    ExecutingEffect(s.account.privileges, toGrant, toRevoke, all, s.schema, m.account.privileges, k);
  }

  lemma PrivilegesFirst(s: State, t: State, ok: bool, desired: Desired) returns (m: State, k: bool)
    requires StepsFrom(0, s, t, ok, desired)
    ensures PrivilegesStep(s, m, k, desired) && t.account.privileges == m.account.privileges &&
            t.status.privileges == m.status.privileges && (ok ==> k)
  {
    hide PrivilegesStep, RolesStep;
    m, k :| Step(0, s, m, k, desired) && (if k then StepsFrom(1, m, t, ok, desired) else t == m && !ok);
    if k {
      StepsStatus(1, m, t, ok, desired);
    }
  }

  lemma UpdateAt(s: State, t: State, ok: bool, listed: set<string>, k: Privilege)
    requires Updated(s, t, ok) && ListedIn(s) <= listed && Elems(s.status.privileges) <= listed
    requires Carried(listed, s.schema) && k !in KeysOf(Sends(listed, s.schema))
    ensures SameAt(s, t, k)
  {
    hide DesiredOf, Effect, Sends, Carried, KeysOf, UpdatePath;
    var desired := DesiredOf(s.spec, s.schema).value;
    UpdateSends(s, t, ok, listed);
    SendsPart(ToGrant(s, desired), listed, s.schema);
    SendsPart(ToRevoke(s, desired), listed, s.schema);
    var o :| Effect(s.account.privileges, Sends(ToGrant(s, desired), s.schema),
        KeysOf(Sends(ToRevoke(s, desired), s.schema)), t.account.privileges, o);
    EffectAt(s, t, k, Sends(ToGrant(s, desired), s.schema), KeysOf(Sends(ToRevoke(s, desired), s.schema)), o);
  }

  /** Nobody else touches the grant. */
  ghost predicate LeftAlone(run: seq<State>, k: Privilege) {
    forall i | 0 < i < |run| :: Interfered(run[i - 1], run[i]) ==> SameAt(run[i - 1], run[i], k)
  }

  /** A grant that the statements of the strings listed in the run do not name, and that nobody else touches, is the
      same at the end of the run as at its start: present or absent, with or without its option. */
  lemma {:induction false} UnsentUntouched(run: seq<State>, k: Privilege)
    requires LaxRun(run) && Carried(Listed(run), run[0].schema) && k !in KeysOf(Sends(Listed(run), run[0].schema))
    requires LeftAlone(run, k)
    ensures SameAt(run[0], run[|run| - 1], k) && run[|run| - 1].schema == run[0].schema
    decreases |run|
  {
    hide LaxMove, ListedIn, Sends, Carried, KeysOf, SameAt, Interfered;
    if |run| > 1 {
      var shorter := run[..|run| - 1];
      var s, t := run[|run| - 2], run[|run| - 1];
      SendsPart(Listed(shorter), Listed(run), run[0].schema);
      assert LeftAlone(shorter, k);
      UnsentUntouched(shorter, k);
      assert LaxMove(s, t) && shorter[|shorter| - 1] == s;
      StatusListed(shorter);
      MoveStatus(s, t);
      assert Interfered(s, t) ==> SameAt(s, t, k);
      MoveAt(s, t, Listed(run), k);
      SameAtTransitive(run[0], s, t, k);
    } else {
      SameAtTransitive(run[0], run[0], run[0], k);
    }
  }

  lemma SameAtTransitive(r: State, s: State, t: State, k: Privilege)
    ensures SameAt(r, r, k)
    ensures SameAt(r, s, k) && SameAt(s, t, k) ==> SameAt(r, t, k)
  {}

  lemma MoveAt(s: State, t: State, listed: set<string>, k: Privilege)
    requires LaxMove(s, t) && (Interfered(s, t) ==> SameAt(s, t, k))
    requires ListedIn(s) <= listed && Elems(s.status.privileges) <= listed
    requires Carried(listed, s.schema) && k !in KeysOf(Sends(listed, s.schema))
    ensures SameAt(s, t, k)
  {
    hide DesiredOf, PrivilegeTexts, RoleTexts, UpToDate, ListedIn, Sends, Carried, KeysOf, UpdatePath;
    if ok :| Updated(s, t, ok) {
      UpdateAt(s, t, ok, listed, k);
    }
  }

  lemma {:induction false} SameSchema(run: seq<State>, i: nat)
    requires LaxRun(run) && i < |run|
    ensures run[i].schema == run[0].schema
  {
    hide LaxMove;
    if i > 0 {
      SameSchema(run, i - 1);
      assert LaxMove(run[i - 1], run[i]);
      MoveStatus(run[i - 1], run[i]);
    }
  }

  /** Where the listed privileges are canonical, a grant denoted by a listed string is the grant of a listed
      privilege. */
  lemma DenotedIsListed(run: seq<State>, k: Privilege) returns (i: nat, p: Privilege)
    requires LaxRun(run) && k in KeysOf(ParsedEntries(Listed(run), run[0].schema))
    requires forall j, q | 0 <= j < |run| && ParseAll(run[j].spec.privileges, run[0].schema).Ok?
                           && q in ParseAll(run[j].spec.privileges, run[0].schema).value :: Canonical(q, run[0].schema)
    ensures i < |run| && ParseAll(run[i].spec.privileges, run[0].schema).Ok?
    ensures p in ParseAll(run[i].spec.privileges, run[0].schema).value && EntryOf(p).key == k
  {
    hide LaxMove, ToText, ListedIn, ParseAll, Parse, Canonical, Listed, EntryOf;
    var schema := run[0].schema;
    var text :| text in Listed(run) && Parse(text, schema).Ok? && EntryOf(Parse(text, schema).value).key == k;
    i := InListed(run, text);
    SameSchema(run, i);
    p := ListedText(run[i], text);
    CanonicalParses(p, schema);
  }

  // ---------------------------------------------------------------- when nothing but listed grants is touched

  /** In every run that lists only these strings, a grant that none of them denotes is left alone. */
  ghost predicate TouchesOnlyListed(listed: set<string>, schema: string) {
    forall run: seq<State>, k: Privilege |
      && LaxRun(run) && run[0].schema == schema && Listed(run) <= listed && LeftAlone(run, k)
      && k !in KeysOf(ParsedEntries(listed, schema)) :: SameAt(run[0], run[|run| - 1], k)
  }

  /** What the formatter makes of some string of a spec. */
  ghost predicate Formatted(t: string, schema: string) {
    exists x :: Parse(x, schema).Ok? && ToText(Parse(x, schema).value) == t
  }

  /** Listed strings: formatted, whether they read back or not, and able to stand in a list if they are read at all. */
  ghost predicate Listing(listed: set<string>, schema: string) {
    Carried(listed, schema) && forall t | t in listed :: Formatted(t, schema)
  }

  lemma ListingCarried(listed: set<string>, schema: string)
    requires Listing(listed, schema)
    ensures Carried(listed, schema)
  {
    hide Carried, Formatted;
  }

  /** Never-listed grants are never touched if and only if the statement of every listed privilege names a listed
      one. */
  lemma TouchesOnlyListedIff(listed: set<string>, schema: string)
    requires Listing(listed, schema)
    ensures TouchesOnlyListed(listed, schema) <==>
            KeysOf(Sends(listed, schema)) <= KeysOf(ParsedEntries(listed, schema))
  {
    hide LaxMove, Listed, LeftAlone, SameAt, Sends, ParsedEntries, Carried, KeysOf, Parse, Listing;
    ListingCarried(listed, schema);
    if KeysOf(Sends(listed, schema)) <= KeysOf(ParsedEntries(listed, schema)) {
      forall run: seq<State>, k: Privilege |
        && LaxRun(run) && run[0].schema == schema && Listed(run) <= listed && LeftAlone(run, k)
        && k !in KeysOf(ParsedEntries(listed, schema))
        ensures SameAt(run[0], run[|run| - 1], k)
      {
        SendsPart(Listed(run), listed, schema);
        UnsentUntouched(run, k);
      }
    }
    if TouchesOnlyListed(listed, schema) {
      forall k | k in KeysOf(Sends(listed, schema))
        ensures k in KeysOf(ParsedEntries(listed, schema))
      {
        if k !in KeysOf(ParsedEntries(listed, schema)) {
          var run := SentRun(listed, schema, k);
        }
      }
    }
  }

  /** A user with nothing granted and a spec that lists some strings. */
  function Fresh(privileges: seq<string>, schema: string, held: map<Privilege, bool>): State {
    State(Spec("", true, "lax", privileges, [], map[], "", false, NoPassword),
          Status([], [], map[], None, None, None, None),
          Account(held, map[], map[], "", false, false, ""), schema)
  }

  lemma FreshFormats(x: string, text: string, schema: string, held: map<Privilege, bool>)
    requires Parse(x, schema).Ok? && ToText(Parse(x, schema).value) == text
    ensures var s := Fresh([x], schema, held);
            DesiredOf(s.spec, s.schema) == Some(Desired([text], [])) && KnownPolicy(s.spec.policy)
  {
    hide Parse, ToText;
    ParseOne(x, schema);
    var p := Parse(x, schema).value;
    assert Texts([p]) == [text];
  }

  lemma EmptyFormats(schema: string, held: map<Privilege, bool>)
    ensures var s := Fresh([], schema, held);
            DesiredOf(s.spec, s.schema) == Some(Desired([], [])) && KnownPolicy(s.spec.policy)
  {}

  /** A run that touches what the statement of a listed string names. */
  lemma SentRun(listed: set<string>, schema: string, k: Privilege) returns (run: seq<State>)
    requires Listing(listed, schema) && k in KeysOf(Sends(listed, schema))
    ensures LaxRun(run) && run[0].schema == schema && Listed(run) <= listed && LeftAlone(run, k)
    ensures !SameAt(run[0], run[|run| - 1], k)
  {
    hide Parse, ToText, Reach, Carried;
    var text :|
        text in listed && Parse(text, schema).Ok? && Reach(Parse(text, schema).value).Some? &&
        Reach(Parse(text, schema).value).value == k;
    ListedAlone(listed, text, schema);
    var x :| Parse(x, schema).Ok? && ToText(Parse(x, schema).value) == text;
    run := GrantRun(x, text, schema, k);
    assert Listed(run) <= listed;
  }

  lemma ListedAlone(listed: set<string>, text: string, schema: string)
    requires Listing(listed, schema) && text in listed
    ensures Carried({text}, schema) && Formatted(text, schema)
  {
    hide Formatted, Carried;
    SendsPart({text}, listed, schema);
  }

  lemma UpdateFrame(s: State, t: State)
    requires Updated(s, t, true)
    ensures t.spec == s.spec && t.schema == s.schema
    ensures var desired := DesiredOf(s.spec, s.schema).value;
            t.status.privileges == if Elems(desired.privileges) != ManagedStatus(s) then desired.privileges
                else s.status.privileges
  {
    hide DesiredOf, StepsFrom, UpdatePath, ManagedStatus, Executing;
    var desired := DesiredOf(s.spec, s.schema).value;
    UpdatedIff(s, t, true);
    StepsStatus(0, s, t, true, desired);
    var m, k := PrivilegesFirst(s, t, true, desired);
  }

  lemma ObserveFrame(s: State, m: State, upToDate: bool, desired: Desired)
    requires Observed(s, m, upToDate) && DesiredOf(s.spec, s.schema) == Some(desired) && s.account.roles == map[]
    ensures m == s.(status := m.status) && m.status.roles == []
    ensures Elems(m.status.privileges) ==
            Managed(PrivilegeTexts(Entries(s.account.privileges)), Elems(desired.privileges),
                Elems(s.status.privileges), s.spec.policy, s.schema)
  {
    hide DesiredOf, PrivilegeTexts, UpToDate, Managed;
    assert Entries(s.account.roles) == {};
    assert RoleTexts(Entries(s.account.roles)) == {};
    EmptyElems(m.status.roles);
  }

  lemma EmptyElems(l: seq<string>)
    ensures Elems(l) == {} <==> l == []
  {
    if l != [] {
      assert l[0] in Elems(l);
    }
  }

  lemma CarriedOne(text: string, schema: string)
    requires Parse(text, schema).Ok? && Listable(Parse(text, schema).value) && ToText(Parse(text, schema).value) == text
    ensures Carried({text}, schema)
  {
    hide Parse, Listable, ToText;
  }

  lemma SendsOne(text: string, schema: string, p: Privilege, k: Privilege)
    requires Parse(text, schema) == Ok(p) && Reach(p) == Some(k)
    ensures Sends({text}, schema) == {Entry(k, p.isGrantable)} && KeysOf(Sends({text}, schema)) == {k}
    ensures Sends({}, schema) == {} && KeysOf(Sends({}, schema)) == {}
  {
    hide Parse, Reach;
    assert Sends({text}, schema) == {Entry(k, p.isGrantable)};
  }

  /** Listing one string on a user without grants: its statement grants what it names. */
  lemma GrantRun(x: string, text: string, schema: string, k: Privilege) returns (run: seq<State>)
    requires Parse(x, schema).Ok? && ToText(Parse(x, schema).value) == text && Carried({text}, schema)
    requires Parse(text, schema).Ok? && Reach(Parse(text, schema).value) == Some(k)
    ensures LaxRun(run) && run[0].schema == schema && Listed(run) == {text} && LeftAlone(run, k)
    ensures !SameAt(run[0], run[|run| - 1], k)
  {
    hide Parse, ToText, Reach, Listable, Observed, Updated, DesiredOf, PrivilegeTexts, Sends, KeysOf, Carried;
    hide DefaultPrivilege;
    var s := Fresh([x], schema, map[]);
    var desired := Desired([text], []);
    FreshFormats(x, text, schema, map[]);
    var m, upToDate := CanObserve(s);
    ObserveFrame(s, m, upToDate, desired);
    NoTexts();
    EmptyElems(m.status.privileges);
    assert ToGrant(m, desired) == {text} && ToRevoke(m, desired) == {};
    var t := CanUpdate(m);
    UpdateFrame(m, t);
    UpdateSends(m, t, true, {text});
    SendsOne(text, schema, Parse(text, schema).value, k);
    GrantsIt(m, t, Parse(text, schema).value.isGrantable, k);
    run := [s, m, t];
    ObservedMoves(s, m, upToDate);
    UpdatedMoves(m, t, true);
    SameListed(run, text);
  }

  lemma NoTexts()
    ensures PrivilegeTexts(Entries(map[])) == {}
  {
    hide RowText;
    assert Entries<Privilege>(map[]) == {};
  }

  lemma GrantsIt(s: State, t: State, g: bool, k: Privilege)
    requires s.account.privileges == map[] &&
             Effect(s.account.privileges, {Entry(k, g)}, {}, t.account.privileges, true)
    ensures k in t.account.privileges
  {
    assert k in KeysOf({Entry(k, g)}) by { assert Entry(k, g) in {Entry(k, g)}; }
  }

  lemma ObservedMoves(s: State, t: State, upToDate: bool)
    requires Observed(s, t, upToDate)
    ensures LaxMove(s, t)
  {
    hide Observed, Updated;
  }

  lemma UpdatedMoves(s: State, t: State, ok: bool)
    requires Updated(s, t, ok)
    ensures LaxMove(s, t)
  {
    hide Observed, Updated;
  }

  lemma ListedAppend(run: seq<State>, s: State)
    ensures Listed(run + [s]) == Listed(run) + ListedIn(s)
  {
    assert (run + [s])[..|run|] == run;
  }

  lemma SameListed(run: seq<State>, text: string)
    requires |run| == 3 && forall i | 0 <= i < 3 :: DesiredOf(run[i].spec, run[i].schema) == Some(Desired([text], []))
    ensures Listed(run) == {text}
  {
    hide DesiredOf, Listed;
    ListedAppend([], run[0]);
    ListedAppend([run[0]], run[1]);
    ListedAppend([run[0], run[1]], run[2]);
    NothingListed();
    assert [] + [run[0]] == [run[0]] && [run[0]] + [run[1]] == [run[0], run[1]] && [run[0], run[1]] + [run[2]] == run;
  }

  lemma NothingListed()
    ensures Listed([]) == {}
  {}

  // ---------------------------------------------------------------- a run that revokes what was never listed

  /** List a privilege with a dot in its schema or special name, observe, take it from the spec, update: the update
      succeeds, revokes another grant that was never listed, and leaves the one it should revoke. */
  lemma DottedRunRevokes(p: Privilege, schema: string, g: bool) returns (run: seq<State>)
    requires !Direct(p) && Canonical(p, schema) && Listable(p) && Sent(p).subIdentifier != "" &&
             ToText(p) != DefaultPrivilege(schema)
    ensures LaxRun(run) && |run| == 4 && Listed(run) == {ToText(p)}
    ensures Sent(p) !in KeysOf(ParsedEntries(Listed(run), schema))
    ensures Updated(run[2], run[3], true)
    ensures run[0].account.privileges == map[BaseOf(p) := p.isGrantable, Sent(p) := g]
    ensures Sent(p) !in run[3].account.privileges && BaseOf(p) in run[3].account.privileges
  {
    hide Parse, ToText, Listable, Observed, Updated, DesiredOf, PrivilegeTexts, Sends, KeysOf, Carried;
    hide DefaultPrivilege;
    hide Canonical, Reach, Sent, Direct, ParsedEntries;
    var text, k := ToText(p), Sent(p);
    CanonicalParses(p, schema);
    DottedName(p, schema);
    ReachElsewhere(p);
    SplitAgain(p);
    var held := map[BaseOf(p) := p.isGrantable, k := g];
    var s := Fresh([text], schema, held);
    FreshFormats(text, text, schema, held);
    var m, upToDate := CanObserve(s);
    ObserveFrame(s, m, upToDate, Desired([text], []));
    HeldTexts(p, k, g, schema);
    assert Elems(m.status.privileges) == {text};
    var n := m.(spec := Fresh([], schema, held).spec);
    EmptyFormats(schema, held);
    var t := RevokesOther(n, p, k, held);
    run := [s, m, n, t];
    ObservedMoves(s, m, upToDate);
    EditMoves(m, n);
    UpdatedMoves(n, t, true);
    ListedOnce(run, text);
    NotDenoted(text, schema, p, k);
  }

  /** The update after the privilege was taken from the spec. */
  lemma RevokesOther(n: State, p: Privilege, k: Privilege, held: map<Privilege, bool>) returns (t: State)
    requires n.spec == Fresh([], n.schema, held).spec && n.account == Fresh([], n.schema, held).account &&
             n.status.roles == []
    requires DesiredOf(n.spec, n.schema) == Some(Desired([], [])) && Elems(n.status.privileges) == {ToText(p)}
    requires Parse(ToText(p), n.schema) == Ok(p) && Listable(p) && Reach(p) == Some(k) &&
             ToText(p) != DefaultPrivilege(n.schema)
    requires BaseOf(p) in held && BaseOf(p) != k
    ensures Updated(n, t, true) && t.spec == n.spec && t.schema == n.schema
    ensures k !in t.account.privileges && BaseOf(p) in t.account.privileges
  {
    hide Parse, ToText, Listable, Updated, DesiredOf, Sends, KeysOf, Carried, DefaultPrivilege, Reach;
    var text := ToText(p);
    assert ToGrant(n, Desired([], [])) == {} && ToRevoke(n, Desired([], [])) == {text};
    t := CanUpdate(n);
    UpdateFrame(n, t);
    CarriedOne(text, n.schema);
    UpdateSends(n, t, true, {text});
    SendsOne(text, n.schema, p, k);
    RevokesIt(held, t.account.privileges, k, BaseOf(p));
  }

  lemma DottedName(p: Privilege, schema: string)
    requires !Direct(p) && Canonical(p, schema)
    ensures NameShape(p.name) && p.kind == Object
  {
    hide NameShape, Bare, SpecialPrefix;
  }

  lemma EditMoves(s: State, t: State)
    requires t == s.(spec := t.spec)
    ensures LaxMove(s, t)
  {}

  /** The strings of the two grants: only that of `p` is listed. */
  lemma HeldTexts(p: Privilege, k: Privilege, g: bool, schema: string)
    requires Canonical(p, schema) && p.kind == Object && k.kind == Object && k != BaseOf(p) && !k.isGrantable &&
             k.subIdentifier != "" && NameShape(k.name)
    ensures var ts := PrivilegeTexts(Entries(map[BaseOf(p) := p.isGrantable, k := g]));
            ToText(p) in ts && forall t | t in ts && t != ToText(p) :: t == RowText(Entry(k, g))
  {
    hide ToText, RowText, Canonical, NameShape;
    var held := map[BaseOf(p) := p.isGrantable, k := g];
    var e := Entry(BaseOf(p), p.isGrantable);
    assert PrivilegeOf(e) == p;
    RowTextIs(e);
    assert BaseOf(p) in held && held[BaseOf(p)] == p.isGrantable;
    assert e in Entries(held);
    assert RowText(e) == ToText(p);
  }

  lemma RevokesIt(held: map<Privilege, bool>, after: map<Privilege, bool>, k: Privilege, b: Privilege)
    requires Effect(held, {}, {k}, after, true) && b in held && b != k
    ensures k !in after && b in after
  {}

  lemma ListedOnce(run: seq<State>, text: string)
    requires |run| == 4
    requires forall i | 0 <= i < 2 :: DesiredOf(run[i].spec, run[i].schema) == Some(Desired([text], []))
    requires forall i | 2 <= i < 4 :: DesiredOf(run[i].spec, run[i].schema) == Some(Desired([], []))
    ensures Listed(run) == {text}
  {
    hide DesiredOf, Listed;
    ListedAppend([], run[0]);
    ListedAppend([run[0]], run[1]);
    ListedAppend([run[0], run[1]], run[2]);
    ListedAppend([run[0], run[1], run[2]], run[3]);
    NothingListed();
    assert [] + [run[0]] == [run[0]] && [run[0]] + [run[1]] == [run[0], run[1]];
    assert [run[0], run[1]] + [run[2]] == [run[0], run[1], run[2]] && [run[0], run[1], run[2]] + [run[3]] == run;
  }

  lemma NotDenoted(text: string, schema: string, p: Privilege, k: Privilege)
    requires Parse(text, schema) == Ok(p) && k != BaseOf(p)
    ensures k !in KeysOf(ParsedEntries({text}, schema))
  {
    hide Parse;
  }

  /** For one listed privilege the condition is a dot: only its own grant is touched if and only if neither its schema
      nor its special name has one. */
  lemma OneListedIff(p: Privilege, schema: string)
    requires Canonical(p, schema) && Canonical(BaseOf(p), "") && Listable(p) &&
             (Direct(p) || Sent(p).subIdentifier != "")
    ensures TouchesOnlyListed({ToText(p)}, schema) <==> Direct(p)
  {
    hide Parse, ToText, Listable, Sends, KeysOf, Carried, Canonical, Reach, Sent, TouchesOnlyListed, ParsedEntries;
    hide Direct;
    var text := ToText(p);
    CanonicalParses(p, schema);
    CarriedOne(text, schema);
    assert Formatted(text, schema);
    TouchesOnlyListedIff({text}, schema);
    OneParsed(text, schema, p);
    if Direct(p) {
      ReachSelf(p);
      SendsOne(text, schema, p, BaseOf(p));
    } else {
      DottedName(p, schema);
      ReachElsewhere(p);
      SendsOne(text, schema, p, Sent(p));
      assert Sent(p) in KeysOf(Sends({text}, schema));
    }
  }

  lemma OneParsed(text: string, schema: string, p: Privilege)
    requires Parse(text, schema) == Ok(p)
    ensures KeysOf(ParsedEntries({text}, schema)) == {BaseOf(p)}
  {
    hide Parse;
    assert ParsedEntries({text}, schema) == {EntryOf(p)};
  }

  /** Lists without dots are safe, whatever else they contain. */
  lemma DotlessIsSafe(listed: set<string>, schema: string)
    requires Listing(listed, schema)
    requires forall t | t in listed && Parse(t, schema).Ok? ::
             Direct(Parse(t, schema).value) && Canonical(BaseOf(Parse(t, schema).value), "")
    ensures TouchesOnlyListed(listed, schema)
  {
    hide Parse, ToText, Listable, Formatted, Canonical, Reach, TouchesOnlyListed, Direct;
    TouchesOnlyListedIff(listed, schema);
    forall k | k in KeysOf(Sends(listed, schema))
      ensures k in KeysOf(ParsedEntries(listed, schema))
    {
      var t :| t in listed && Parse(t, schema).Ok? && Reach(Parse(t, schema).value).Some? &&
          Reach(Parse(t, schema).value).value == k;
      ReachSelf(Parse(t, schema).value);
      assert EntryOf(Parse(t, schema).value) in ParsedEntries(listed, schema);
    }
  }
}
