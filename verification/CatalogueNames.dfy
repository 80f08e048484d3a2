/** What the strings of the catalogue do to convergence: grants that are taken for others, and a catalogue that shows
    privilege names in capitals with single blanks. */
module CatalogueNames {
  import opened Strings
  import opened Privileges
  import opened RoundTrip
  import opened Grouping
  import opened Statements
  import opened Grants
  import opened SetDiff
  import opened Execution
  import opened UserModel
  import opened UserConvergence
  import opened UserRuns
  import opened LaxSafety

  // ---------------------------------------------------------------- grants taken for others

  function PsePrivilege(n: string, pse: string): Privilege {
    Privilege(Object, n, "PSE " + pse, "", false)
  }

  /** A privilege on the PSE `A WITH GRANT OPTION` and one on the PSE `A` with the option are reported alike. */
  lemma MisreadPse(n: string)
    ensures var e, f := Entry(PsePrivilege(n, "A WITH GRANT OPTION"), false), Entry(PsePrivilege(n, "A"), true);
            e.key != f.key && RowText(e) == RowText(f)
  {
    hide RowText, ToText;
    var e, f := Entry(PsePrivilege(n, "A WITH GRANT OPTION"), false), Entry(PsePrivilege(n, "A"), true);
    RowTextIs(e);
    RowTextIs(f);
    PseText(n, "A WITH GRANT OPTION", false);
    PseText(n, "A", true);
    assert "A" + " WITH GRANT OPTION" == "A WITH GRANT OPTION";
    Regrouped(n + " ON PSE ", "A", " WITH GRANT OPTION");
    assert |e.key.identifier| != |f.key.identifier|;
  }

  lemma Regrouped(a: string, b: string, c: string)
    ensures a + b + c == a + (b + c) && a + (b + c) + "" == a + (b + c)
  {}

  lemma PseText(n: string, pse: string, g: bool)
    ensures ToText(PrivilegeOf(Entry(PsePrivilege(n, pse), g))) ==
            n + " ON PSE " + pse + if g then " WITH GRANT OPTION" else ""
  {
    var x := "PSE " + pse;
    assert "PSE " <= x && x[|"PSE "|..] == pse;
    assert n + (" ON " + "PSE " + pse) == n + " ON PSE " + pse;
  }

  /** A user who holds only the first where only the second is wanted: the privileges look as wanted, and are not. */
  lemma MisreadLooksMet(s: State, n: string)
    requires s.account.privileges == map[PsePrivilege(n, "A WITH GRANT OPTION") := false]
    requires WantedPrivileges(s.spec, s.schema) == {Entry(PsePrivilege(n, "A"), true)}
    ensures PrivilegeTexts(Entries(s.account.privileges)) == PrivilegeTexts(WantedPrivileges(s.spec, s.schema))
    ensures !Met(s)
  {
    hide RowText, WantedPrivileges, WantedRoles, OtherwiseMet, PsePrivilege;
    var e, f := Entry(PsePrivilege(n, "A WITH GRANT OPTION"), false), Entry(PsePrivilege(n, "A"), true);
    MisreadPse(n);
    assert e.key in s.account.privileges;
    assert Entries(s.account.privileges) == {e};
    assert PrivilegeTexts({e}) == {RowText(e)} && PrivilegeTexts({f}) == {RowText(f)};
  }

  // ---------------------------------------------------------------- capitals and single blanks

  /** A privilege name in capitals, with single blanks. */
  predicate NormalName(n: string) {
    Upper(n) == n && (forall i | 0 <= i < |n| && IsSpace(n[i]) :: n[i] == ' ' && (i + 1 < |n| ==> !IsSpace(n[i + 1])))
  }

  ghost predicate NormalEntries(es: set<Entry<Privilege>>) {
    forall e | e in es :: NormalName(e.key.name)
  }

  /** Where the catalogue shows only normal names, a spec looks met only if its names are normal: `select ON SCHEMA "x"`
      never does. */
  lemma OnlyNormalLooks(s: State)
    requires LegibleEntries(WantedPrivileges(s.spec, s.schema), s.schema)
    requires LegibleEntries(Entries(s.account.privileges), s.schema) && NormalEntries(Entries(s.account.privileges))
    requires LooksMet(s)
    ensures NormalEntries(WantedPrivileges(s.spec, s.schema))
  {
    hide Legible, WantedPrivileges, PrivilegeTexts, OthersLook, NormalName;
    TextsEqual(Entries(s.account.privileges), WantedPrivileges(s.spec, s.schema), s.schema);
  }

  /** And with a normal spec it goes on showing only normal names, so that the convergence theorem applies as it is. */
  lemma NormalStays(s: State, t: State, ok: bool)
    requires Setting(s) && Updated(s, t, ok)
    requires NormalEntries(Entries(s.account.privileges)) && NormalEntries(WantedPrivileges(s.spec, s.schema))
    ensures NormalEntries(Entries(t.account.privileges))
  {
    hide DesiredOf, Sends, Carried, KeysOf, UpdatePath, StepsFrom, ManagedStatus, Executing, Undisturbed;
    hide SoundEntries, WantedPrivileges, PrivilegeTexts, Entries, NormalName;
    var desired, wanted := DesiredOf(s.spec, s.schema).value, WantedPrivileges(s.spec, s.schema);
    UpdatedIff(s, t, ok);
    var m, k := PrivilegesFirst(s, t, ok, desired);
    WantedTexts(s.spec, s.schema);
    SoundSends(wanted, s.schema);
    SendsNormal(wanted, s.schema);
    var toGrant, toRevoke :|
        IsList(toGrant, ToGrant(s, desired)) && IsList(toRevoke, ToRevoke(s, desired)) &&
        Executing(s.account.privileges, toGrant, toRevoke, s.schema, m.account.privileges, k);
    ExecutingKeeps(s.account.privileges, toGrant, toRevoke, PrivilegeTexts(wanted), s.schema, m.account.privileges, k);
    SendsPart(Elems(toGrant), PrivilegeTexts(wanted), s.schema);
  }

  lemma SendsNormal(es: set<Entry<Privilege>>, schema: string)
    requires SoundEntries(es, schema) && NormalEntries(es)
    ensures forall k | k in KeysOf(Sends(PrivilegeTexts(es), schema)) :: NormalName(k.name)
  {
    hide Parse, ToText, RowText, SoundKey, Listable, Reach, Direct, NormalName;
    var ts := PrivilegeTexts(es);
    forall t | t in ts && Parse(t, schema).Ok? && Reach(Parse(t, schema).value).Some?
      ensures NormalName(Reach(Parse(t, schema).value).value.name)
    {
      var e :| e in es && RowText(e) == t;
      SoundReach(e, schema);
      SameName(e, schema);
    }
  }

  lemma SameName(e: Entry<Privilege>, schema: string)
    requires SoundKey(e.key, schema)
    ensures Reach(PrivilegeOf(e)).Some? && Reach(PrivilegeOf(e)).value.name == e.key.name
  {
    hide Canonical, PlainName, Reach, Sent, Direct;
    var p := PrivilegeOf(e);
    assert BaseOf(p) == e.key;
    SameDirect(p, e.key);
    if Direct(e.key) {
      ReachSelf(p);
    } else {
      ElsewhereSound(e.key, p, schema);
      SentName(p);
    }
  }

  lemma SentName(p: Privilege)
    ensures Sent(p).name == p.name
  {}
}
