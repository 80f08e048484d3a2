/** What a spec asks for, with the defaults that are added to it: told from the strings of the spec alone. */
module Defaults {
  import opened Strings
  import opened Privileges
  import opened Language
  import R = Roles
  import opened RoleNames
  import opened Statements
  import opened Grants
  import opened SetDiff
  import opened UserModel
  import opened UserConvergence

  /** The roles that role strings mean. */
  function NamedRoles(texts: set<string>): set<Entry<string>> {
    set t | t in texts && R.Read(t).Ok? :: Entry(R.Read(t).value.name, R.Read(t).value.isGrantable)
  }

  lemma ReadAllNamed(texts: seq<string>)
    ensures R.ReadAll(texts).Ok? <==> forall t | t in Elems(texts) :: R.Read(t).Ok?
    ensures R.ReadAll(texts).Ok? ==>
            (set r | r in R.ReadAll(texts).value :: Entry(r.name, r.isGrantable)) == NamedRoles(Elems(texts))
    decreases |texts|
  {
    hide R.Read;
    if texts != [] {
      ReadAllNamed(texts[1..]);
      assert Elems(texts) == {texts[0]} + Elems(texts[1..]);
      if R.ReadAll(texts).Ok? {
        var r, rs := R.Read(texts[0]).value, R.ReadAll(texts[1..]).value;
        assert R.ReadAll(texts).value == [r] + rs;
        assert NamedRoles(Elems(texts)) == {Entry(r.name, r.isGrantable)} + NamedRoles(Elems(texts[1..]));
      }
    }
  }

  lemma ParseAllEntries(texts: seq<string>, schema: string)
    ensures ParseAll(texts, schema).Ok? <==> forall t | t in Elems(texts) :: Parse(t, schema).Ok?
    ensures ParseAll(texts, schema).Ok? ==>
            (set p | p in ParseAll(texts, schema).value :: EntryOf(p)) == ParsedEntries(Elems(texts), schema)
  {
    hide Parse, EntryOf;
    ParseAllIs(texts, schema);
    assert forall i | 0 <= i < |texts| :: texts[i] in Elems(texts);
    if ParseAll(texts, schema).Ok? {
      var ps := ParseAll(texts, schema).value;
      forall t | t in Elems(texts)
        ensures Parse(t, schema).value in ps
      {
        var i :| 0 <= i < |texts| && texts[i] == t;
        assert ps[i] in ps;
      }
      forall p | p in ps
        ensures exists t | t in Elems(texts) :: Parse(t, schema) == Ok(p)
      {
        var i :| 0 <= i < |ps| && ps[i] == p;
        assert texts[i] in Elems(texts);
      }
    }
  }

  /** The wanted roles are those of the spec and, unless the user is restricted, the role PUBLIC without option. */
  lemma WantedRolesAre(spec: Spec)
    requires forall t | t in spec.roles :: R.Read(t).Ok?
    ensures WantedRoles(spec) ==
            NamedRoles(Elems(spec.roles)) + (if spec.restricted then {} else {Entry("PUBLIC", false)})
  {
    hide R.Read, R.ReadAll;
    BareRole("PUBLIC");
    ReadAllNamed(SpecRoles(spec));
    assert Elems(SpecRoles(spec)) == Elems(spec.roles) + if spec.restricted then {} else {"PUBLIC"};
    assert NamedRoles({"PUBLIC"}) == {Entry("PUBLIC", false)};
  }

  /** The wanted privileges are those of the spec and, exactly under the strict policy for a user that is not
      restricted, the privilege to create anything in the own schema, with its option. */
  lemma WantedPrivilegesAre(spec: Spec, schema: string)
    requires QUOTE !in spec.username && forall t | t in spec.privileges :: Parse(t, schema).Ok?
    ensures WantedPrivileges(spec, schema) ==
            ParsedEntries(Elems(spec.privileges), schema) +
            (if spec.policy == "strict" && !spec.restricted
             then {Entry(Privilege(Schema, "CREATE ANY", spec.username, "", false), true)} else {})
  {
    hide Parse, ParseAll, DefaultPrivilege;
    var own := DefaultPrivilege(spec.username);
    DefaultIsCanonical(spec.username, schema);
    ParseAllEntries(SpecPrivileges(spec), schema);
    assert Elems(SpecPrivileges(spec)) ==
        Elems(spec.privileges) + if spec.policy == "strict" && !spec.restricted then {own} else {};
    assert ParsedEntries({own}, schema) == {Entry(Privilege(Schema, "CREATE ANY", spec.username, "", false), true)};
  }

  /** The desired strings exist exactly when every string of the spec can be read, and are those of the wanted
      grants. */
  lemma DesiredIff(spec: Spec, schema: string)
    requires QUOTE !in spec.username
    ensures DesiredOf(spec, schema).Some? <==>
            (forall t | t in spec.privileges :: Parse(t, schema).Ok?) && (forall t | t in spec.roles :: R.Read(t).Ok?)
    ensures DesiredOf(spec, schema).Some? ==>
            && Elems(DesiredOf(spec, schema).value.privileges) == PrivilegeTexts(WantedPrivileges(spec, schema))
            && Elems(DesiredOf(spec, schema).value.roles) == NameTexts(WantedRoles(spec))
  {
    hide Parse, ParseAll, R.Read, R.ReadAll, DefaultPrivilege, PrivilegeTexts, NameTexts, WantedPrivileges, WantedRoles;
    BareRole("PUBLIC");
    DefaultIsCanonical(spec.username, schema);
    ReadAllNamed(SpecRoles(spec));
    ParseAllEntries(SpecPrivileges(spec), schema);
    if DesiredOf(spec, schema).Some? {
      WantedTexts(spec, schema);
    }
  }

  /** The desired lists, told from the spec. */
  ghost predicate AsAskedFor(spec: Spec, schema: string, desired: Desired) {
    && Elems(desired.privileges) == PrivilegeTexts(
         ParsedEntries(Elems(spec.privileges), schema) +
         (if spec.policy == "strict" && !spec.restricted
          then {Entry(Privilege(Schema, "CREATE ANY", spec.username, "", false), true)} else {}))
    && Elems(desired.roles) == NameTexts(
         NamedRoles(Elems(spec.roles)) + (if spec.restricted then {} else {Entry("PUBLIC", false)}))
  }

  lemma DesiredAsAskedFor(spec: Spec, schema: string)
    requires QUOTE !in spec.username && DesiredOf(spec, schema).Some?
    ensures AsAskedFor(spec, schema, DesiredOf(spec, schema).value)
  {
    hide Parse, R.Read, PrivilegeTexts, NameTexts, WantedPrivileges, WantedRoles, DesiredOf, NamedRoles, ParsedEntries;
    DesiredIff(spec, schema);
    WantedPrivilegesAre(spec, schema);
    WantedRolesAre(spec);
  }
}
