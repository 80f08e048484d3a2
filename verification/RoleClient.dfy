/** internal/clients/hana/role/role_client.go: the text of the statements on a role names exactly the role, the groups
    and the options it was built from, whatever characters they contain. */
module RoleClient {
  import opened Strings
  import opened Quoting

  const APOSTROPHE: char := '\''

  /** getRoleName. */
  function QualifiedName(schema: string, role: string): string {
    if schema != "" then Quoted(schema) + "." + Quoted(role) else Quoted(role)
  }

  datatype Name = Name(schema: string, role: string)

  /** Reference reader: a delimited identifier, qualified by another one or not, and what follows. */
  function ReadName(s: string): Option<(Name, string)> {
    match ReadDelimited(s, QUOTE)
    case None => None
    case Some((first, rest)) =>
      if [ '.', QUOTE ] <= rest then
        match ReadDelimited(rest[1..], QUOTE)
        case None => None
        case Some((second, more)) => Some((Name(first, second), more))
      else Some((Name("", first), rest))
  }

  lemma NameReadsBack(schema: string, role: string, z: string)
    requires !StartsWith(z, QUOTE) && !([ '.', QUOTE ] <= z)
    ensures ReadName(QualifiedName(schema, role) + z) == Some((Name(schema, role), z))
  {
    hide ReadDelimited, Escape;
    if schema == "" {
      ReadDelimitedBack(role, z, QUOTE);
    } else {
      var rest := "." + (Quoted(role) + z);
      assert QualifiedName(schema, role) + z == Quoted(schema) + rest;
      ReadDelimitedBack(schema, rest, QUOTE);
      ReadDelimitedBack(role, z, QUOTE);
      assert rest[1..] == Quoted(role) + z;
      assert [ '.', QUOTE ] <= rest;
    }
  }

  /** Different roles have different names, also when one has no schema. */
  lemma QualifiedNameInjective(schema: string, role: string, schema': string, role': string)
    requires QualifiedName(schema, role) == QualifiedName(schema', role')
    ensures schema == schema' && role == role'
  {
    hide QualifiedName, ReadName;
    NameReadsBack(schema, role, "");
    NameReadsBack(schema', role', "");
    assert QualifiedName(schema, role) + "" == QualifiedName(schema', role') + "";
  }

  // ---------------------------------------------------------------- LDAP groups

  /** strings.TrimSuffix of a comma. */
  function TrimComma(s: string): string {
    if HasSuffix(s, ",") then s[..|s| - 1] else s
  }

  function GroupList(groups: seq<string>): string {
    Join(AllDelimited(groups, APOSTROPHE), ", ")
  }

  lemma {:induction false} JoinAppend(parts: seq<string>, p: string, sep: string)
    requires parts != []
    ensures Join(parts + [p], sep) == Join(parts, sep) + sep + p
    decreases |parts|
  {
    if |parts| == 1 {
      assert parts + [p] == [parts[0], p];
      assert [parts[0], p][1..] == [p];
    } else {
      assert (parts + [p])[1..] == parts[1..] + [p];
      JoinAppend(parts[1..], p, sep);
    }
  }

  lemma GroupListAppend(groups: seq<string>, g: string)
    ensures GroupList(groups + [g]) == if groups == [] then Delimited(g, APOSTROPHE)
            else GroupList(groups) + ", " + Delimited(g, APOSTROPHE)
  {
    hide Delimited;
    assert AllDelimited(groups + [g], APOSTROPHE) == AllDelimited(groups, APOSTROPHE) + [Delimited(g, APOSTROPHE)];
    if groups != [] {
      JoinAppend(AllDelimited(groups, APOSTROPHE), Delimited(g, APOSTROPHE), ", ");
    }
  }

  lemma OneMoreGroup(query: string, list: string, literal: string)
    ensures query + " " + list + "," + " " + literal + "," == query + " " + (list + ", " + literal) + ","
  {}

  /** The loop that appends every group with a comma, and the trimming of the last comma. */
  method AppendGroups(query: string, groups: seq<string>) returns (r: string)
    requires groups != []
    ensures r == query + " " + GroupList(groups)
  {
    hide GroupList, Delimited;
    r := query;
    for i := 0 to |groups|
      invariant r == if i == 0 then query else query + " " + GroupList(groups[..i]) + ","
    {
      GroupListAppend(groups[..i], groups[i]);
      assert groups[..i + 1] == groups[..i] + [groups[i]];
      var literal := Delimited(groups[i], APOSTROPHE);
      r := r + " " + literal + ",";
      OneMoreGroup(query, GroupList(groups[..i]), literal);
    }
    assert groups[..|groups|] == groups;
    assert r == (query + " " + GroupList(groups)) + ",";
    r := TrimComma(r);
  }

  /** The groups read back in order, whatever follows that is neither a quote nor another group. */
  lemma GroupsReadBack(groups: seq<string>, z: string)
    requires groups != [] && !StartsWith(z, APOSTROPHE) && !(", " + [APOSTROPHE] <= z)
    ensures ReadList(GroupList(groups) + z, APOSTROPHE, ", ") == Some((groups, z))
  {
    ReadListBack(groups, z, APOSTROPHE, ", ");
  }

  // ---------------------------------------------------------------- CREATE ROLE

  datatype RoleParameters = RoleParameters(name: Name, ldapGroups: seq<string>, noGrantToCreator: bool,
                                           rolegroup: string)

  /** What stands after the LDAP clause. */
  function Options(p: RoleParameters): string {
    (if p.noGrantToCreator then " NO GRANT TO CREATOR" else "") +
    (if p.rolegroup != "" then " SET ROLEGROUP " + Quoted(p.rolegroup) else "")
  }

  function CreateText(p: RoleParameters): string {
    "CREATE ROLE " + (QualifiedName(p.name.schema, p.name.role) +
                      ((if p.ldapGroups == [] then "" else " LDAP GROUP " + GroupList(p.ldapGroups)) + Options(p)))
  }

  lemma Regroup(a: string, b: string, c: string, d: string, e: string)
    ensures a + b + c + d + e == a + (b + (c + (d + e)))
  {}

  lemma AppendNothing(s: string)
    ensures s + "" == s
  {}

  lemma ClauseIs(query: string, groups: seq<string>)
    ensures query + " LDAP GROUP" + " " + GroupList(groups) == query + (" LDAP GROUP " + GroupList(groups))
  {
    hide GroupList;
    assert " LDAP GROUP" + " " == " LDAP GROUP ";
  }

  lemma RolegroupIs(query: string, group: string)
    ensures query + " SET ROLEGROUP " + Quoted(group) == query + (" SET ROLEGROUP " + Quoted(group))
  {}

  /** Create, up to the execution of its statement. */
  method Create(p: RoleParameters) returns (query: string)
    ensures query == CreateText(p)
  {
    hide QualifiedName, GroupList, Delimited;
    ghost var clause := if p.ldapGroups == [] then "" else " LDAP GROUP " + GroupList(p.ldapGroups);
    ghost var created := if p.noGrantToCreator then " NO GRANT TO CREATOR" else "";
    ghost var group := if p.rolegroup != "" then " SET ROLEGROUP " + Quoted(p.rolegroup) else "";
    query := "CREATE ROLE " + QualifiedName(p.name.schema, p.name.role);
    ghost var start := query;
    AppendNothing(query);
    if |p.ldapGroups| > 0 {
      ClauseIs(query, p.ldapGroups);
      query := query + " LDAP GROUP";
      query := AppendGroups(query, p.ldapGroups);
    }
    assert query == start + clause;
    AppendNothing(query);
    if p.noGrantToCreator {
      query := query + " NO GRANT TO CREATOR";
    }
    assert query == start + clause + created;
    AppendNothing(query);
    if p.rolegroup != "" {
      RolegroupIs(query, p.rolegroup);
      query := query + " SET ROLEGROUP " + Quoted(p.rolegroup);
    }
    assert query == start + clause + created + group;
    Regroup("CREATE ROLE ", QualifiedName(p.name.schema, p.name.role), clause, created, group);
  }

  /** Reference reader of the rolegroup. */
  function ReadGroup(s: string): Option<string> {
    if s == "" then Some("")
    else if " SET ROLEGROUP " <= s then
      match ReadDelimited(s[|" SET ROLEGROUP "|..], QUOTE)
      case Some((group, more)) => if more == "" then Some(group) else None
      case None => None
    else None
  }

  /** Reference reader of the options. */
  function ReadOptions(s: string): Option<(bool, string)> {
    var noGrant := " NO GRANT TO CREATOR" <= s;
    match ReadGroup(if noGrant then s[|" NO GRANT TO CREATOR"|..] else s)
    case Some(group) => Some((noGrant, group))
    case None => None
  }

  /** Reference reader of a CREATE ROLE statement. */
  function ReadCreate(s: string): Option<RoleParameters> {
    if !("CREATE ROLE " <= s) then None
    else
      match ReadName(s[|"CREATE ROLE "|..])
      case None => None
      case Some((name, rest)) =>
        if " LDAP GROUP " <= rest then
          match ReadList(rest[|" LDAP GROUP "|..], APOSTROPHE, ", ")
          case None => None
          case Some((groups, more)) =>
            match ReadOptions(more)
            case None => None
            case Some((noGrant, rolegroup)) => Some(RoleParameters(name, groups, noGrant, rolegroup))
        else
          match ReadOptions(rest)
          case None => None
          case Some((noGrant, rolegroup)) => Some(RoleParameters(name, [], noGrant, rolegroup))
  }

  lemma StripPrefix(prefix: string, rest: string)
    ensures prefix <= prefix + rest && (prefix + rest)[|prefix|..] == rest
  {}

  lemma GroupReadsBack(rolegroup: string)
    ensures var group := if rolegroup != "" then " SET ROLEGROUP " + Quoted(rolegroup) else "";
            ReadGroup(group) == Some(rolegroup) && !(" NO GRANT TO CREATOR" <= group)
  {
    hide ReadDelimited, Delimited;
    var group := if rolegroup != "" then " SET ROLEGROUP " + Quoted(rolegroup) else "";
    StripPrefix(" SET ROLEGROUP ", Quoted(rolegroup));
    ReadDelimitedBack(rolegroup, "", QUOTE);
    assert Quoted(rolegroup) + "" == Quoted(rolegroup);
    assert rolegroup != "" ==> group[1] == 'S';
  }

  lemma OptionsReadBack(p: RoleParameters)
    ensures ReadOptions(Options(p)) == Some((p.noGrantToCreator, p.rolegroup))
  {
    hide ReadGroup, Delimited;
    var group := if p.rolegroup != "" then " SET ROLEGROUP " + Quoted(p.rolegroup) else "";
    StripPrefix(" NO GRANT TO CREATOR", group);
    GroupReadsBack(p.rolegroup);
    assert "" + group == group;
  }

  lemma OptionsStart(p: RoleParameters)
    ensures Options(p) == "" || (Options(p)[0] == ' ' && |Options(p)| > 1 && Options(p)[1] != 'L')
  {
    hide Delimited;
  }

  /** The whole statement reads back to the parameters it was built from. */
  lemma CreateReadsBack(p: RoleParameters)
    ensures ReadCreate(CreateText(p)) == Some(p)
  {
    hide QualifiedName, GroupList, ReadName, ReadList, ReadOptions, Options;
    var name, options := QualifiedName(p.name.schema, p.name.role), Options(p);
    var clause := if p.ldapGroups == [] then "" else " LDAP GROUP " + GroupList(p.ldapGroups);
    OptionsStart(p);
    OptionsReadBack(p);
    var rest := clause + options;
    StripPrefix("CREATE ROLE ", name + rest);
    assert rest == "" || rest[0] == ' ';
    NameReadsBack(p.name.schema, p.name.role, rest);
    if p.ldapGroups == [] {
      assert rest == options;
      assert !(" LDAP GROUP " <= rest) by {
        assert rest != "" ==> rest[1] != " LDAP GROUP "[1];
      }
    } else {
      assert rest == " LDAP GROUP " + (GroupList(p.ldapGroups) + options);
      StripPrefix(" LDAP GROUP ", GroupList(p.ldapGroups) + options);
      GroupsReadBack(p.ldapGroups, options);
    }
  }

  // ---------------------------------------------------------------- ALTER ROLE

  function AlterText(name: Name, verb: string, groups: seq<string>): string {
    "ALTER ROLE " + (QualifiedName(name.schema, name.role) + (verb + GroupList(groups)))
  }

  /** The statements of UpdateLdapGroups: groups are added first. */
  function AlterTexts(name: Name, toAdd: seq<string>, toRemove: seq<string>): seq<string> {
    (if toAdd == [] then [] else [AlterText(name, " ADD LDAP GROUP ", toAdd)]) +
    (if toRemove == [] then [] else [AlterText(name, " DROP LDAP GROUP ", toRemove)])
  }

  /** UpdateLdapGroups: `executed` are the statements that succeeded; the first failure ends it. */
  method UpdateLdapGroups(name: Name, toAdd: seq<string>, toRemove: seq<string>)
      returns (executed: seq<string>, ok: bool)
    ensures executed <= AlterTexts(name, toAdd, toRemove) && (ok <==> executed == AlterTexts(name, toAdd, toRemove))
  {
    hide QualifiedName, GroupList;
    executed, ok := [], true;
    var role := QualifiedName(name.schema, name.role);
    if |toAdd| > 0 {
      var query := "ALTER ROLE " + role + " ADD LDAP GROUP";
      query := AppendGroups(query, toAdd);
      assert " ADD LDAP GROUP" + " " == " ADD LDAP GROUP ";
      assert query == "ALTER ROLE " + (role + (" ADD LDAP GROUP " + GroupList(toAdd)));
      ok := *;
      if !ok {
        return;
      }
      executed := executed + [query];
    }
    if |toRemove| > 0 {
      var query := "ALTER ROLE " + role + " DROP LDAP GROUP";
      query := AppendGroups(query, toRemove);
      assert " DROP LDAP GROUP" + " " == " DROP LDAP GROUP ";
      assert query == "ALTER ROLE " + (role + (" DROP LDAP GROUP " + GroupList(toRemove)));
      ok := *;
      if ok {
        executed := executed + [query];
      }
    }
  }

  /** The role and the groups of an ALTER ROLE statement read back. */
  lemma AlterReadsBack(name: Name, verb: string, groups: seq<string>)
    requires groups != [] && verb != "" && verb[0] == ' '
    ensures var text := AlterText(name, verb, groups);
            && "ALTER ROLE " <= text
            && ReadName(text[|"ALTER ROLE "|..]) == Some((name, verb + GroupList(groups)))
            && ReadList((verb + GroupList(groups))[|verb|..], APOSTROPHE, ", ") == Some((groups, ""))
  {
    hide QualifiedName, GroupList, ReadName, ReadList;
    var rest := verb + GroupList(groups);
    StripPrefix("ALTER ROLE ", QualifiedName(name.schema, name.role) + rest);
    NameReadsBack(name.schema, name.role, rest);
    StripPrefix(verb, GroupList(groups));
    GroupsReadBack(groups, "");
    assert GroupList(groups) + "" == GroupList(groups);
  }
}
