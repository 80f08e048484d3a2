/** Role strings: their parser and printer, and the GRANT and REVOKE statements built from them. */
module Roles {
  import opened Strings
  import opened Quoting
  import opened Regexp
  import P = Privileges
  import opened Grammar
  import opened Tokens
  import opened Tails
  import opened Dotted

  datatype Role = Role(name: string, isGrantable: bool)

  /** A role of the database: its own name, and its schema if it has one. */
  datatype RoleKey = RoleKey(schema: Option<string>, name: string)

  /** The name under which QueryRoles reports a role. */
  function FullName(k: RoleKey): string {
    match k.schema
    case Some(schema) => schema + "." + k.name
    case None => k.name
  }

  datatype RoleError = UnknownRole | InvalidGrantOption

  function OptionText(r: Role): string {
    if r.isGrantable then " WITH ADMIN OPTION" else ""
  }

  /** Role.String. */
  function ToText(r: Role): string {
    Quoted(r.name) + OptionText(r)
  }

  const SECOND: Regex := Alt(Cat(P.DOT, P.IDENT), Eps)

  /** roleRegex. */
  const ROLE: seq<Regex> := [P.WS, Cat(P.IDENT, SECOND), P.OptionRe("ADMIN"), P.WS]

  /** parseRoleString. */
  function Parse(s: string): Result<Role, RoleError> {
    match Match(ROLE, s)
    case Some(m) => Ok(Role(m[1], m[2] != ""))
    case None => if P.HasOption(s, "GRANT") then Err(InvalidGrantOption) else Err(UnknownRole)
  }

  /** A parsed role with its name cleaned, as every caller of parseRoleString does. */
  function Read(s: string): Result<Role, RoleError> {
    match Parse(s)
    case Err(e) => Err(e)
    case Ok(r) => Ok(Role(Clean(r.name), r.isGrantable))
  }

  // ---------------------------------------------------------------- round trip

  ghost predicate RoleName(t: string) {
    IdentShape(t) || exists k | 0 <= k < |t| :: IdentShape(t[..k]) && t[k] == '.' && IdentShape(t[k + 1..])
  }

  lemma RoleNameElim(t: string)
    requires Lang(Cat(P.IDENT, SECOND), t)
    ensures RoleName(t)
  {
    hide Lang;
    var g, r := CatElim(P.IDENT, SECOND, t);
    IdentLang(g);
    if r == "" {
      assert t == g;
    } else {
      AltElim(r);
      var d, h := CatElim(P.DOT, P.IDENT, r);
      DotLang(d);
      IdentLang(h);
      assert t[..|g|] == g && t[|g|] == '.' && t[|g| + 1..] == h;
    }
  }

  lemma AltElim(r: string)
    requires Lang(SECOND, r) && r != ""
    ensures Lang(Cat(P.DOT, P.IDENT), r)
  {}

  lemma RoleNameEnds(t: string)
    requires RoleName(t)
    ensures t != "" && !IsSpace(t[0]) && EndsSolid(t)
  {
    if !IdentShape(t) {
      var k :| 0 <= k < |t| && IdentShape(t[..k]) && t[k] == '.' && IdentShape(t[k + 1..]);
      assert t[|t| - 1] == t[k + 1..][|t| - k - 2];
    }
  }

  ghost predicate RoleParts(m: seq<string>, s: string) {
    && |m| == 4
    && s == m[0] + m[1] + m[2] + m[3]
    && AllSpace(m[0]) && RoleName(m[1]) && Lang(P.OptionRe("ADMIN"), m[2]) && AllSpace(m[3])
  }

  lemma RoleMatchParts(s: string)
    requires Match(ROLE, s).Some?
    ensures RoleParts(Match(ROLE, s).value, s)
  {
    hide Lang, P.OptionRe, Match, RoleName;
    var m := Match(ROLE, s).value;
    MatchSound(ROLE, s);
    assert Lang(ROLE[0], m[0]) && Lang(ROLE[1], m[1]) && Lang(ROLE[2], m[2]) && Lang(ROLE[3], m[3]);
    Flat4(m);
    SpacesLang(m[0]);
    RoleNameElim(m[1]);
    SpacesLang(m[3]);
  }

  /** A role name does not swallow an option. */
  lemma NameNotOption(t: string, n: string)
    requires RoleName(t)
    ensures t != Quoted(n) + WithOption("ADMIN")
  {
    hide Quoted, WithOption, IdentShape;
    var x := Quoted(n);
    QuotedSolid(n);
    if IdentShape(t) {
      IdentNotOption(t, x);
    } else {
      var k :| 0 <= k < |t| && IdentShape(t[..k]) && t[k] == '.' && IdentShape(t[k + 1..]);
      assert t == t[..k] + "." + t[k + 1..];
      UpperId("ADMIN");
      DotNotInOption(t[..k], t[k + 1..], x, WithOption("ADMIN"), "ADMIN");
    }
  }

  lemma IdentNotOption(t: string, x: string)
    requires IdentShape(t)
    ensures t != x + WithOption("ADMIN")
  {
    hide WithOption;
    LastOfOption(x, "ADMIN");
    SpaceInOption(x);
  }

  lemma SpaceInOption(x: string)
    ensures !NoSpace(x + WithOption("ADMIN"))
  {
    var s := x + WithOption("ADMIN");
    assert s[|x|] == ' ';
  }

  /** A quoted text does not end in an option. */
  lemma QuotedNotOption(y: string, o: string, n: string)
    requires EndsSolid(y) && o != "" && Lang(P.OptionRe("ADMIN"), o)
    ensures y + o != Quoted(n)
  {
    hide Lang, P.OptionRe, Upper, Peel, Quoted;
    OptionPeel(y, o, "ADMIN");
    QuotedSolid(n);
    var t := LastToken(y + o);
    UpperKeeps(t);
    if y + o == Quoted(n) {
      LastInToken(y + o);
    }
  }

  lemma LastInToken(s: string)
    requires EndsSolid(s)
    ensures s[|s| - 1] in LastToken(s)
  {}

  lemma RoleUnique(m: seq<string>, n: string, o: string)
    requires RoleParts(m, Quoted(n) + o) && (o == "" || o == WithOption("ADMIN"))
    ensures m == ["", Quoted(n), o, ""]
  {
    hide Lang, P.OptionRe, RoleName, Quoted, WithOption, Upper;
    QuotedSolid(n);
    RoleNameEnds(m[1]);
    UpperId("ADMIN");
    assert m[0] + m[1] + m[2] + m[3] == Quoted(n) + o;
    EndUnique(m[0] + m[1], m[2], m[3], Quoted(n), o, "ADMIN");
    assert (Quoted(n) + o)[0] == QUOTE;
    assert m[0] == "";
    assert m[0] + m[1] == m[1];
    if m[2] != "" && o == "" {
      assert Quoted(n) + o == Quoted(n);
      QuotedNotOption(m[1], m[2], n);
    }
    if m[2] == "" && o != "" {
      assert m[1] + m[2] == m[1];
      NameNotOption(m[1], n);
    }
    assert m == [m[0], m[1], m[2], m[3]];
  }

  lemma RoleMatches(n: string, o: string)
    requires o == "" || o == WithOption("ADMIN")
    ensures Match(ROLE, Quoted(n) + o) == Some(["", Quoted(n), o, ""])
  {
    hide Lang, P.OptionRe, WithOption, Match, Upper, Quoted;
    SpacesLang("");
    QuotedSolid(n);
    IdentLang(Quoted(n));
    SecondEmpty();
    CatIntro(P.IDENT, SECOND, Quoted(n), "");
    assert Quoted(n) + "" == Quoted(n);
    UpperId("ADMIN");
    OptionIntro("ADMIN");
    Flat4(["", Quoted(n), o, ""]);
    assert "" + Quoted(n) + o + "" == Quoted(n) + o;
    MatchComplete(ROLE, ["", Quoted(n), o, ""], Quoted(n) + o);
    RoleMatchParts(Quoted(n) + o);
    RoleUnique(Match(ROLE, Quoted(n) + o).value, n, o);
  }

  lemma SecondEmpty()
    ensures Lang(SECOND, "")
  {}

  /** Every role, whatever its name and option, comes back from its printed text. */
  lemma RoleRoundTrip(r: Role)
    ensures Read(ToText(r)) == Ok(r)
  {
    hide Match, Quoted, Clean;
    assert WithOption("ADMIN") == " WITH ADMIN OPTION";
    RoleMatches(r.name, OptionText(r));
    QuotedIsQuoted(r.name);
  }

  /** The printed form determines the role. */
  lemma RoleTextInjective(r: Role, t: Role)
    requires ToText(r) == ToText(t)
    ensures r == t
  {
    hide Read, ToText;
    RoleRoundTrip(r);
    RoleRoundTrip(t);
  }

  // ---------------------------------------------------------------- lists

  function ReadAll(texts: seq<string>): Result<seq<Role>, RoleError> {
    if texts == [] then Ok([])
    else
      match Read(texts[0])
      case Err(e) => Err(e)
      case Ok(r) =>
        match ReadAll(texts[1..])
        case Err(e) => Err(e)
        case Ok(rs) => Ok([r] + rs)
  }

  function Texts(rs: seq<Role>): (r: seq<string>)
    ensures |r| == |rs| && forall i | 0 <= i < |rs| :: r[i] == ToText(rs[i])
  {
    seq(|rs|, i requires 0 <= i < |rs| => ToText(rs[i]))
  }

  /** FormatRoleStrings. */
  function Format(texts: seq<string>): Result<seq<string>, RoleError> {
    match ReadAll(texts)
    case Err(e) => Err(e)
    case Ok(rs) => Ok(Texts(rs))
  }

  lemma {:induction false} ReadAllTexts(rs: seq<Role>)
    ensures ReadAll(Texts(rs)) == Ok(rs)
  {
    hide Read, ToText;
    if rs != [] {
      RoleRoundTrip(rs[0]);
      ReadAllTexts(rs[1..]);
      assert Texts(rs)[1..] == Texts(rs[1..]);
      assert rs == [rs[0]] + rs[1..];
    }
  }

  /** FormatRoleStrings is idempotent on everything it accepts. */
  lemma FormatRolesIdempotent(texts: seq<string>)
    requires Format(texts).Ok?
    ensures Format(Format(texts).value) == Format(texts)
  {
    ReadAllTexts(ReadAll(texts).value);
  }

  lemma TailOfPrefix(texts: seq<string>, i: nat)
    requires 0 < i <= |texts|
    ensures texts[..i][1..] == texts[1..][..i - 1] && texts[..i][0] == texts[0]
  {}

  lemma {:induction false} ReadAllStep(texts: seq<string>, i: nat)
    requires i < |texts|
    ensures match ReadAll(texts[..i])
            case Err(e) => ReadAll(texts[..i + 1]) == Err(e)
            case Ok(rs) =>
              ReadAll(texts[..i + 1]) == match Read(texts[i]) case Err(e) => Err(e) case Ok(r) => Ok(rs + [r])
    decreases |texts|
  {
    hide Read;
    var t := texts[..i + 1];
    if i == 0 {
      assert t[1..] == [] && texts[..0] == [];
      if Read(texts[0]).Ok? {
        assert [Read(texts[0]).value] + [] == [] + [Read(texts[0]).value];
      }
    } else {
      TailOfPrefix(texts, i + 1);
      TailOfPrefix(texts, i);
      ReadAllStep(texts[1..], i - 1);
      if Read(texts[0]).Ok? && Read(texts[i]).Ok? && ReadAll(texts[1..][..i - 1]).Ok? {
        var p, q, ps := Read(texts[0]).value, Read(texts[i]).value, ReadAll(texts[1..][..i - 1]).value;
        assert [p] + ps + [q] == [p] + (ps + [q]);
      }
    }
  }

  lemma {:induction false} ReadAllError(texts: seq<string>, i: nat)
    requires i <= |texts| && ReadAll(texts[..i]).Err?
    ensures ReadAll(texts) == ReadAll(texts[..i])
    decreases |texts|
  {
    hide Read;
    if texts != [] && i != 0 {
      assert texts[..i][1..] == texts[1..][..i - 1];
      if Read(texts[0]).Ok? {
        ReadAllError(texts[1..], i - 1);
      }
    }
  }

  /** FormatRoleStrings as the loop of the source. */
  method FormatRoleStrings(texts: seq<string>) returns (r: Result<seq<string>, RoleError>)
    ensures r == Format(texts)
  {
    hide Read, ToText;
    var res: seq<string> := [];
    ghost var rs: seq<Role> := [];
    for i := 0 to |texts|
      invariant ReadAll(texts[..i]) == Ok(rs) && res == Texts(rs)
    {
      ReadAllStep(texts, i);
      match Read(texts[i])
      case Err(e) =>
        ReadAllError(texts, i + 1);
        return Err(e);
      case Ok(role) =>
        assert Texts(rs + [role]) == Texts(rs) + [ToText(role)];
        rs := rs + [role];
        res := res + [ToText(role)];
    }
    assert texts[..|texts|] == texts;
    return Ok(res);
  }

  // ---------------------------------------------------------------- statements

  function NamesWith(rs: seq<Role>, option: bool): seq<string> {
    if rs == [] then []
    else (if rs[0].isGrantable == option then [rs[0].name] else []) + NamesWith(rs[1..], option)
  }

  function Names(rs: seq<Role>): (r: seq<string>)
    ensures |r| == |rs| && forall i | 0 <= i < |rs| :: r[i] == rs[i].name
  {
    seq(|rs|, i requires 0 <= i < |rs| => rs[i].name)
  }

  function RoleList(names: seq<string>): string {
    Join(AllDelimited(names, QUOTE), ", ")
  }

  /** The statements of GrantRoles: roles without option first, then those with it. */
  function GrantStatements(rs: seq<Role>, grantee: string): seq<string> {
    var normal, admin := NamesWith(rs, false), NamesWith(rs, true);
    (if normal == [] then [] else ["GRANT " + RoleList(normal) + " TO " + grantee]) +
    (if admin == [] then [] else ["GRANT " + RoleList(admin) + " TO " + grantee + " WITH ADMIN OPTION"])
  }

  lemma NamesWithFirst(rs: seq<Role>, option: bool)
    requires rs != []
    ensures NamesWith(rs, option) ==
            (if rs[0].isGrantable == option then [rs[0].name] else []) + NamesWith(rs[1..], option)
  {}

  lemma {:induction false} NamesWithAppend(rs: seq<Role>, r: Role, option: bool)
    ensures NamesWith(rs + [r], option) == NamesWith(rs, option) + (if r.isGrantable == option then [r.name] else [])
    decreases |rs|
  {
    if rs == [] {
      assert rs + [r] == [r] && [r][1..] == [];
      assert NamesWith([], option) == [];
    } else {
      hide NamesWith;
      NamesWithAppend(rs[1..], r, option);
      NamesWithFirst(rs, option);
      NamesWithFirst(rs + [r], option);
      assert (rs + [r])[1..] == rs[1..] + [r];
    }
  }

  lemma AllDelimitedAppend(names: seq<string>, n: string)
    ensures AllDelimited(names + [n], QUOTE) == AllDelimited(names, QUOTE) + [Delimited(n, QUOTE)]
  {}

  /** GrantRoles up to the execution of its statements. */
  method GrantRoles(grantee: string, texts: seq<string>) returns (r: Result<seq<string>, RoleError>)
    ensures r == match ReadAll(texts) case Err(e) => Err(e) case Ok(rs) => Ok(GrantStatements(rs, grantee))
  {
    hide Read, Delimited;
    if texts == [] {
      assert GrantStatements([], grantee) == [];
      return Ok([]);
    }
    var adminRoles: seq<string> := [];
    var normalRoles: seq<string> := [];
    ghost var rs: seq<Role> := [];
    for i := 0 to |texts|
      invariant ReadAll(texts[..i]) == Ok(rs)
      invariant adminRoles == AllDelimited(NamesWith(rs, true), QUOTE)
      invariant normalRoles == AllDelimited(NamesWith(rs, false), QUOTE)
    {
      ReadAllStep(texts, i);
      match Read(texts[i])
      case Err(e) =>
        ReadAllError(texts, i + 1);
        return Err(e);
      case Ok(role) =>
        NamesWithAppend(rs, role, true);
        NamesWithAppend(rs, role, false);
        AllDelimitedAppend(NamesWith(rs, role.isGrantable), role.name);
        rs := rs + [role];
        if role.isGrantable {
          adminRoles := adminRoles + [Quoted(role.name)];
        } else {
          normalRoles := normalRoles + [Quoted(role.name)];
        }
    }
    assert texts[..|texts|] == texts;
    assert |normalRoles| == |NamesWith(rs, false)| && |adminRoles| == |NamesWith(rs, true)|;
    var queries: seq<string> := [];
    if |normalRoles| > 0 {
      queries := queries + ["GRANT " + Join(normalRoles, ", ") + " TO " + grantee];
    }
    if |adminRoles| > 0 {
      queries := queries + ["GRANT " + Join(adminRoles, ", ") + " TO " + grantee + " WITH ADMIN OPTION"];
    }
    assert queries == GrantStatements(rs, grantee);
    return Ok(queries);
  }

  /** A GRANT or REVOKE statement over a list of roles, read back: the list after the verb, and the rest. */
  function ReadStatement(statement: string, verb: string): Option<(seq<string>, string)> {
    if verb <= statement then ReadList(statement[|verb|..], QUOTE, ", ") else None
  }

  lemma StatementReadsBack(verb: string, names: seq<string>, rest: string)
    requires names != [] && rest != "" && rest[0] == ' '
    ensures ReadStatement(verb + RoleList(names) + rest, verb) == Some((names, rest))
  {
    var s := verb + RoleList(names) + rest;
    assert s[|verb|..] == RoleList(names) + rest;
    ReadListBack(names, rest, QUOTE, ", ");
  }

  /** The text of GrantRoles names exactly the requested roles, in order, those without option in the first statement
      and those with it in the last, whatever characters their names contain. */
  lemma GrantReadsBack(rs: seq<Role>, grantee: string)
    ensures var ss, normal, admin := GrantStatements(rs, grantee), NamesWith(rs, false), NamesWith(rs, true);
            && |ss| == (if normal == [] then 0 else 1) + (if admin == [] then 0 else 1)
            && (normal != [] ==> ReadStatement(ss[0], "GRANT ") == Some((normal, " TO " + grantee)))
            && (admin != [] ==>
               ReadStatement(ss[|ss| - 1], "GRANT ") == Some((admin, " TO " + grantee + " WITH ADMIN OPTION")))
  {
    hide ReadStatement, RoleList;
    var normal, admin := NamesWith(rs, false), NamesWith(rs, true);
    if normal != [] {
      var rest := " TO " + grantee;
      StatementReadsBack("GRANT ", normal, rest);
      assert "GRANT " + RoleList(normal) + " TO " + grantee == "GRANT " + RoleList(normal) + rest;
    }
    if admin != [] {
      var rest := " TO " + grantee + " WITH ADMIN OPTION";
      StatementReadsBack("GRANT ", admin, rest);
      assert "GRANT " + RoleList(admin) + " TO " + grantee + " WITH ADMIN OPTION" == "GRANT " + RoleList(admin) + rest;
    }
  }

  function RevokeStatement(rs: seq<Role>, grantee: string): string {
    "REVOKE " + RoleList(Names(rs)) + " FROM " + grantee
  }

  /** RevokeRoles up to the execution of its statement. */
  method RevokeRoles(grantee: string, texts: seq<string>) returns (r: Result<seq<string>, RoleError>)
    ensures r == match ReadAll(texts)
                 case Err(e) => Err(e)
                 case Ok(rs) => Ok(if texts == [] then [] else [RevokeStatement(rs, grantee)])
  {
    hide Read, Delimited;
    if texts == [] {
      return Ok([]);
    }
    var names: seq<string> := [];
    ghost var rs: seq<Role> := [];
    for i := 0 to |texts|
      invariant ReadAll(texts[..i]) == Ok(rs)
      invariant names == AllDelimited(Names(rs), QUOTE)
    {
      ReadAllStep(texts, i);
      match Read(texts[i])
      case Err(e) =>
        ReadAllError(texts, i + 1);
        return Err(e);
      case Ok(role) =>
        assert Names(rs + [role]) == Names(rs) + [role.name];
        AllDelimitedAppend(Names(rs), role.name);
        rs := rs + [role];
        names := names + [Quoted(role.name)];
    }
    assert texts[..|texts|] == texts;
    return Ok(["REVOKE " + Join(names, ", ") + " FROM " + grantee]);
  }

  /** The text of RevokeRoles names exactly the requested roles, in order. */
  lemma RevokeReadsBack(rs: seq<Role>, grantee: string)
    requires rs != []
    ensures ReadStatement(RevokeStatement(rs, grantee), "REVOKE ") == Some((Names(rs), " FROM " + grantee))
  {
    hide ReadStatement, RoleList;
    StatementReadsBack("REVOKE ", Names(rs), " FROM " + grantee);
    assert "REVOKE " + RoleList(Names(rs)) + " FROM " + grantee ==
        "REVOKE " + RoleList(Names(rs)) + (" FROM " + grantee);
  }
}
