/** Role strings and the roles they name: a delimited name qualified by a schema is not read as such, and a role of a
    schema is reported like a role without one. */
module RoleNames {
  import opened Strings
  import opened Quoting
  import opened Regexp
  import opened Grammar
  import opened Tails
  import opened Dotted
  import opened Tokens
  import opened SystemNames
  import opened Spelling
  import opened Readings
  import P = Privileges
  import opened Roles
  import opened RoleClient
  import opened Grants
  import opened UserModel
  import opened UserConvergence

  // ---------------------------------------------------------------- reading qualified names

  lemma {:induction false} UnescapeAfter(s: string, x: string, q: char)
    ensures Unescape(Escape(s, q) + x, q) == s + Unescape(x, q)
  {
    var t := Escape(s, q) + x;
    if s == "" {
      assert t == x && s + Unescape(x, q) == Unescape(x, q);
    } else {
      UnescapeAfter(s[1..], x, q);
      var rest := Escape(s[1..], q) + x;
      EscapeFirst(s, x, q);
      assert Unescape(t, q) == [s[0]] + Unescape(rest, q);
      assert [s[0]] + (s[1..] + Unescape(x, q)) == s + Unescape(x, q);
    }
  }

  lemma {:induction false} EscapeFirst(s: string, x: string, q: char)
    requires s != ""
    ensures var t, rest := Escape(s, q) + x, Escape(s[1..], q) + x;
            if s[0] == q then |t| >= 2 && t[0] == q && t[1] == q && t[2..] == rest
                else t != "" && t[0] == s[0] && t[1..] == rest
  {
    var e := Escape(s[1..], q);
    var head := if s[0] == q then [q, q] else [s[0]];
    assert Escape(s, q) + x == head + (e + x);
  }

  lemma {:induction false} UnescapeOdd(s: string, q: char)
    ensures |Unescape([q] + Escape(s, q), q)| == |s| + 1
  {
    var t := [q] + Escape(s, q);
    if s == "" {
      assert t == [q] && t[1..] == "";
    } else if s[0] == q {
      var rest := [q] + Escape(s[1..], q);
      assert t == [q, q] + rest && t[2..] == rest;
      UnescapeOdd(s[1..], q);
    } else {
      assert t[1..] == Escape(s, q) && Escape(s, q)[0] == s[0];
      UnescapeEscape(s, q);
    }
  }

  /** What is left of a qualified name when its outer quotes are taken away: two characters too many. */
  lemma CleanQualified(schema: string, role: string)
    ensures |Clean(Quoted(schema) + "." + Quoted(role))| == |schema| + |role| + 3
  {
    hide Escape, Unescape;
    var es, er := Escape(schema, QUOTE), Escape(role, QUOTE);
    var t := Quoted(schema) + "." + Quoted(role);
    var rest := [QUOTE] + ("." + ([QUOTE] + er));
    OuterQuotes(es, er);
    UnescapeAfter(schema, rest, QUOTE);
    UnescapeOdd(role, QUOTE);
    UnescapeDot([QUOTE] + er);
  }

  lemma OuterQuotes(a: string, b: string)
    ensures var t := [QUOTE] + a + [QUOTE] + "." + ([QUOTE] + b + [QUOTE]);
            |t| >= 2 && t[0] == QUOTE == t[|t| - 1] && t[1..|t| - 1] == a + ([QUOTE] + ("." + ([QUOTE] + b)))
  {}

  lemma UnescapeDot(x: string)
    ensures Unescape([QUOTE] + ("." + x), QUOTE) == [QUOTE] + ("." + Unescape(x, QUOTE))
  {
    var t := [QUOTE] + ("." + x);
    assert t[1..] == "." + x && t[1] == '.';
    assert ("." + x)[1..] == x;
  }

  lemma QualifiedMatches(schema: string, role: string)
    ensures var t := Quoted(schema) + "." + Quoted(role); Match(ROLE, t) == Some(["", t, "", ""])
  {
    hide Lang, P.OptionRe, Match, Upper, Quoted;
    var t := Quoted(schema) + "." + Quoted(role);
    QuotedSolid(schema);
    QuotedSolid(role);
    IdentLang(Quoted(schema));
    IdentLang(Quoted(role));
    DotLang(".");
    CatIntro(P.DOT, P.IDENT, ".", Quoted(role));
    SecondIntro("." + Quoted(role));
    CatIntro(P.IDENT, SECOND, Quoted(schema), "." + Quoted(role));
    assert Quoted(schema) + ("." + Quoted(role)) == t;
    SpacesLang("");
    UpperId("ADMIN");
    OptionIntro("ADMIN");
    Flat4(["", t, "", ""]);
    assert "" + t + "" + "" == t;
    MatchComplete(ROLE, ["", t, "", ""], t);
    RoleMatchParts(t);
    QualifiedUnique(t, Match(ROLE, t).value);
  }

  lemma SecondIntro(r: string)
    requires Lang(Cat(P.DOT, P.IDENT), r)
    ensures Lang(SECOND, r)
  {}

  lemma QualifiedUnique(t: string, m: seq<string>)
    requires RoleParts(m, t) && t != "" && t[0] == QUOTE == t[|t| - 1]
    ensures m == ["", t, "", ""]
  {
    hide Lang, P.OptionRe, RoleName, Upper;
    RoleNameEnds(m[1]);
    if m[2] != "" {
      OptionEnds(m[2]);
    }
    assert m == [m[0], m[1], m[2], m[3]];
    assert t == m[1];
  }

  lemma OptionEnds(o: string)
    requires o != "" && Lang(P.OptionRe("ADMIN"), o)
    ensures o[|o| - 1] != QUOTE
  {
    hide Lang;
    var s1, a, s2, b, s3, c := OptionElim("ADMIN", o);
    assert Upper(c) == "OPTION";
    assert UpperChar(c[5]) == 'N';
    assert o[|o| - 1] == c[5];
  }

  /** The role a delimited name means. */
  function RoleNamed(schema: string, role: string): RoleKey {
    RoleKey(if schema == "" then None else Some(schema), role)
  }

  /** FormatRoleStrings takes a delimited name for the name of the role it means exactly when it is not qualified. */
  lemma DelimitedRoleIff(schema: string, role: string)
    ensures Read(QualifiedName(schema, role)) == Ok(Role(FullName(RoleNamed(schema, role)), false)) <==> schema == ""
  {
    hide Match, Quoted, Clean;
    if schema == "" {
      RoleRoundTrip(Role(role, false));
      assert Quoted(role) + "" == Quoted(role);
    } else {
      QualifiedMatches(schema, role);
      CleanQualified(schema, role);
    }
  }

  /** A bare name, with or without a dot, is taken for the role without schema that has the whole text as its name:
      `S.R` is printed like the role `R` of the schema `S` is reported, and its statement names another role. */
  lemma BareRole(t: string)
    requires t != "" && NoSpace(t) && t[0] != QUOTE
    ensures Read(t) == Ok(Role(t, false)) && ReadEntries({t}) == {Entry(RoleKey(None, t), false)}
  {
    hide Match;
    BareMatches(t);
    assert ReadEntries({t}) == {RoleEntry(Role(t, false))};
  }

  lemma BareMatches(t: string)
    requires t != "" && NoSpace(t)
    ensures Match(ROLE, t) == Some(["", t, "", ""])
  {
    hide Lang, P.OptionRe, Match, Upper;
    IdentLang(t);
    SecondEmpty();
    CatIntro(P.IDENT, SECOND, t, "");
    assert t + "" == t;
    SpacesLang("");
    UpperId("ADMIN");
    OptionIntro("ADMIN");
    Flat4(["", t, "", ""]);
    assert "" + t + "" + "" == t;
    MatchComplete(ROLE, ["", t, "", ""], t);
    RoleMatchParts(t);
    BareUnique(t, Match(ROLE, t).value);
  }

  lemma BareUnique(t: string, m: seq<string>)
    requires RoleParts(m, t) && NoSpace(t)
    ensures m == ["", t, "", ""]
  {
    hide Lang, P.OptionRe, RoleName, Upper;
    SolidPart("", m[0], m[1] + m[2] + m[3], t);
    SolidPart(m[0] + m[1], m[2], m[3], t);
    SolidPart(m[0] + m[1] + m[2], m[3], "", t);
    if m[2] != "" {
      OptionSpaced(m[2]);
    }
    if m[0] != "" {
      SpacesSpaced(m[0]);
    }
    if m[3] != "" {
      SpacesSpaced(m[3]);
    }
    assert m == [m[0], m[1], m[2], m[3]];
    assert t == m[1];
  }

  lemma SolidPart(u: string, v: string, w: string, t: string)
    requires t == u + v + w && NoSpace(t)
    ensures NoSpace(v)
  {
    forall i | 0 <= i < |v|
      ensures !IsSpace(v[i])
    {
      assert v[i] == t[|u| + i];
    }
  }

  lemma SpacesSpaced(v: string)
    requires AllSpace(v) && v != ""
    ensures !NoSpace(v)
  {
    assert IsSpace(v[0]);
  }

  lemma OptionSpaced(o: string)
    requires o != "" && Lang(P.OptionRe("ADMIN"), o)
    ensures !NoSpace(o)
  {
    hide Lang, P.OptionRe, Upper;
    var s1, a, s2, b, s3, c := OptionElim("ADMIN", o);
    assert o[0] == s1[0];
  }

  // ---------------------------------------------------------------- any white space, any case

  /** The parts of a role string as it may be written. */
  ghost predicate RoleSpelled(m: seq<string>, s: string) {
    && |m| == 4 && s == m[0] + m[1] + m[2] + m[3]
    && AllSpace(m[0]) && RoleName(m[1]) && OptionSpelled("ADMIN", m[2]) && AllSpace(m[3])
  }

  lemma RoleNameIntro(t: string)
    requires RoleName(t)
    ensures Lang(Cat(P.IDENT, SECOND), t)
  {
    hide Lang, IdentShape;
    if IdentShape(t) {
      IdentLang(t);
      SecondEmpty();
      CatIntro(P.IDENT, SECOND, t, "");
      assert t + "" == t;
    } else {
      var k :| 0 <= k < |t| && IdentShape(t[..k]) && t[k] == '.' && IdentShape(t[k + 1..]);
      IdentLang(t[..k]);
      IdentLang(t[k + 1..]);
      DotLang(".");
      CatIntro(P.DOT, P.IDENT, ".", t[k + 1..]);
      SecondIntro("." + t[k + 1..]);
      CatIntro(P.IDENT, SECOND, t[..k], "." + t[k + 1..]);
      assert t == t[..k] + ("." + t[k + 1..]);
    }
  }

  /** Exactly which role strings are accepted, and which error the others get. */
  lemma RoleAcceptedIff(s: string)
    ensures Read(s).Ok? <==> exists m :: RoleSpelled(m, s)
    ensures Read(s) == Err(InvalidGrantOption) <==> !(exists m :: RoleSpelled(m, s)) && P.HasOption(s, "GRANT")
  {
    hide Match, RoleName, OptionSpelled, P.HasOption, Clean;
    if Match(ROLE, s).Some? {
      RoleMatchParts(s);
      OptionLang("ADMIN", Match(ROLE, s).value[2]);
      assert RoleSpelled(Match(ROLE, s).value, s);
    }
    if m :| RoleSpelled(m, s) {
      RoleFits(m, s);
    }
  }

  lemma RoleFits(m: seq<string>, s: string)
    requires RoleSpelled(m, s)
    ensures Match(ROLE, s).Some?
  {
    hide Lang, P.OptionRe, Match, RoleName, OptionSpelled;
    SpacesLang(m[0]);
    RoleNameIntro(m[1]);
    OptionLang("ADMIN", m[2]);
    SpacesLang(m[3]);
    Flat4(m);
    assert Lang(ROLE[0], m[0]) && Lang(ROLE[1], m[1]) && Lang(ROLE[2], m[2]) && Lang(ROLE[3], m[3]);
    MatchComplete(ROLE, m, s);
  }

  lemma IdentIsNoOption(t: string, x: string, o: string)
    requires IdentShape(t) && EndsSolid(x) && o != "" && Lang(P.OptionRe("ADMIN"), o)
    ensures t != x + o
  {
    hide Lang, P.OptionRe, IsBody;
    GrantIsToken();
    OptionEndsInN(x, o, "ADMIN");
    if t == x + o {
      OptionSpaced(o);
      SolidPart(x, o, "", t);
    }
  }

  /** A role name does not swallow an option. */
  lemma NameIsNoOption(t: string, x: string, o: string)
    requires RoleName(t) && EndsSolid(x) && o != "" && Lang(P.OptionRe("ADMIN"), o)
    ensures t != x + o
  {
    hide Lang, P.OptionRe, IsBody, IdentShape, EndsSolid;
    GrantIsToken();
    if IdentShape(t) {
      IdentIsNoOption(t, x, o);
    } else {
      var k :| 0 <= k < |t| && IdentShape(t[..k]) && t[k] == '.' && IdentShape(t[k + 1..]);
      assert t == t[..k] + "." + t[k + 1..];
      DotNotInAnyOption(t[..k], t[k + 1..], x, o, "ADMIN");
    }
  }

  /** A spelled role string with a delimited name, or one without white space, is taken apart in one way only. */
  lemma RoleAlike(m0: seq<string>, m: seq<string>, s: string)
    requires RoleParts(m0, s) && RoleSpelled(m, s) && PrintedIdent(m[1])
    ensures m0 == m
  {
    hide Lang, P.OptionRe, RoleName, OptionSpelled, IdentShape;
    OptionLang("ADMIN", m[2]);
    RoleNameEnds(m0[1]);
    GrantIsToken();
    EndsAlike(m0[0] + m0[1], m0[2], m0[3], m[0] + m[1], m[2], m[3], "ADMIN");
    IdentStarts(m[1]);
    Regrouped(m0[0], m0[1], m0[2]);
    Regrouped(m[0], m[1], m[2]);
    LeadingAlike(m0[0], m0[1] + m0[2], m[0], m[1] + m[2]);
    if m0[2] != "" && m[2] == "" {
      assert m[1] + "" == m[1];
      NoOptionInside(m0[1], m0[2], m[1]);
    }
    if m0[2] == "" && m[2] != "" {
      assert m0[1] + "" == m0[1];
      NameIsNoOption(m0[1], m[1], m[2]);
    }
    assert m0[1] == (m0[0] + m0[1])[|m0[0]|..] && m[1] == (m[0] + m[1])[|m[0]|..];
    assert m0 == [m0[0], m0[1], m0[2], m0[3]] && m == [m[0], m[1], m[2], m[3]];
  }

  lemma IdentStarts(g: string)
    requires PrintedIdent(g)
    ensures g != "" && !IsSpace(g[0])
  {}

  lemma NoOptionInside(y: string, o: string, g: string)
    requires EndsSolid(y) && o != "" && Lang(P.OptionRe("ADMIN"), o) && PrintedIdent(g)
    ensures y + o != g
  {
    hide Lang, P.OptionRe, IdentShape;
    if y + o == g {
      GrantIsToken();
      OptionEndsInN(y, o, "ADMIN");
      OptionSpaced(o);
      if NoSpace(g) {
        SolidPart(y, o, "", g);
      }
    }
  }

  /** A role string is read as spelled: its name cleaned, and the option if there is one, whatever the white space and
      the case of the option. */
  lemma ReadRole(m: seq<string>, s: string)
    requires RoleSpelled(m, s) && PrintedIdent(m[1])
    ensures Read(s) == Ok(Role(Clean(m[1]), m[2] != ""))
  {
    hide Match, RoleName, OptionSpelled, PrintedIdent, Clean, RoleParts;
    RoleFits(m, s);
    RoleMatchParts(s);
    RoleAlike(Match(ROLE, s).value, m, s);
  }

  // ---------------------------------------------------------------- reporting

  /** A role of a schema and the role without schema of the joined name are reported alike, and the statements for this
      string name the second one. */
  lemma JoinedNameIsOther(schema: string, role: string, g: bool)
    ensures var mine, other := Entry(RoleKey(Some(schema), role), g), Entry(RoleKey(None, schema + "." + role), g);
            && mine != other && RoleText(mine) == RoleText(other)
            && ReadEntries({RoleText(mine)}) == {other}
  {
    hide ToText, Read;
    var mine, other := Entry(RoleKey(Some(schema), role), g), Entry(RoleKey(None, schema + "." + role), g);
    RoleRoundTrip(Role(schema + "." + role, g));
    assert ReadEntries({RoleText(mine)}) == {RoleEntry(Role(schema + "." + role, g))};
  }

  lemma SingleEntry<K>(k: K, g: bool)
    ensures Entries(map[k := g]) == {Entry(k, g)}
  {
    var db := map[k := g];
    assert k in db && db[k] == g;
    assert Entry(k, g) in Entries(db);
  }

  /** A user who holds only a role of a schema, where only the role of the joined name is wanted: it looks met, and it
      is not. */
  lemma LooksMetIsNot(s: State, schema: string, role: string, g: bool)
    requires s.account.roles == map[RoleKey(Some(schema), role) := g] &&
             WantedRoles(s.spec) == {Entry(schema + "." + role, g)}
    ensures Joined(Entries(s.account.roles)) == WantedRoles(s.spec) && !Met(s)
  {
    hide WantedRoles, WantedPrivileges, OtherwiseMet;
    var e := Entry(RoleKey(Some(schema), role), g);
    SingleEntry(e.key, g);
    assert Joined({e}) == {Entry(FullName(e.key), e.option)};
    assert e !in Schemaless(WantedRoles(s.spec));
  }
}
