/** Parsing undoes printing: exactly which privileges survive the trip through their canonical text. */
module RoundTrip {
  import opened Strings
  import opened Quoting
  import opened Regexp
  import opened Privileges
  import opened Grammar
  import opened Tails
  import opened Matching
  import opened Dotted
  import opened SystemNames

  /** A name that can be printed without quotes. */
  predicate Bare(n: string) {
    n != "" && NoSpace(n) && !(|n| >= 2 && n[0] == QUOTE && n[|n| - 1] == QUOTE)
  }

  /** The text can be split by the pattern, in whatever way. */
  ghost predicate Matches(id: PatternId, s: string) {
    exists m :: Splits(Expr(id), m, s)
  }

  lemma MatchesIff(id: PatternId, s: string)
    ensures Matches(id, s) <==> Match(Expr(id), s).Some?
  {
    MatchIff(Expr(id), s);
  }

  ghost predicate CanonicalSystem(p: Privilege) {
    && p.identifier == "" && p.subIdentifier == "" && SystemShape(p.name)
    && (forall id: PatternId | id != OfSystem :: !Matches(id, ToText(p)))
    && !HasOn(ToText(p)) && !HasOption(ToText(p), "GRANT")
    && (if p.isGrantable then |p.name| > 1 else !HidesOption(p.name))
  }

  /** The privileges that the printer and the parser agree on. */
  ghost predicate Canonical(p: Privilege, defaultSchema: string) {
    match p.kind
    case Source => NameShape(p.name) && p.subIdentifier == ""
    case Schema => NameShape(p.name) && p.subIdentifier == ""
    case UserGroup => p.name == "USERGROUP OPERATOR" && p.subIdentifier == ""
    case ColumnKey => p.name == "USAGE" && p.subIdentifier == "" && Bare(p.identifier)
    case Structured => p.name == "STRUCTURED PRIVILEGE" && p.subIdentifier == "" && Bare(p.identifier)
    case Object =>
      NameShape(p.name) &&
      (p.subIdentifier != "" ||
       match SpecialPrefix(p.identifier)
       case Some(k) => Bare(p.identifier[|k|..])
       case None => p.identifier == "" && defaultSchema == "")
    case System => CanonicalSystem(p)
  }

  // ---------------------------------------------------------------- canonical texts parse back

  lemma Clause0()
    ensures ClauseText([]) == " ON "
  {}

  lemma Clause1(a: string)
    ensures ClauseText([a]) == " ON " + a + " "
  {
    assert [a][..0] == [];
  }

  lemma Clause2(a: string, b: string)
    ensures ClauseText([a, b]) == " ON " + a + " " + b + " "
  {
    Clause1(a);
    assert [a, b][..1] == [a];
  }

  lemma Clause4(a: string, b: string, c: string, d: string)
    ensures ClauseText([a, b, c, d]) == " ON " + a + " " + b + " " + c + " " + d + " "
  {
    Clause2(a, b);
    assert [a, b, c][..2] == [a, b];
    assert [a, b, c, d][..3] == [a, b, c];
  }

  /** The printed clause of each pattern. */
  function Clause(id: PatternId): string {
    match id
    case OnUserGroup => " ON USERGROUP "
    case OnColumnKey => " ON CLIENTSIDE ENCRYPTION COLUMN KEY "
    case OnPse => " ON PSE "
    case OnJwt => " ON JWT PROVIDER "
    case OnSaml => " ON SAML PROVIDER "
    case OnX509 => " ON X509 PROVIDER "
    case OnSource => " ON REMOTE SOURCE "
    case OnSchema => " ON SCHEMA "
    case _ => " ON "
  }

  lemma ClauseIs(id: PatternId)
    ensures ClauseText(Keywords(id)) == Clause(id)
  {
    hide ClauseText;
    match id
    case OnUserGroup =>
      Clause1("USERGROUP");
      OneWordLiterals();
    case OnColumnKey =>
      Clause4("CLIENTSIDE", "ENCRYPTION", "COLUMN", "KEY");
      ColumnKeyLiteral();
    case OnPse =>
      Clause1("PSE");
      OneWordLiterals();
    case OnJwt =>
      Clause2("JWT", "PROVIDER");
      ProviderLiterals();
    case OnSaml =>
      Clause2("SAML", "PROVIDER");
      ProviderLiterals();
    case OnX509 =>
      Clause2("X509", "PROVIDER");
      ProviderLiterals();
    case OnSource =>
      Clause2("REMOTE", "SOURCE");
      OneWordLiterals();
    case OnSchema =>
      Clause1("SCHEMA");
      OneWordLiterals();
    case _ => Clause0();
  }

  lemma OneWordLiterals()
    ensures " ON " + "USERGROUP" + " " == " ON USERGROUP "
    ensures " ON " + "PSE" + " " == " ON PSE "
    ensures " ON " + "SCHEMA" + " " == " ON SCHEMA "
    ensures " ON " + "REMOTE" + " " + "SOURCE" + " " == " ON REMOTE SOURCE "
  {}

  lemma ProviderLiterals()
    ensures " ON " + "JWT" + " " + "PROVIDER" + " " == " ON JWT PROVIDER "
    ensures " ON " + "SAML" + " " + "PROVIDER" + " " == " ON SAML PROVIDER "
    ensures " ON " + "X509" + " " + "PROVIDER" + " " == " ON X509 PROVIDER "
  {}

  lemma ColumnKeyLiteral()
    ensures " ON " + "CLIENTSIDE" + " " + "ENCRYPTION" + " " + "COLUMN" + " " + "KEY" + " " ==
            " ON CLIENTSIDE ENCRYPTION COLUMN KEY "
  {
    assert " ON " + "CLIENTSIDE" + " " == " ON CLIENTSIDE ";
    assert " ON CLIENTSIDE " + "ENCRYPTION" + " " == " ON CLIENTSIDE ENCRYPTION ";
    assert " ON CLIENTSIDE ENCRYPTION " + "COLUMN" + " " == " ON CLIENTSIDE ENCRYPTION COLUMN ";
  }

  lemma ParseBy(s: string, id: PatternId, m: seq<string>, d: string)
    requires FirstMatch(PATTERNS, s) == Some((id, m)) && id != OfSystem
    ensures Parse(s, d) == Ok(Build(id, m, d))
  {
    hide FirstMatch, HasOn, HasOption;
  }

  lemma EarlierFail(k: nat, n: string, q: string, o: string)
    requires k < |PATTERNS| && Targeted(PATTERNS[k]) && SolidName(n) && PrintedIdent(q)
    requires o == "" || o == WithOption("GRANT")
    ensures forall i | 0 <= i < k && Targeted(PATTERNS[i]) ::
              Match(Expr(PATTERNS[i]), n + ClauseText(Keywords(PATTERNS[k])) + q + o).None?
  {
    hide ClauseText, WithOption, Match, Expr, Keywords, IdentShape, SolidName;
    forall i | 0 <= i < k && Targeted(PATTERNS[i])
      ensures Match(Expr(PATTERNS[i]), n + ClauseText(Keywords(PATTERNS[k])) + q + o).None?
    {
      if Keywords(PATTERNS[i]) == Keywords(PATTERNS[k]) {
        KeywordsDistinct(PATTERNS[i], PATTERNS[k]);
      }
      KeywordsProper(PATTERNS[k]);
      OthersFail(PATTERNS[i], n, Keywords(PATTERNS[k]), q, o);
    }
  }

  lemma EarlyTargeted(k: nat)
    requires k < 8
    ensures |PATTERNS| == 12 && PATTERNS[k] != OfSystem && forall i | 0 <= i <= k :: Targeted(PATTERNS[i])
  {}

  /** The parser reads a text with a clause by the pattern of its keywords. */
  lemma ParseTargeted(k: nat, n: string, q: string, o: string, d: string)
    requires k < 8 && Lang(NameRe(PATTERNS[k]), n) && PrintedIdent(q)
    requires o == "" || o == WithOption("GRANT")
    ensures Parse(n + Clause(PATTERNS[k]) + q + o, d) ==
            Ok(Build(PATTERNS[k], ["", n, Clause(PATTERNS[k]), q, o, ""], d))
  {
    hide Lang, ClauseText, WithOption, NameRe, Match, Expr, Build, Parse, Keywords, Clause, PATTERNS;
    EarlyTargeted(k);
    ClauseIs(PATTERNS[k]);
    TargetedName(PATTERNS[k], n);
    OwnMatch(PATTERNS[k], n, q, o);
    EarlierFail(k, n, q, o);
    var s := n + Clause(PATTERNS[k]) + q + o;
    FirstMatchAt(PATTERNS, k, s);
    ParseBy(s, PATTERNS[k], Match(Expr(PATTERNS[k]), s).value, d);
  }

  lemma OptionLiterals()
    ensures WithOption("GRANT") == " WITH GRANT OPTION" && WithOption("ADMIN") == " WITH ADMIN OPTION"
  {}

  lemma OptionTextIs(p: Privilege)
    requires p.kind != System
    ensures OptionText(p) == (if p.isGrantable then WithOption("GRANT") else "")
    ensures (OptionText(p) != "") == p.isGrantable
  {
    OptionLiterals();
  }

  lemma FixedNames()
    ensures Lang(NameRe(OnUserGroup), "USERGROUP OPERATOR") && Lang(NameRe(OnColumnKey), "USAGE")
  {
    hide Lang, Upper;
    UpperId("USERGROUP");
    UpperId("OPERATOR");
    UpperId("USAGE");
    AnyCaseLang("USERGROUP", "USERGROUP");
    GapLang(" ");
    AnyCaseLang("OPERATOR", "OPERATOR");
    Cat3Intro(AnyCase("USERGROUP"), GAP, AnyCase("OPERATOR"), "USERGROUP", " ", "OPERATOR");
    assert "USERGROUP" + " " + "OPERATOR" == "USERGROUP OPERATOR";
    AnyCaseLang("USAGE", "USAGE");
  }

  lemma QuotedPrinted(x: string)
    ensures PrintedIdent(Quoted(x)) && Clean(Quoted(x)) == x
  {
    QuotedSolid(x);
    QuotedIsQuoted(x);
  }

  lemma BarePrinted(x: string)
    requires Bare(x)
    ensures PrintedIdent(x) && Clean(x) == x
  {}

  lemma ParseSource(p: Privilege, d: string)
    requires p.kind == Source && Canonical(p, d)
    ensures Parse(ToText(p), d) == Ok(p)
  {
    hide Lang, Parse, Quoted, NameShape, WithOption, Clean, PrintedIdent;
    var q, o := Quoted(p.identifier), OptionText(p);
    OptionTextIs(p);
    QuotedPrinted(p.identifier);
    NameLang(p.name);
    ParseTargeted(6, p.name, q, o, d);
    assert p.name + (" ON REMOTE SOURCE " + q) + o == p.name + " ON REMOTE SOURCE " + q + o;
  }

  lemma ParseSchema(p: Privilege, d: string)
    requires p.kind == Schema && Canonical(p, d)
    ensures Parse(ToText(p), d) == Ok(p)
  {
    hide Lang, Parse, Quoted, NameShape, WithOption, Clean, PrintedIdent;
    var q, o := Quoted(p.identifier), OptionText(p);
    OptionTextIs(p);
    QuotedPrinted(p.identifier);
    NameLang(p.name);
    ParseTargeted(7, p.name, q, o, d);
    assert p.name + (" ON SCHEMA " + q) + o == p.name + " ON SCHEMA " + q + o;
  }

  lemma ParseUserGroup(p: Privilege, d: string)
    requires p.kind == UserGroup && Canonical(p, d)
    ensures Parse(ToText(p), d) == Ok(p)
  {
    hide Lang, Parse, Quoted, WithOption, Clean, PrintedIdent;
    var q, o := Quoted(p.identifier), OptionText(p);
    OptionTextIs(p);
    QuotedPrinted(p.identifier);
    FixedNames();
    ParseTargeted(0, p.name, q, o, d);
    assert p.name + (" ON USERGROUP " + q) + o == p.name + " ON USERGROUP " + q + o;
  }

  lemma ParseColumnKey(p: Privilege, d: string)
    requires p.kind == ColumnKey && Canonical(p, d)
    ensures Parse(ToText(p), d) == Ok(p)
  {
    hide Lang, Parse, WithOption, Clean, PrintedIdent;
    var q, o := p.identifier, OptionText(p);
    OptionTextIs(p);
    BarePrinted(q);
    FixedNames();
    ParseTargeted(1, p.name, q, o, d);
    assert p.name + (" ON CLIENTSIDE ENCRYPTION COLUMN KEY " + q) + o ==
        p.name + " ON CLIENTSIDE ENCRYPTION COLUMN KEY " + q + o;
  }

  /** Which pattern reads a special object. */
  function SpecialPattern(k: string): nat {
    if k == "PSE " then 2 else if k == "JWT PROVIDER " then 3 else if k == "SAML PROVIDER " then 4 else 5
  }

  predicate IsSpecial(k: string) {
    k == "PSE " || k == "JWT PROVIDER " || k == "SAML PROVIDER " || k == "X509 PROVIDER "
  }

  lemma SpecialClause(k: string)
    requires IsSpecial(k)
    ensures Clause(PATTERNS[SpecialPattern(k)]) == " ON " + k
    ensures NameRe(PATTERNS[SpecialPattern(k)]) == NAME
  {
    hide NAME;
    SpecialLiterals();
  }

  lemma SpecialLiterals()
    ensures " ON " + "PSE " == " ON PSE " && " ON " + "JWT PROVIDER " == " ON JWT PROVIDER "
    ensures " ON " + "SAML PROVIDER " == " ON SAML PROVIDER " && " ON " + "X509 PROVIDER " == " ON X509 PROVIDER "
  {}

  lemma SpecialBuild(k: string, n: string, cl: string, q: string, o: string, d: string)
    requires IsSpecial(k)
    ensures Build(PATTERNS[SpecialPattern(k)], ["", n, cl, q, o, ""], d) ==
            Privilege(Object, n, k + Clean(q), "", o != "")
  {
    hide Clean;
  }

  lemma ParseSpecial(p: Privilege, d: string)
    requires p.kind == Object && p.subIdentifier == "" && SpecialPrefix(p.identifier).Some? && Canonical(p, d)
    ensures Parse(ToText(p), d) == Ok(p)
  {
    hide Lang, Parse, NameShape, WithOption, Clean, PrintedIdent, Build, Clause, PATTERNS, NameRe, SpecialPattern;
    var k := SpecialPrefix(p.identifier).value;
    var q, o := p.identifier[|k|..], OptionText(p);
    OptionTextIs(p);
    BarePrinted(q);
    NameLang(p.name);
    SpecialClause(k);
    SpecialBelow(k);
    ParseTargeted(SpecialPattern(k), p.name, q, o, d);
    SpecialBuild(k, p.name, Clause(PATTERNS[SpecialPattern(k)]), q, o, d);
    assert p.identifier == k + q;
    SpecialPieces(p.name, k, q, o);
  }

  lemma SpecialPieces(n: string, k: string, q: string, o: string)
    ensures n + (" ON " + k + q) + o == n + (" ON " + k) + q + o
  {}

  lemma SpecialBelow(k: string)
    requires IsSpecial(k)
    ensures SpecialPattern(k) < 8 && |PATTERNS| == 12
  {}

  lemma EarlyKeywords(i: nat)
    requires i < 8
    ensures |PATTERNS| == 12 && Targeted(PATTERNS[i]) && Keywords(PATTERNS[i]) != []
  {}

  lemma LatePatterns()
    ensures |PATTERNS| == 12 && PATTERNS[8] == OnDotted && PATTERNS[9] == OnPlain
    ensures PATTERNS[10] == OfStructured && PATTERNS[11] == OfSystem
  {}

  lemma DottedText(p: Privilege)
    requires p.kind == Object && p.subIdentifier != ""
    ensures ToText(p) ==
            p.name + ClauseText([]) + (Quoted(p.identifier) + "." + Quoted(p.subIdentifier)) + OptionText(p)
  {
    hide Quoted;
    Clause0();
    var qa, qb := Quoted(p.identifier), Quoted(p.subIdentifier);
    assert " ON " + qa + "." + qb == " ON " + (qa + "." + qb);
    assert p.name + (" ON " + (qa + "." + qb)) == p.name + " ON " + (qa + "." + qb);
  }

  lemma DottedIsFirst(n: string, a: string, b: string, o: string)
    requires NameShape(n) && (o == "" || o == WithOption("GRANT"))
    ensures FirstMatch(PATTERNS, n + ClauseText([]) + (Quoted(a) + "." + Quoted(b)) + o)
         == Some((OnDotted, ["", n, ClauseText([]), Quoted(a), ".", Quoted(b), o, ""]))
  {
    hide NameShape, WithOption, Quoted, Match, Expr, PATTERNS, Keywords, ClauseText, FirstMatch;
    var q := Quoted(a) + "." + Quoted(b);
    var s := n + ClauseText([]) + q + o;
    QuotedSolid(a);
    QuotedSolid(b);
    NameIsSolid(n);
    DottedMatch(n, a, b, o);
    LatePatterns();
    forall i | 0 <= i < 8
      ensures Match(Expr(PATTERNS[i]), s).None?
    {
      EarlyKeywords(i);
      OthersFail(PATTERNS[i], n, [], q, o);
    }
    FirstMatchAt(PATTERNS, 8, s);
  }

  lemma ParseDotted(p: Privilege, d: string)
    requires p.kind == Object && p.subIdentifier != "" && NameShape(p.name)
    ensures Parse(ToText(p), d) == Ok(p)
  {
    hide Parse, NameShape, WithOption, Clean, Quoted, PATTERNS, ClauseText, FirstMatch, ToText, OptionText;
    OptionTextIs(p);
    DottedText(p);
    QuotedIsQuoted(p.identifier);
    QuotedIsQuoted(p.subIdentifier);
    DottedIsFirst(p.name, p.identifier, p.subIdentifier, OptionText(p));
    ParseBy(ToText(p), OnDotted, FirstMatch(PATTERNS, ToText(p)).value.1, d);
  }

  lemma EmptyNotDotted(n: string, o: string)
    requires NameShape(n) && (o == "" || o == WithOption("GRANT"))
    ensures Match(Expr(OnDotted), n + " ON " + Quoted("") + o).None?
  {
    hide Lang, NameShape, WithOption, Match, Expr, ClauseText, Quoted;
    var s := n + " ON " + Quoted("") + o;
    QuotedPrinted("");
    NameIsSolid(n);
    Clause0();
    if Match(Expr(OnDotted), s).Some? {
      DottedMatchParts(s);
      DottedHead(Match(Expr(OnDotted), s).value, n, [], Quoted(""), o);
      EmptyQuotes();
    }
  }

  /** An empty object name, with an empty default schema, is read by the pattern for unqualified objects. */
  lemma EmptyIsFirst(n: string, o: string)
    requires NameShape(n) && (o == "" || o == WithOption("GRANT"))
    ensures FirstMatch(PATTERNS, n + " ON " + Quoted("") + o) == Some((OnPlain, ["", n, " ON ", Quoted(""), o, ""]))
  {
    hide Lang, NameShape, WithOption, Match, Expr, PATTERNS, Keywords, ClauseText, FirstMatch, Quoted, Clean;
    var q := Quoted("");
    var s := n + " ON " + q + o;
    QuotedPrinted("");
    NameIsSolid(n);
    NameLang(n);
    LatePatterns();
    PlainKeywords();
    Clause0();
    OwnMatch(OnPlain, n, q, o);
    EarlierFail(9, n, q, o);
    EmptyNotDotted(n, o);
    forall i | 0 <= i < 9
      ensures Match(Expr(PATTERNS[i]), s).None?
    {
      if i < 8 {
        EarlyKeywords(i);
      }
    }
    FirstMatchAt(PATTERNS, 9, s);
  }

  lemma EmptyObjectText(p: Privilege)
    requires p.kind == Object && p.subIdentifier == "" && p.identifier == ""
    ensures ToText(p) == p.name + " ON " + Quoted("") + OptionText(p)
  {
    hide Quoted;
    assert p.name + (" ON " + Quoted("")) == p.name + " ON " + Quoted("");
  }

  lemma ParsePlainEmpty(p: Privilege, d: string)
    requires p.kind == Object && p.subIdentifier == "" && p.identifier == "" && d == "" && NameShape(p.name)
    ensures Parse(ToText(p), d) == Ok(p)
  {
    hide Parse, NameShape, WithOption, PATTERNS, FirstMatch, Quoted, Clean, ToText, OptionText;
    OptionTextIs(p);
    EmptyObjectText(p);
    QuotedIsQuoted("");
    EmptyIsFirst(p.name, OptionText(p));
    ParseBy(ToText(p), OnPlain, FirstMatch(PATTERNS, ToText(p)).value.1, d);
  }

  lemma PlainKeywords()
    ensures Keywords(OnPlain) == [] && NameRe(OnPlain) == NAME
  {}

  lemma EmptyQuotes()
    ensures Quoted("") == [QUOTE, QUOTE]
  {}

  /** The parser reads a text with the head of a structured privilege by its pattern. */
  lemma ParseHead(n: string, o: string, d: string)
    requires PrintedIdent(n) && (o == "" || o == WithOption("GRANT"))
    ensures Parse(HEAD + n + o, d) == Ok(Privilege(Structured, "STRUCTURED PRIVILEGE", Clean(n), "", o != ""))
  {
    hide Lang, Parse, WithOption, Clean, Match, Expr, PATTERNS, Keywords, FirstMatch, PrintedIdent;
    var s := HEAD + n + o;
    StructuredMatch(n, o);
    LatePatterns();
    forall i | 0 <= i < 10
      ensures Match(Expr(PATTERNS[i]), s).None?
    {
      if i == 8 {
        StructuredNotDotted(n, o);
      } else {
        if i < 8 {
          EarlyKeywords(i);
        }
        StructuredNotTargeted(PATTERNS[i], n, o);
      }
    }
    FirstMatchAt(PATTERNS, 10, s);
    ParseBy(s, OfStructured, Match(Expr(OfStructured), s).value, d);
  }

  lemma ParseStructured(p: Privilege, d: string)
    requires p.kind == Structured && Canonical(p, d)
    ensures Parse(ToText(p), d) == Ok(p)
  {
    hide Parse, WithOption, Clean, PrintedIdent;
    var n, o := p.identifier, OptionText(p);
    OptionTextIs(p);
    BarePrinted(n);
    ParseHead(n, o, d);
    assert p.name + (" " + n) + o == HEAD + n + o;
  }

  lemma ParseSystem(p: Privilege, d: string)
    requires p.kind == System && Canonical(p, d)
    ensures Parse(ToText(p), d) == Ok(p)
  {
    hide Lang, WithOption, Match, Expr, PATTERNS, FirstMatch, SystemShape, HidesOption, Splits, HasOn, HasOption;
    var s := ToText(p);
    OptionLiterals();
    assert s == p.name + OptionText(p);
    SystemMatch(p.name, OptionText(p));
    LatePatterns();
    forall i | 0 <= i < 11
      ensures Match(Expr(PATTERNS[i]), s).None?
    {
      OnlyLast(i);
      MatchesIff(PATTERNS[i], s);
    }
    FirstMatchAt(PATTERNS, 11, s);
  }

  lemma OnlyLast(i: nat)
    requires i < 11
    ensures |PATTERNS| == 12 && PATTERNS[i] != OfSystem
  {}

  /** Every canonical privilege comes back from its printed text. */
  lemma CanonicalParses(p: Privilege, d: string)
    requires Canonical(p, d)
    ensures Parse(ToText(p), d) == Ok(p)
  {
    hide Parse, ToText;
    match p.kind
    case Source => ParseSource(p, d);
    case Schema => ParseSchema(p, d);
    case UserGroup => ParseUserGroup(p, d);
    case ColumnKey => ParseColumnKey(p, d);
    case Structured => ParseStructured(p, d);
    case System => ParseSystem(p, d);
    case Object =>
      if p.subIdentifier != "" {
        ParseDotted(p, d);
      } else if SpecialPrefix(p.identifier).Some? {
        ParseSpecial(p, d);
      } else {
        ParsePlainEmpty(p, d);
      }
  }
}
