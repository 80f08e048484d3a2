/** The other half of the round trip: a privilege that comes back from its printed text is canonical. */
module Converse {
  import opened Strings
  import opened Quoting
  import opened Regexp
  import opened Privileges
  import opened Grammar
  import opened Tails
  import opened Matching
  import opened Dotted
  import opened SystemNames
  import opened RoundTrip

  lemma ParsedBy(s: string, d: string) returns (id: PatternId, m: seq<string>)
    requires Parse(s, d).Ok?
    ensures Match(Expr(id), s) == Some(m) && Parse(s, d).value == Build(id, m, d)
    ensures FirstMatch(PATTERNS, s) == Some((id, m))
    ensures id == OfSystem ==> !HasOn(s) && !HasOption(s, "GRANT")
  {
    hide FirstMatch, HasOn, HasOption, Match, Clean;
    id, m := FirstMatch(PATTERNS, s).value.0, FirstMatch(PATTERNS, s).value.1;
  }

  // ---------------------------------------------------------------- lengths

  lemma {:induction false} ClauseLength(kws: seq<string>, cl: string)
    requires Proper(kws) && Lang(ClauseRe(kws), cl)
    ensures |cl| >= |ClauseText(kws)|
    decreases |kws|
  {
    hide Lang, Upper;
    var c, a, s := ClauseSplit(kws, cl);
    assert |a| == |LastWord(kws)|;
    if kws != [] {
      ClauseLength(kws[..|kws| - 1], c);
    }
  }

  lemma OptionLength(w: string, o: string)
    requires o != "" && Lang(OptionRe(w), o)
    ensures |o| >= |WithOption(w)|
  {
    hide Lang, Upper;
    var s1, a, s2, b, s3, c := OptionElim(w, o);
    assert |a| == 4 && |b| == |w| && |c| == 6;
  }

  lemma CleanLength(g: string)
    ensures |Clean(g)| <= |g|
    ensures |Clean(g)| == |g| ==> Clean(g) == g && !(|g| >= 2 && g[0] == QUOTE && g[|g| - 1] == QUOTE)
    ensures g != "" && Clean(g) == "" ==> |g| >= 2 && g[0] == QUOTE
  {
    if |g| >= 2 && g[0] == QUOTE && g[|g| - 1] == QUOTE {
      UnescapeShrinks(g[1..|g| - 1], QUOTE);
    }
  }

  /** When the text around an identifier is as short as it can be, the identifier was matched as it was printed. */
  lemma BareNeeded(g: string, x: string, before: int, after: int, total: int)
    requires IdentShape(g) && Clean(g) == x
    requires before + |g| + after <= total <= before + |x| + after
    ensures g == x && Bare(x)
  {
    CleanLength(g);
  }

  lemma BareTarget(id: PatternId, m: seq<string>, n: string, x: string, o: string)
    requires Targeted(id) && Parts(id, m, n + Clause(id) + x + o)
    requires |m[1]| >= |n| && Clean(m[3]) == x
    requires (m[4] == "") == (o == "") && (o == "" || o == WithOption("GRANT"))
    ensures Bare(x)
  {
    hide Lang, ClauseRe, OptionRe, Keywords, ClauseText, WithOption, Upper, Clean, Clause, SolidName, IdentShape, Bare;
    KeywordsProper(id);
    ClauseIs(id);
    ClauseLength(Keywords(id), m[2]);
    if o != "" {
      OptionLength("GRANT", m[4]);
    }
    BareNeeded(m[3], x, |n| + |Clause(id)|, |o|, |n + Clause(id) + x + o|);
  }

  // ---------------------------------------------------------------- kinds

  lemma QuotedKindsOnly(id: PatternId, m: seq<string>, d: string)
    requires |m| == |Expr(id)|
    ensures var p := Build(id, m, d);
            && (p.kind == Source ==> id == OnSource)
            && (p.kind == Schema ==> id == OnSchema)
            && (p.kind == UserGroup ==> id == OnUserGroup)
            && (p.kind == Source || p.kind == Schema || p.kind == UserGroup ==>
               |m| == 6 && p.name == m[1] && p.subIdentifier == "")
  {
    hide Clean;
  }

  lemma QuotedKindsCanonical(p: Privilege, d: string)
    requires p.kind == Source || p.kind == Schema
    requires Parse(ToText(p), d) == Ok(p)
    ensures Canonical(p, d)
  {
    hide Match, Parse, ToText, Expr, NameRe, Lang, Build, NameShape;
    var id, m := ParsedBy(ToText(p), d);
    QuotedKindsOnly(id, m, d);
    TargetedParts(id, ToText(p));
    TargetedName(id, m[1]);
  }

  lemma UserGroupText(p: Privilege, q: Privilege)
    requires p.kind == UserGroup && q == p.(name := "USERGROUP OPERATOR", subIdentifier := "")
    ensures ToText(p) == ToText(q)
  {}

  lemma UserGroupCanonical(p: Privilege, d: string)
    requires p.kind == UserGroup
    requires Parse(ToText(p), d) == Ok(p)
    ensures Canonical(p, d)
  {
    hide Parse, ToText;
    var q := p.(name := "USERGROUP OPERATOR", subIdentifier := "");
    UserGroupText(p, q);
    ParseUserGroup(q, d);
  }

  lemma ColumnKeyOnly(id: PatternId, m: seq<string>, d: string)
    requires |m| == |Expr(id)| && Build(id, m, d).kind == ColumnKey
    ensures id == OnColumnKey && |m| == 6 &&
            Build(id, m, d) == Privilege(ColumnKey, "USAGE", Clean(m[3]), "", m[4] != "")
  {
    hide Clean;
  }

  lemma ColumnKeyText(p: Privilege)
    requires p.kind == ColumnKey
    ensures ToText(p) == p.name + Clause(OnColumnKey) + p.identifier + OptionText(p)
  {
    assert p.name + (" ON CLIENTSIDE ENCRYPTION COLUMN KEY " + p.identifier) + OptionText(p)
        == p.name + " ON CLIENTSIDE ENCRYPTION COLUMN KEY " + p.identifier + OptionText(p);
  }

  lemma ColumnKeyCanonical(p: Privilege, d: string)
    requires p.kind == ColumnKey
    requires Parse(ToText(p), d) == Ok(p)
    ensures Canonical(p, d)
  {
    hide Match, Parse, Clean, Expr, NameRe, Lang, WithOption, Upper, Parts, Bare, Build, ToText, Clause, OptionText;
    hide NameShape, SolidName, SpecialPrefix, CanonicalSystem;
    var id, m := ParsedBy(ToText(p), d);
    ColumnKeyOnly(id, m, d);
    TargetedParts(id, ToText(p));
    TargetedName(id, m[1]);
    OptionTextIs(p);
    ColumnKeyText(p);
    assert |m[1]| == |Upper(m[1])| == 5;
    BareTarget(id, m, p.name, p.identifier, OptionText(p));
  }

  lemma StructuredOnly(id: PatternId, m: seq<string>, d: string)
    requires |m| == |Expr(id)| && Build(id, m, d).kind == Structured
    ensures id == OfStructured && |m| == 4
    ensures Build(id, m, d) == Privilege(Structured, "STRUCTURED PRIVILEGE", Clean(m[1]), "", m[2] != "")
  {
    hide Clean;
  }

  lemma StructuredText(p: Privilege)
    requires p.kind == Structured && p.name == "STRUCTURED PRIVILEGE"
    ensures ToText(p) == HEAD + p.identifier + OptionText(p)
  {
    assert p.name + " " == HEAD;
    assert p.name + (" " + p.identifier) + OptionText(p) == p.name + " " + p.identifier + OptionText(p);
  }

  lemma StructuredCanonical(p: Privilege, d: string)
    requires p.kind == Structured
    requires Parse(ToText(p), d) == Ok(p)
    ensures Canonical(p, d)
  {
    hide Match, Parse, Clean, Expr, Lang, WithOption, Upper, HeadWord, Bare, Build, ToText, OptionText, IdentShape;
    var o := OptionText(p);
    var id, m := ParsedBy(ToText(p), d);
    StructuredOnly(id, m, d);
    StructuredMatchParts(ToText(p));
    OptionTextIs(p);
    StructuredText(p);
    if o != "" {
      OptionLength("GRANT", m[2]);
    }
    BareNeeded(m[1], p.identifier, |HEAD|, |o|, |ToText(p)|);
  }

  lemma SystemCanonical(p: Privilege, d: string)
    requires p.kind == System
    requires Parse(ToText(p), d) == Ok(p)
    ensures Canonical(p, d)
  {
    hide Match, Parse, Expr, Lang, WithOption, SystemShape, HidesOption, HasOn, HasOption, PATTERNS, FirstMatch;
    hide Matches;
    var s, o := ToText(p), OptionText(p);
    var id, m := ParsedBy(s, d);
    SystemOnly(id, m, d);
    SystemMatchParts(s);
    OptionLiterals();
    assert s == p.name + o;
    SystemCandidates(m, p.name, o);
    assert m == [m[0], m[1], m[2], m[3]];
    SystemMatch(p.name, o);
    forall e: PatternId | e != OfSystem
      ensures !Matches(e, s)
    {
      MatchesIff(e, s);
      LastIsReached(e, s);
    }
  }

  lemma SystemOnly(id: PatternId, m: seq<string>, d: string)
    requires |m| == |Expr(id)| && Build(id, m, d).kind == System
    ensures id == OfSystem && Build(id, m, d).name == m[1] && Build(id, m, d).isGrantable == (m[2] != "")
    ensures Build(id, m, d).identifier == "" && Build(id, m, d).subIdentifier == ""
  {
    hide Clean;
  }

  /** When the last pattern is the first to match, no other one does. */
  lemma LastIsReached(e: PatternId, s: string)
    requires FirstMatch(PATTERNS, s).Some? && FirstMatch(PATTERNS, s).value.0 == OfSystem && e != OfSystem
    ensures Match(Expr(e), s).None?
  {
    hide Match, Expr, FirstMatch;
    SkippedAll(PATTERNS, s, Position(e));
  }

  function Position(e: PatternId): (i: nat)
    ensures i < 12 && PATTERNS[i] == e
    ensures forall j | 0 <= j < i :: PATTERNS[j] != OfSystem
  {
    match e
    case OnUserGroup => 0
    case OnColumnKey => 1
    case OnPse => 2
    case OnJwt => 3
    case OnSaml => 4
    case OnX509 => 5
    case OnSource => 6
    case OnSchema => 7
    case OnDotted => 8
    case OnPlain => 9
    case OfStructured => 10
    case OfSystem => 11
  }

  lemma {:induction false} SkippedAll(ids: seq<PatternId>, s: string, i: nat)
    requires FirstMatch(ids, s).Some? && FirstMatch(ids, s).value.0 == OfSystem
    requires i < |ids| && forall j | 0 <= j <= i :: ids[j] != OfSystem
    ensures Match(Expr(ids[i]), s).None?
    decreases |ids|
  {
    hide Match, Expr;
    if i > 0 {
      SkippedAll(ids[1..], s, i - 1);
    }
  }

  // ---------------------------------------------------------------- objects

  function SpecialOf(id: PatternId): Option<string> {
    match id
    case OnPse => Some("PSE ")
    case OnJwt => Some("JWT PROVIDER ")
    case OnSaml => Some("SAML PROVIDER ")
    case OnX509 => Some("X509 PROVIDER ")
    case _ => None
  }

  lemma ObjectOnly(id: PatternId, m: seq<string>, d: string)
    requires |m| == |Expr(id)| && Build(id, m, d).kind == Object
    ensures SpecialOf(id).Some? || id == OnDotted || id == OnPlain
    ensures id == OnDotted ==>
            |m| == 8 && Build(id, m, d) == Privilege(Object, m[1], Clean(m[3]), Clean(m[5]), m[6] != "")
    ensures id == OnPlain ==> |m| == 6 && Build(id, m, d) == Privilege(Object, m[1], d, Clean(m[3]), m[4] != "")
    ensures SpecialOf(id).Some? ==> |m| == 6 && Targeted(id)
    ensures SpecialOf(id).Some? ==>
            Build(id, m, d) == Privilege(Object, m[1], SpecialOf(id).value + Clean(m[3]), "", m[4] != "")
  {
    hide Clean;
  }

  lemma SpecialOfPrefix(id: PatternId, x: string)
    requires SpecialOf(id).Some?
    ensures SpecialPrefix(SpecialOf(id).value + x) == SpecialOf(id)
    ensures Clause(id) == " ON " + SpecialOf(id).value
  {
    var t := SpecialOf(id).value + x;
    SpecialLiterals();
    assert t[0] == SpecialOf(id).value[0];
  }

  lemma ObjectName(id: PatternId, s: string)
    requires Match(Expr(id), s).Some? && (SpecialOf(id).Some? || id == OnDotted || id == OnPlain)
    ensures |Match(Expr(id), s).value| > 1 && NameShape(Match(Expr(id), s).value[1])
  {
    hide Match, Expr, Lang, NameRe, NameShape;
    if id == OnDotted {
      DottedMatchParts(s);
    } else {
      TargetedParts(id, s);
      TargetedName(id, Match(Expr(id), s).value[1]);
    }
  }

  lemma SpecialText(p: Privilege, k: string)
    requires p.kind == Object && p.subIdentifier == "" && SpecialPrefix(p.identifier) == Some(k)
    ensures ToText(p) == p.name + (" ON " + k) + p.identifier[|k|..] + OptionText(p)
    ensures |ToText(p)| == |p.name| + 4 + |p.identifier| + |OptionText(p)|
  {
    var x := p.identifier[|k|..];
    assert p.name + (" ON " + k + x) + OptionText(p) == p.name + (" ON " + k) + x + OptionText(p);
  }

  /** A special object is not read as an unqualified object with an empty name. */
  lemma PlainNotSpecial(m: seq<string>, n: string, k: string, rest: string)
    requires Parts(OnPlain, m, n + (" ON " + k) + rest) && NameShape(n) && m[1] == n
    requires k != "" && !IsSpace(k[0])
    ensures m[3][0] == k[0]
  {
    hide Lang, ClauseRe, OptionRe, IdentShape;
    var s := n + (" ON " + k) + rest;
    PartsIdent(OnPlain, m, s);
    assert s[0] == n[0];
    assert m[0] == "";
    PlainKeywords();
    var s1, a, s2 := ClauseSplit([], m[2]);
    assert |a| == 2;
    var t := " ON " + k + rest;
    assert s == n + t;
    var after := m[3] + m[4] + m[5];
    assert s == n + (s1 + a + s2 + after);
    assert t == s[|n|..] == s1 + a + s2 + after;
    assert t[1] == 'O' && t[0] == ' ' && t[3] == ' ' && t[4] == k[0];
    assert |s1| == 1;
    assert t[3] == s2[0];
    assert |s2| == 1;
    assert t[4] == after[0] == m[3][0];
  }

  lemma SpecialBySpecial(p: Privilege, k: string, id: PatternId, m: seq<string>)
    requires p.kind == Object && p.subIdentifier == "" && SpecialPrefix(p.identifier) == Some(k)
    requires SpecialOf(id).Some? && Targeted(id) && |m| == 6 && Parts(id, m, ToText(p))
    requires p == Privilege(Object, m[1], SpecialOf(id).value + Clean(m[3]), "", m[4] != "")
    ensures Bare(p.identifier[|k|..])
  {
    hide Clean, Bare, OptionText, ToText, Clause, Parts, WithOption, SpecialOf, SpecialPrefix;
    SpecialText(p, k);
    SpecialOfPrefix(id, Clean(m[3]));
    OptionTextIs(p);
    assert Clean(m[3]) == p.identifier[|k|..];
    BareTarget(id, m, p.name, p.identifier[|k|..], OptionText(p));
  }

  lemma SpecialNotPlain(p: Privilege, k: string, m: seq<string>)
    requires p.kind == Object && p.subIdentifier == "" && SpecialPrefix(p.identifier) == Some(k)
    requires |m| == 6 && Parts(OnPlain, m, ToText(p)) && p.name == m[1] && NameShape(m[1])
    ensures Clean(m[3]) != ""
  {
    hide Clean, OptionText, ToText, NameShape, Parts;
    var rest := p.identifier[|k|..] + OptionText(p);
    SpecialText(p, k);
    assert ToText(p) == p.name + (" ON " + k) + rest;
    PlainNotSpecial(m, p.name, k, rest);
    CleanLength(m[3]);
    PartsIdent(OnPlain, m, ToText(p));
  }

  lemma SpecialCanonical(p: Privilege, d: string, k: string, x: string)
    requires p.kind == Object && p.subIdentifier == "" && SpecialPrefix(p.identifier) == Some(k) &&
             p.identifier == k + x
    requires Parse(ToText(p), d) == Ok(p)
    ensures Bare(x)
  {
    hide Match, Parse, Clean, Expr, Bare, Build, ToText, OptionText, NameShape, Parts, DottedParts, WithOption;
    hide SpecialOf, SpecialPrefix;
    var s := ToText(p);
    var id, m := ParsedBy(s, d);
    ObjectOnly(id, m, d);
    ObjectName(id, s);
    if SpecialOf(id).Some? {
      TargetedParts(id, s);
      SpecialBySpecial(p, k, id, m);
    } else if id == OnDotted {
      DottedMatchParts(s);
      OptionTextIs(p);
      SpecialText(p, k);
      DottedTooLong(m, s, p.identifier, |p.name|, OptionText(p));
    } else {
      TargetedParts(id, s);
      SpecialNotPlain(p, k, m);
    }
  }

  lemma PartsIdent(id: PatternId, m: seq<string>, s: string)
    requires Parts(id, m, s)
    ensures m[3] != ""
  {}

  lemma DottedTooLong(m: seq<string>, s: string, x: string, n: nat, o: string)
    requires DottedParts(m, s) && Clean(m[3]) == x && Clean(m[5]) == "" && |m[1]| == n
    requires (m[6] == "") == (o == "") && (o == "" || o == WithOption("GRANT"))
    ensures |s| > n + 4 + |x| + |o|
  {
    hide Lang, ClauseRe, OptionRe, WithOption, Clean, Upper;
    CleanLength(m[3]);
    CleanLength(m[5]);
    ClauseLength([], m[2]);
    Clause0();
    if o != "" {
      OptionLength("GRANT", m[6]);
    }
  }

  lemma {:induction false} NoLoneQuote(r: string)
    ensures !IsBody(r + "." + [QUOTE], QUOTE)
    decreases |r|
  {
    var t := r + "." + [QUOTE];
    if r == "" {
      assert t[1..] == [QUOTE];
    } else if r[0] != QUOTE {
      assert t[1..] == r[1..] + "." + [QUOTE];
      NoLoneQuote(r[1..]);
    } else if |r| >= 2 {
      assert t[2..] == r[2..] + "." + [QUOTE];
      NoLoneQuote(r[2..]);
    } else {
      assert t[1] == '.';
    }
  }

  /** A quoted text does not end in a dot and an empty quoted identifier. */
  lemma NotDottedEmpty(g: string, x: string)
    requires g != ""
    ensures g + "." + [QUOTE, QUOTE] != Quoted(x)
  {
    hide IsBody, Escape;
    var q, r := Quoted(x), g + "." + [QUOTE, QUOTE];
    EscapeIsBody(x, QUOTE);
    NoLoneQuote(g[1..]);
    assert q[1..|q| - 1] == Escape(x, QUOTE);
    assert r[1..|r| - 1] == g[1..] + "." + [QUOTE];
  }

  lemma EmptyClean(g: string)
    requires g != "" && Clean(g) == ""
    ensures g == [QUOTE, QUOTE]
  {
    CleanLength(g);
    var b := g[1..|g| - 1];
    assert b != "" ==> Unescape(b, QUOTE) != "";
    assert g == [g[0], g[1]];
  }

  lemma PlainText(p: Privilege)
    requires p.kind == Object && p.subIdentifier == "" && SpecialPrefix(p.identifier).None?
    ensures ToText(p) == p.name + ClauseText([]) + Quoted(p.identifier) + OptionText(p)
  {
    Clause0();
    assert p.name + (" ON " + Quoted(p.identifier)) + OptionText(p) ==
        p.name + " ON " + Quoted(p.identifier) + OptionText(p);
  }

  lemma PlainNotDotted(p: Privilege, m: seq<string>)
    requires p.kind == Object && p.subIdentifier == "" && SpecialPrefix(p.identifier).None?
    requires DottedParts(m, ToText(p)) && p.name == m[1]
    ensures Clean(m[5]) != ""
  {
    hide Clean, OptionText, ToText, ClauseText, Quoted, WithOption;
    PlainText(p);
    OptionTextIs(p);
    NameIsSolid(p.name);
    QuotedPrinted(p.identifier);
    DottedHead(m, p.name, [], Quoted(p.identifier), OptionText(p));
    if Clean(m[5]) == "" {
      EmptyClean(m[5]);
      NotDottedEmpty(m[3], p.identifier);
    }
  }

  lemma PlainByPlain(p: Privilege, m: seq<string>)
    requires p.kind == Object && p.subIdentifier == "" && SpecialPrefix(p.identifier).None?
    requires Parts(OnPlain, m, ToText(p)) && p.name == m[1]
    ensures Clean(m[3]) == p.identifier
  {
    hide Clean, OptionText, ToText, ClauseText, Quoted, WithOption;
    PlainText(p);
    OptionTextIs(p);
    QuotedPrinted(p.identifier);
    PartsUnique(OnPlain, m, p.name, [], Quoted(p.identifier), OptionText(p));
  }

  lemma PlainCanonical(p: Privilege, d: string)
    requires p.kind == Object && p.subIdentifier == "" && SpecialPrefix(p.identifier).None?
    requires Parse(ToText(p), d) == Ok(p)
    ensures p.identifier == "" && d == ""
  {
    hide Match, Parse, Clean, Expr, Build, ToText, NameShape, Parts, DottedParts, SpecialPrefix, SpecialOf;
    var s := ToText(p);
    var id, m := ParsedBy(s, d);
    ObjectOnly(id, m, d);
    ObjectName(id, s);
    if SpecialOf(id).Some? {
      SpecialOfPrefix(id, Clean(m[3]));
    } else if id == OnDotted {
      DottedMatchParts(s);
      PlainNotDotted(p, m);
    } else {
      TargetedParts(id, s);
      PlainByPlain(p, m);
    }
  }

  lemma ObjectCanonical(p: Privilege, d: string)
    requires p.kind == Object
    requires Parse(ToText(p), d) == Ok(p)
    ensures Canonical(p, d)
  {
    hide Match, Parse, ToText, Build, Expr, NameShape, Bare;
    var id, m := ParsedBy(ToText(p), d);
    ObjectOnly(id, m, d);
    ObjectName(id, ToText(p));
    if p.subIdentifier == "" {
      UnqualifiedCanonical(p, d);
    }
  }

  lemma UnqualifiedCanonical(p: Privilege, d: string)
    requires p.kind == Object && p.subIdentifier == "" && NameShape(p.name)
    requires Parse(ToText(p), d) == Ok(p)
    ensures Canonical(p, d)
  {
    hide Parse, ToText, NameShape, Bare;
    if SpecialPrefix(p.identifier).Some? {
      var k := SpecialPrefix(p.identifier).value;
      SpecialCanonical(p, d, k, p.identifier[|k|..]);
    } else {
      PlainCanonical(p, d);
    }
  }

  // ---------------------------------------------------------------- the theorem

  /** A privilege comes back from its printed text exactly when it is canonical. */
  lemma RoundTripIff(p: Privilege, defaultSchema: string)
    ensures Parse(ToText(p), defaultSchema) == Ok(p) <==> Canonical(p, defaultSchema)
  {
    hide Parse, ToText, Canonical;
    if Canonical(p, defaultSchema) {
      CanonicalParses(p, defaultSchema);
    } else if Parse(ToText(p), defaultSchema) == Ok(p) {
      match p.kind
      case Source => QuotedKindsCanonical(p, defaultSchema);
      case Schema => QuotedKindsCanonical(p, defaultSchema);
      case UserGroup => UserGroupCanonical(p, defaultSchema);
      case ColumnKey => ColumnKeyCanonical(p, defaultSchema);
      case Structured => StructuredCanonical(p, defaultSchema);
      case System => SystemCanonical(p, defaultSchema);
      case Object => ObjectCanonical(p, defaultSchema);
    }
  }
}
