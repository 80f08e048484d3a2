/** What the round trip gives to reconciliation: formatting is stable, equal strings mean equal grants, and
    catalogue rows print to strings that the formatter leaves alone. Also the inputs where it breaks down. */
module Language {
  import opened Strings
  import opened Quoting
  import opened Regexp
  import opened Privileges
  import opened Grammar
  import opened Tokens
  import opened Tails
  import opened Matching
  import opened Dotted
  import opened SystemNames
  import opened SystemWords
  import opened RoundTrip
  import opened Converse
  import opened Spelling

  // ---------------------------------------------------------------- acceptance

  /** A pattern other than the one for system privileges fits the text. */
  ghost predicate Targets(s: string) {
    exists id: PatternId :: id != OfSystem && Matches(id, s)
  }

  lemma {:induction false} FirstMatchIs(ids: seq<PatternId>, s: string)
    ensures FirstMatch(ids, s).None? ==> forall i | 0 <= i < |ids| :: Match(Expr(ids[i]), s).None?
    ensures FirstMatch(ids, s).Some? ==>
              exists i | 0 <= i < |ids| ::
                  ids[i] == FirstMatch(ids, s).value.0 && forall j | 0 <= j < i :: Match(Expr(ids[j]), s).None?
  {
    hide Match, Expr;
    if ids != [] && Match(Expr(ids[0]), s).None? {
      FirstMatchIs(ids[1..], s);
      assert forall i | 1 <= i < |ids| :: ids[i] == ids[1..][i - 1];
      if FirstMatch(ids, s).Some? {
        var i :| && 0 <= i < |ids[1..]| && ids[1..][i] == FirstMatch(ids[1..], s).value.0
                 && forall j | 0 <= j < i :: Match(Expr(ids[1..][j]), s).None?;
        assert ids[i + 1] == FirstMatch(ids, s).value.0;
      }
    }
  }

  lemma AllPatterns(id: PatternId)
    ensures |PATTERNS| == 12 && PATTERNS[11] == OfSystem && id in PATTERNS
    ensures forall i | 0 <= i < 11 :: PATTERNS[i] != OfSystem
  {}

  /** Which pattern is found depends on the order only up to this: the system pattern is used if no other fits. */
  lemma FoundIs(s: string)
    ensures FirstMatch(PATTERNS, s).None? <==> !Targets(s) && !Matches(OfSystem, s)
    ensures FirstMatch(PATTERNS, s).Some? && FirstMatch(PATTERNS, s).value.0 == OfSystem <==>
            !Targets(s) && Matches(OfSystem, s)
  {
    hide Match, Expr, PATTERNS, Matches, FirstMatch;
    FirstMatchIs(PATTERNS, s);
    AllPatterns(OfSystem);
    forall id: PatternId
      ensures id in PATTERNS && (Matches(id, s) <==> Match(Expr(id), s).Some?)
    {
      AllPatterns(id);
      MatchesIff(id, s);
    }
    if FirstMatch(PATTERNS, s).Some? {
      FoundMatches(s);
    }
  }

  lemma FoundMatches(s: string)
    requires FirstMatch(PATTERNS, s).Some?
    ensures Match(Expr(FirstMatch(PATTERNS, s).value.0), s).Some?
  {
    hide Match, Expr, PATTERNS;
  }

  lemma SystemBuilt(id: PatternId, m: seq<string>, d: string)
    requires |m| == |Expr(id)|
    ensures Build(id, m, d).kind == System <==> id == OfSystem
  {
    hide Clean;
  }

  /** The text is spelled like a privilege that is not a system privilege. */
  ghost predicate SpelledOther(s: string) {
    exists id: PatternId :: id != OfSystem && Spelled(id, s)
  }

  lemma TargetsSpelled(s: string)
    ensures Targets(s) <==> SpelledOther(s)
  {
    hide Matches, Spelled;
    forall id: PatternId
      ensures Matches(id, s) <==> Spelled(id, s)
    {
      MatchesSpelled(id, s);
    }
  }

  /** Exactly which texts are accepted, told from their spelling, and which errors the others get. */
  lemma AcceptedIff(s: string, d: string)
    ensures Parse(s, d).Ok? <==> SpelledOther(s) || (Spelled(OfSystem, s) && !HasOn(s) && !HasOption(s, "GRANT"))
    ensures Parse(s, d) == Err(InvalidGrantOption) <==>
            !SpelledOther(s) && Spelled(OfSystem, s) && !HasOn(s) && HasOption(s, "GRANT")
    ensures Parse(s, d) == Err(InvalidAdminOption) <==>
            !SpelledOther(s) && if HasOn(s) then HasOption(s, "ADMIN")
                else !Spelled(OfSystem, s) && HasOption(s, "GRANT")
  {
    hide Match, Expr, PATTERNS, Matches, FirstMatch, HasOn, HasOption, Targets, Build, Spelled, SpelledOther;
    TargetsSpelled(s);
    MatchesSpelled(OfSystem, s);
    FoundIs(s);
    match FirstMatch(PATTERNS, s)
    case None =>
    case Some((id, m)) =>
      FoundShape(s);
      SystemBuilt(id, m, d);
  }

  lemma FoundShape(s: string)
    requires FirstMatch(PATTERNS, s).Some?
    ensures |FirstMatch(PATTERNS, s).value.1| == |Expr(FirstMatch(PATTERNS, s).value.0)|
  {
    hide Expr, PATTERNS;
  }

  // ---------------------------------------------------------------- formatting

  /** parsePrivilegeStrings: all privileges, or the first error. */
  function ParseAll(texts: seq<string>, d: string): Result<seq<Privilege>, ParseError> {
    if texts == [] then Ok([])
    else
      match Parse(texts[0], d)
      case Err(e) => Err(e)
      case Ok(p) =>
        match ParseAll(texts[1..], d)
        case Err(e) => Err(e)
        case Ok(ps) => Ok([p] + ps)
  }

  function Texts(ps: seq<Privilege>): (r: seq<string>)
    ensures |r| == |ps| && forall i | 0 <= i < |ps| :: r[i] == ToText(ps[i])
  {
    seq(|ps|, i requires 0 <= i < |ps| => ToText(ps[i]))
  }

  /** FormatPrivilegeStrings. */
  function Format(texts: seq<string>, d: string): Result<seq<string>, ParseError> {
    match ParseAll(texts, d)
    case Err(e) => Err(e)
    case Ok(ps) => Ok(Texts(ps))
  }

  /** ParseAll succeeds exactly when every text parses, and then gives each text its privilege. */
  lemma {:induction false} ParseAllIs(texts: seq<string>, d: string)
    ensures ParseAll(texts, d).Ok? <==> forall i | 0 <= i < |texts| :: Parse(texts[i], d).Ok?
    ensures ParseAll(texts, d).Ok? ==> |ParseAll(texts, d).value| == |texts|
    ensures ParseAll(texts, d).Ok? ==>
            forall i | 0 <= i < |texts| :: Parse(texts[i], d) == Ok(ParseAll(texts, d).value[i])
  {
    hide Parse;
    if texts != [] {
      ParseAllIs(texts[1..], d);
      assert forall i | 1 <= i < |texts| :: texts[i] == texts[1..][i - 1];
    }
  }

  lemma ParseOne(text: string, d: string)
    ensures ParseAll([text], d) == match Parse(text, d) case Err(e) => Err(e) case Ok(p) => Ok([p])
  {
    hide Parse;
    assert [text][1..] == [];
    assert ParseAll([text][1..], d) == Ok([]);
    if Parse(text, d).Ok? {
      assert [Parse(text, d).value] + [] == [Parse(text, d).value];
    }
  }

  lemma ParseAllAppend(texts: seq<string>, d: string, i: nat)
    requires i < |texts|
    ensures var r := ParseAll(texts[..i + 1], d);
            match ParseAll(texts[..i], d)
            case Err(e) => r == Err(e)
            case Ok(ps) => r == match Parse(texts[i], d) case Err(e) => Err(e) case Ok(p) => Ok(ps + [p])
  {
    hide Parse;
    var t := texts[..i + 1];
    if i == 0 {
      ParseOne(texts[0], d);
      assert t == [texts[0]];
      if Parse(texts[0], d).Ok? {
        assert [] + [Parse(texts[0], d).value] == [Parse(texts[0], d).value];
      }
    } else {
      assert t[1..] == texts[1..][..i];
      assert texts[..i][1..] == texts[1..][..i - 1];
      ParseAllAppend(texts[1..], d, i - 1);
      if Parse(texts[0], d).Ok? && Parse(texts[i], d).Ok? && ParseAll(texts[1..][..i - 1], d).Ok? {
        var p, q, ps := Parse(texts[0], d).value, Parse(texts[i], d).value, ParseAll(texts[1..][..i - 1], d).value;
        assert [p] + ps + [q] == [p] + (ps + [q]);
      }
    }
  }

  lemma {:induction false} ParseAllError(texts: seq<string>, d: string, i: nat)
    requires i <= |texts| && ParseAll(texts[..i], d).Err?
    ensures ParseAll(texts, d) == ParseAll(texts[..i], d)
    decreases |texts|
  {
    hide Parse;
    if texts == [] || i == 0 {
    } else {
      assert texts[..i][1..] == texts[1..][..i - 1];
      if Parse(texts[0], d).Ok? {
        ParseAllError(texts[1..], d, i - 1);
      }
    }
  }

  /** parsePrivilegeStrings as the loop of the source. */
  method ParsePrivilegeStrings(texts: seq<string>, d: string) returns (r: Result<seq<Privilege>, ParseError>)
    ensures r == ParseAll(texts, d)
  {
    hide Parse, ParseAll;
    var privileges: seq<Privilege> := [];
    assert ParseAll(texts[..0], d) == Ok([]) by { NothingToParse(d); assert texts[..0] == []; }
    for i := 0 to |texts|
      invariant ParseAll(texts[..i], d) == Ok(privileges)
    {
      ParseAllAppend(texts, d, i);
      match Parse(texts[i], d)
      case Err(e) =>
        ParseAllError(texts, d, i + 1);
        return Err(e);
      case Ok(p) =>
        privileges := privileges + [p];
    }
    assert texts[..|texts|] == texts;
    return Ok(privileges);
  }

  lemma NothingToParse(d: string)
    ensures ParseAll([], d) == Ok([])
  {}

  /** FormatPrivilegeStrings as the loop of the source. */
  method FormatPrivilegeStrings(texts: seq<string>, d: string) returns (r: Result<seq<string>, ParseError>)
    ensures r == Format(texts, d)
  {
    hide ToText, ParseAll;
    var parsed := ParsePrivilegeStrings(texts, d);
    match parsed
    case Err(e) => return Err(e);
    case Ok(privileges) =>
      var res: seq<string> := [];
      for j := 0 to |privileges|
        invariant |res| == j && forall i | 0 <= i < j :: res[i] == ToText(privileges[i])
      {
        res := res + [ToText(privileges[j])];
      }
      assert res == Texts(privileges);
      return Ok(res);
  }

  /** Canonical strings are fixed points of the formatter. */
  lemma FormatKeepsCanonical(ps: seq<Privilege>, d: string)
    requires forall i | 0 <= i < |ps| :: Canonical(ps[i], d)
    ensures ParseAll(Texts(ps), d) == Ok(ps) && Format(Texts(ps), d) == Ok(Texts(ps))
  {
    hide Parse, ToText, Canonical;
    forall i | 0 <= i < |ps|
      ensures Parse(Texts(ps)[i], d) == Ok(ps[i])
    {
      RoundTripIff(ps[i], d);
    }
    ParseAllIs(Texts(ps), d);
    assert ParseAll(Texts(ps), d).value == ps;
  }

  /** What was formatted reads back to the same privilege exactly when this is canonical. */
  lemma FormatAgainIff(text: string, d: string)
    requires Parse(text, d).Ok?
    ensures ParseAll([ToText(Parse(text, d).value)], d) == Ok([Parse(text, d).value]) <==>
            Canonical(Parse(text, d).value, d)
  {
    hide Parse, ToText, Canonical;
    var p := Parse(text, d).value;
    RoundTripIff(p, d);
    ParseOne(ToText(p), d);
  }

  /** A string is left alone by the formatter exactly when it is the text of a canonical privilege; that need not be the
      privilege it was formatted from. */
  lemma FormatStableIff(text: string, d: string)
    ensures Format([text], d) == Ok([text]) <==> exists q :: Canonical(q, d) && ToText(q) == text
  {
    hide Parse, ToText, Canonical;
    ParseOne(text, d);
    if Format([text], d) == Ok([text]) {
      var q := Parse(text, d).value;
      assert Texts([q])[0] == ToText(q);
      RoundTripIff(q, d);
    }
    if q :| Canonical(q, d) && ToText(q) == text {
      FormatKeepsCanonical([q], d);
      assert Texts([q]) == [text];
    }
  }

  /** A system privilege comes back from its text exactly when its name is plain. */
  lemma SystemRoundTripIff(p: Privilege, d: string)
    requires p.kind == System
    ensures Parse(ToText(p), d) == Ok(p) <==> PlainSystem(p)
  {
    hide Parse, ToText, CanonicalSystem, PlainSystem;
    RoundTripIff(p, d);
    PlainSystemIff(p);
  }

  /** Two canonical privileges with the same text are the same grant. */
  lemma TextInjective(p: Privilege, q: Privilege, d: string)
    requires Canonical(p, d) && Canonical(q, d) && ToText(p) == ToText(q)
    ensures p == q
  {
    hide Parse, ToText, Canonical;
    RoundTripIff(p, d);
    RoundTripIff(q, d);
  }

  ghost function TextSet(ps: set<Privilege>): set<string> {
    set p | p in ps :: ToText(p)
  }

  /** Comparing sets of canonical strings is comparing sets of grants. */
  lemma EqualStringsEqualGrants(ps: set<Privilege>, qs: set<Privilege>, d: string)
    requires forall p | p in ps + qs :: Canonical(p, d)
    ensures TextSet(ps) == TextSet(qs) <==> ps == qs
  {
    hide ToText, Canonical;
    if TextSet(ps) == TextSet(qs) {
      Included(ps, qs, d);
      Included(qs, ps, d);
    }
  }

  lemma Included(ps: set<Privilege>, qs: set<Privilege>, d: string)
    requires forall p | p in ps + qs :: Canonical(p, d)
    requires TextSet(ps) <= TextSet(qs)
    ensures ps <= qs
  {
    hide ToText, Canonical;
    forall p | p in ps
      ensures p in qs
    {
      assert ToText(p) in TextSet(ps);
      var q :| q in qs && ToText(q) == ToText(p);
      TextInjective(p, q, d);
    }
  }

  // ---------------------------------------------------------------- catalogue rows

  /** A row of GRANTED_PRIVILEGES. */
  datatype Row = Row(objectType: string, privilege: string, schemaName: Option<string>, objectName: Option<string>,
                     isGrantable: bool)

  function OrEmpty(s: Option<string>): string {
    match s case None => "" case Some(v) => v
  }

  predicate IsSpecialType(t: string) {
    t == "PSE" || t == "JWT PROVIDER" || t == "SAML PROVIDER" || t == "X509 PROVIDER"
  }

  /** handlePrivilegeRows. */
  function FromRow(r: Row): Privilege {
    var schema, obj := OrEmpty(r.schemaName), OrEmpty(r.objectName);
    if r.objectType == "SYSTEMPRIVILEGE" then Privilege(System, r.privilege, "", "", r.isGrantable)
    else if r.objectType == "SCHEMA" then Privilege(Schema, r.privilege, schema, "", r.isGrantable)
    else if r.objectType == "SOURCE" then Privilege(Source, r.privilege, obj, "", r.isGrantable)
    else if r.objectType == "USERGROUP" then Privilege(UserGroup, r.privilege, obj, "", r.isGrantable)
    else if r.objectType == "CLIENTSIDE ENCRYPTION COLUMN KEY"
        then Privilege(ColumnKey, r.privilege, obj, "", r.isGrantable)
    else if r.objectType == "STRUCTURED_PRIVILEGE"
        then Privilege(Structured, "STRUCTURED PRIVILEGE", obj, "", r.isGrantable)
    else if IsSpecialType(r.objectType) then Privilege(Object, r.privilege, r.objectType + " " + obj, "", r.isGrantable)
    else Privilege(Object, r.privilege, schema, obj, r.isGrantable)
  }

  /** Rows whose names the language can carry. */
  ghost predicate WellFormedRow(r: Row) {
    var obj := OrEmpty(r.objectName);
    if r.objectType == "SYSTEMPRIVILEGE" then PlainSystem(FromRow(r))
    else if r.objectType == "SCHEMA" || r.objectType == "SOURCE" then NameShape(r.privilege)
    else if r.objectType == "USERGROUP" then true
    else if r.objectType == "CLIENTSIDE ENCRYPTION COLUMN KEY" then r.privilege == "USAGE" && Bare(obj)
    else if r.objectType == "STRUCTURED_PRIVILEGE" then Bare(obj)
    else if IsSpecialType(r.objectType) then NameShape(r.privilege) && Bare(obj)
    else NameShape(r.privilege) && obj != ""
  }

  /** The privilege a record stands for: the printer ignores the name of a usergroup privilege. */
  function Normal(p: Privilege): Privilege {
    if p.kind == UserGroup then p.(name := "USERGROUP OPERATOR") else p
  }

  lemma SpecialTypePrefix(t: string, x: string)
    requires IsSpecialType(t)
    ensures SpecialPrefix(t + " " + x) == Some(t + " ") && (t + " " + x)[|t + " "|..] == x
  {
    TypeLiterals();
    assert t + " " <= t + " " + x;
    assert (t + " " + x)[0] == t[0];
  }

  lemma TypeLiterals()
    ensures "PSE" + " " == "PSE " && "JWT PROVIDER" + " " == "JWT PROVIDER "
    ensures "SAML PROVIDER" + " " == "SAML PROVIDER " && "X509 PROVIDER" + " " == "X509 PROVIDER "
  {}

  lemma RowCanonical(r: Row, d: string)
    requires WellFormedRow(r)
    ensures Canonical(Normal(FromRow(r)), d) && ToText(Normal(FromRow(r))) == ToText(FromRow(r))
  {
    hide NameShape, Bare, CanonicalSystem, SpecialPrefix, PlainSystem;
    if r.objectType == "SYSTEMPRIVILEGE" {
      PlainIsCanonical(FromRow(r));
    }
    if IsSpecialType(r.objectType) {
      SpecialTypePrefix(r.objectType, OrEmpty(r.objectName));
    }
  }

  /** What QueryPrivileges reports for a well-formed row is left alone by the formatter that prepares the
      desired side, so observed and desired strings can be compared. */
  lemma RowIsFixedPoint(r: Row, d: string)
    requires WellFormedRow(r)
    ensures Format([ToText(FromRow(r))], d) == Ok([ToText(FromRow(r))])
  {
    hide Canonical, ToText, WellFormedRow, Format;
    RowCanonical(r, d);
    var p := Normal(FromRow(r));
    FormatKeepsCanonical([p], d);
    assert Texts([p]) == [ToText(p)];
  }

  /** The columns that HANA fills for an object type, and no others. */
  predicate Tidy(r: Row) {
    if r.objectType == "SYSTEMPRIVILEGE" then r.schemaName.None? && r.objectName.None?
    else if r.objectType == "SCHEMA" then r.schemaName.Some? && r.objectName.None?
    else if OnlyNamed(r.objectType) then r.schemaName.None? && r.objectName.Some?
    else r.schemaName.Some? && r.objectName.Some?
  }

  /** Types of objects that belong to no schema. */
  predicate OnlyNamed(t: string) {
    t == "SOURCE" || t == "USERGROUP" || t == "CLIENTSIDE ENCRYPTION COLUMN KEY" || t == "STRUCTURED_PRIVILEGE" ||
        IsSpecialType(t)
  }

  /** Schema and object, as the columns of the row a privilege comes from. */
  function ColumnsOf(p: Privilege): (Option<string>, Option<string>) {
    match p.kind
    case System => (None, None)
    case Schema => (Some(p.identifier), None)
    case Object =>
      if p.subIdentifier != "" then (Some(p.identifier), Some(p.subIdentifier))
      else (None, match SpecialPrefix(p.identifier) case Some(k) => Some(p.identifier[|k|..]) case None => None)
    case _ => (None, Some(p.identifier))
  }

  lemma RowColumns(r: Row)
    requires WellFormedRow(r) && Tidy(r)
    ensures (r.schemaName, r.objectName) == ColumnsOf(FromRow(r)) && r.isGrantable == FromRow(r).isGrantable
    ensures FromRow(r).kind != Structured ==> FromRow(r).name == r.privilege
    ensures FromRow(r).kind == UserGroup ==> r.objectType == "USERGROUP"
    ensures FromRow(r).kind == Structured ==> r.objectType == "STRUCTURED_PRIVILEGE"
  {
    hide ToText, Canonical, NameShape, Bare, PlainSystem, SpecialPrefix;
    if IsSpecialType(r.objectType) {
      SpecialColumns(r);
    }
  }

  lemma SpecialColumns(r: Row)
    requires IsSpecialType(r.objectType) && Tidy(r)
    ensures (r.schemaName, r.objectName) == ColumnsOf(FromRow(r)) && r.isGrantable == FromRow(r).isGrantable
    ensures FromRow(r).kind == Object && FromRow(r).name == r.privilege
  {
    hide SpecialPrefix;
    SpecialTypePrefix(r.objectType, OrEmpty(r.objectName));
    SpecialTypeRow(r.objectType, r.privilege, OrEmpty(r.objectName), r.isGrantable);
  }

  /** The text of a row determines its columns, but for the type of a schema object and the name of a privilege on a
      usergroup or of a structured privilege: no two grants of the catalogue are reported alike. */
  lemma RowDetermined(r: Row, s: Row, d: string)
    requires WellFormedRow(r) && WellFormedRow(s) && Tidy(r) && Tidy(s) && ToText(FromRow(r)) == ToText(FromRow(s))
    ensures r.schemaName == s.schemaName && r.objectName == s.objectName && r.isGrantable == s.isGrantable
    ensures r.objectType != "USERGROUP" && r.objectType != "STRUCTURED_PRIVILEGE" ==> r.privilege == s.privilege
  {
    hide ToText, Canonical, WellFormedRow, Tidy, FromRow, SpecialPrefix;
    RowCanonical(r, d);
    RowCanonical(s, d);
    TextInjective(Normal(FromRow(r)), Normal(FromRow(s)), d);
    RowColumns(r);
    RowColumns(s);
  }

  /** The row in which the catalogue shows a grant. */
  function RowOf(p: Privilege): Row {
    match p.kind
    case System => Row("SYSTEMPRIVILEGE", p.name, None, None, p.isGrantable)
    case Schema => Row("SCHEMA", p.name, Some(p.identifier), None, p.isGrantable)
    case Source => Row("SOURCE", p.name, None, Some(p.identifier), p.isGrantable)
    case UserGroup => Row("USERGROUP", p.name, None, Some(p.identifier), p.isGrantable)
    case ColumnKey => Row("CLIENTSIDE ENCRYPTION COLUMN KEY", p.name, None, Some(p.identifier), p.isGrantable)
    case Structured => Row("STRUCTURED_PRIVILEGE", p.name, None, Some(p.identifier), p.isGrantable)
    case Object =>
      match SpecialPrefix(p.identifier)
      case Some(k) =>
        if p.subIdentifier == "" then Row(k[..|k| - 1], p.name, None, Some(p.identifier[|k|..]), p.isGrantable)
        else Row("TABLE", p.name, Some(p.identifier), Some(p.subIdentifier), p.isGrantable)
      case None => Row("TABLE", p.name, Some(p.identifier), Some(p.subIdentifier), p.isGrantable)
  }

  /** Grants that a row can show: no schema or object where the type has none. */
  predicate HasRow(p: Privilege) {
    match p.kind
    case System => p.identifier == "" && p.subIdentifier == ""
    case Object => true
    case Structured => p.subIdentifier == "" && p.name == "STRUCTURED PRIVILEGE"
    case _ => p.subIdentifier == ""
  }

  /** The row of a grant is read as this grant. */
  lemma RowOfIsRead(p: Privilege)
    requires HasRow(p)
    ensures FromRow(RowOf(p)) == p && Tidy(RowOf(p))
  {
    if p.kind == Object && p.subIdentifier == "" && SpecialPrefix(p.identifier).Some? {
      SpecialRow(p);
    }
  }

  lemma SpecialRow(p: Privilege)
    requires p.kind == Object && p.subIdentifier == "" && SpecialPrefix(p.identifier).Some?
    ensures FromRow(RowOf(p)) == p && Tidy(RowOf(p))
  {
    hide FromRow, Tidy, IsSpecialType;
    var k := SpecialPrefix(p.identifier).value;
    PrefixIsType(p.identifier);
    SpecialTypeRow(k[..|k| - 1], p.name, p.identifier[|k|..], p.isGrantable);
    assert k + p.identifier[|k|..] == p.identifier;
  }

  lemma PrefixIsType(x: string)
    requires SpecialPrefix(x).Some?
    ensures var k := SpecialPrefix(x).value; |k| > 0 && k <= x && IsSpecialType(k[..|k| - 1]) && k[..|k| - 1] + " " == k
  {
    TypeLiterals();
  }

  lemma SpecialTypeRow(t: string, n: string, x: string, g: bool)
    requires IsSpecialType(t)
    ensures FromRow(Row(t, n, None, Some(x), g)) == Privilege(Object, n, t + " " + x, "", g)
    ensures Tidy(Row(t, n, None, Some(x), g))
  {}

  lemma ParsedHasRow(text: string, d: string)
    requires Parse(text, d).Ok?
    ensures HasRow(Parse(text, d).value)
  {
    hide Match, Expr, PATTERNS, FirstMatch, HasOn, HasOption, Build;
    FoundShape(text);
    var f := FirstMatch(PATTERNS, text).value;
    BuiltHasRow(f.0, f.1, d);
  }

  lemma BuiltHasRow(id: PatternId, m: seq<string>, d: string)
    requires |m| == |Expr(id)|
    ensures HasRow(Build(id, m, d))
  {
    hide Clean;
  }

  lemma CanonicalHasRow(p: Privilege, d: string)
    requires Canonical(p, d)
    ensures HasRow(p)
  {
    hide NameShape, Bare, SpecialPrefix, SystemShape, Matches, HasOn, HasOption;
  }

  // ---------------------------------------------------------------- where it breaks down

  /** Special objects, column keys and structured privileges are printed without quotes. A quoted name is accepted, and
      what it formats to reads back as the same privilege exactly when the name needs no quotes. */
  lemma QuotedSpecialIff(k: string, n: string, x: string, g: bool, d: string)
    requires IsSpecial(k) && NameShape(n)
    ensures var p := Privilege(Object, n, k + x, "", g);
            && Parse(n + (" ON " + k) + Quoted(x) + OptionText(p), d) == Ok(p)
            && (Parse(ToText(p), d) == Ok(p) <==> Bare(x))
  {
    hide Lang, Parse, Quoted, NameShape, Clean, ToText, WithOption, PrintedIdent, Bare, OptionText;
    hide PATTERNS, Clause, NameRe, SpecialPattern, Build, SpecialPrefix;
    var p := Privilege(Object, n, k + x, "", g);
    OptionTextIs(p);
    NameLang(n);
    QuotedPrinted(x);
    SpecialClause(k);
    SpecialBelow(k);
    ParseTargeted(SpecialPattern(k), n, Quoted(x), OptionText(p), d);
    SpecialBuild(k, n, Clause(PATTERNS[SpecialPattern(k)]), Quoted(x), OptionText(p), d);
    RoundTripIff(p, d);
    PrefixOfSpecial(k, x);
  }

  lemma PrefixOfSpecial(k: string, x: string)
    requires IsSpecial(k)
    ensures SpecialPrefix(k + x) == Some(k) && (k + x)[|k|..] == x
  {
    assert (k + x)[0] == k[0];
  }

  lemma QuotedColumnKeyIff(x: string, g: bool, d: string)
    ensures var p := Privilege(ColumnKey, "USAGE", x, "", g);
            && Parse("USAGE" + " ON CLIENTSIDE ENCRYPTION COLUMN KEY " + Quoted(x) + OptionText(p), d) == Ok(p)
            && (Parse(ToText(p), d) == Ok(p) <==> Bare(x))
  {
    hide Lang, Parse, Quoted, Clean, ToText, WithOption, PrintedIdent, Bare, OptionText;
    var p := Privilege(ColumnKey, "USAGE", x, "", g);
    OptionTextIs(p);
    FixedNames();
    QuotedPrinted(x);
    ParseTargeted(1, "USAGE", Quoted(x), OptionText(p), d);
    RoundTripIff(p, d);
  }

  lemma QuotedStructuredIff(x: string, g: bool, d: string)
    ensures var p := Privilege(Structured, "STRUCTURED PRIVILEGE", x, "", g);
            && Parse("STRUCTURED PRIVILEGE " + Quoted(x) + OptionText(p), d) == Ok(p)
            && (Parse(ToText(p), d) == Ok(p) <==> Bare(x))
  {
    hide Parse, Quoted, Clean, ToText, WithOption, PrintedIdent, Bare, OptionText;
    var p := Privilege(Structured, "STRUCTURED PRIVILEGE", x, "", g);
    OptionTextIs(p);
    QuotedPrinted(x);
    ParseHead(Quoted(x), OptionText(p), d);
    RoundTripIff(p, d);
  }

  /** An unqualified quoted object is looked up in the default schema exactly unless its name has a dot and no white
      space: then the pattern for qualified objects cuts the quoted name in two. */
  lemma UnqualifiedObjectIff(n: string, x: string, d: string)
    requires NameShape(n)
    ensures Parse(n + " ON " + Quoted(x), d) == Ok(Privilege(Object, n, d, x, false)) <==> !('.' in x && NoSpace(x))
  {
    hide Lang, Parse, Quoted, NameShape, Clean, WithOption, PrintedIdent, Match, Expr, PATTERNS, FirstMatch, ClauseText;
    var q := Quoted(x);
    var s := n + " ON " + q;
    Clause0();
    assert s == n + ClauseText([]) + q + "";
    NameIsSolid(n);
    NameLang(n);
    QuotedPrinted(x);
    PlainKeywords();
    LatePatterns();
    OwnMatch(OnPlain, n, q, "");
    EarlierFail(9, n, q, "");
    EarlyAreTargeted();
    DottedCutIff(n, x);
    if !('.' in x && NoSpace(x)) {
      FirstMatchAt(PATTERNS, 9, s);
      ParseBy(s, OnPlain, Match(Expr(OnPlain), s).value, d);
    } else {
      FirstMatchAt(PATTERNS, 8, s);
      var m := Match(Expr(OnDotted), s).value;
      ParseBy(s, OnDotted, m, d);
      DottedMatchParts(s);
      DottedHead(m, n, [], q, "");
      CutIsOther(m[3], m[5], x);
    }
  }

  lemma EarlyAreTargeted()
    ensures |PATTERNS| == 12 && forall i | 0 <= i < 8 :: Targeted(PATTERNS[i])
  {}

  lemma DottedCutIff(n: string, x: string)
    requires NameShape(n)
    ensures Match(Expr(OnDotted), n + ClauseText([]) + Quoted(x) + "").Some? <==> '.' in x && NoSpace(x)
  {
    hide NameShape, Match, Expr, ClauseText, Quoted;
    if '.' in x && NoSpace(x) {
      DottedCut(n, x);
    }
    if Match(Expr(OnDotted), n + ClauseText([]) + Quoted(x) + "").Some? {
      CutHasDot(n, x);
    }
  }

  lemma DottedCut(n: string, x: string)
    requires NameShape(n) && NoSpace(x) && '.' in x
    ensures Match(Expr(OnDotted), n + ClauseText([]) + Quoted(x) + "").Some?
  {
    hide NameShape, Match, Expr, ClauseText, Escape;
    EscapeKeeps(x, QUOTE);
    var e := Escape(x, QUOTE);
    var i :| 0 <= i < |e| && e[i] == '.';
    var g1, g2 := [QUOTE] + e[..i], e[i + 1..] + [QUOTE];
    assert e == e[..i] + "." + e[i + 1..];
    assert Quoted(x) == g1 + "." + g2;
    assert NoSpace(g1) && NoSpace(g2);
    CutSplits(n, g1, g2);
    MatchComplete(Expr(OnDotted), ["", n, ClauseText([]), g1, ".", g2, "", ""], n + ClauseText([]) + Quoted(x) + "");
  }

  lemma CutHasDot(n: string, x: string)
    requires NameShape(n) && Match(Expr(OnDotted), n + ClauseText([]) + Quoted(x) + "").Some?
    ensures '.' in x && NoSpace(x)
  {
    hide NameShape, Match, Expr, ClauseText, Quoted;
    var s := n + ClauseText([]) + Quoted(x) + "";
    DottedMatchParts(s);
    var m := Match(Expr(OnDotted), s).value;
    NameIsSolid(n);
    QuotedPrinted(x);
    DottedHead(m, n, [], Quoted(x), "");
    DotInside(m[3], m[5], x);
  }

  lemma DotInside(g1: string, g2: string, x: string)
    requires g1 + "." + g2 == Quoted(x) && IdentShape(g1) && IdentShape(g2)
    ensures '.' in x && NoSpace(x)
  {
    hide Escape, IsQuoted;
    CutNotQuoted(x, g1, g2);
    EscapeKeeps(x, QUOTE);
    var e := Escape(x, QUOTE);
    var q := [QUOTE] + e + [QUOTE];
    assert q == g1 + "." + g2;
    assert q[|g1|] == '.';
    assert e[|g1| - 1] == '.';
    forall i | 0 <= i < |e|
      ensures !IsSpace(e[i])
    {
      assert e[i] == q[i + 1];
    }
  }

  lemma CutSplits(n: string, g1: string, g2: string)
    requires NameShape(n) && g1 != "" && g2 != "" && NoSpace(g1) && NoSpace(g2)
    ensures Splits(Expr(OnDotted), ["", n, ClauseText([]), g1, ".", g2, "", ""],
                   n + ClauseText([]) + (g1 + "." + g2) + "")
  {
    hide Lang, OptionRe, ClauseRe, ClauseText, Upper, Flat;
    SpacesLang("");
    NameLang(n);
    ClauseIntro([]);
    IdentLang(g1);
    IdentLang(g2);
    DotLang(".");
    UpperId("GRANT");
    OptionIntro("GRANT");
    Flat8(["", n, ClauseText([]), g1, ".", g2, "", ""]);
    assert "" + n + ClauseText([]) + g1 + "." + g2 + "" + "" == n + ClauseText([]) + (g1 + "." + g2) + "";
  }

  /** The second part has a dot less than the name. */
  lemma CutIsOther(g1: string, g2: string, x: string)
    requires g1 + "." + g2 == Quoted(x)
    ensures Clean(g2) != x
  {
    hide Clean, Quoted;
    CountQuoted(x, '.');
    CountClean(g2, '.');
    CountAppend(g1 + ".", g2, '.');
    CountAppend(g1, ".", '.');
    assert Count(".", '.') == 1;
  }

  /** The text of a privilege on a PSE with a blank in its name cannot be read. */
  lemma SpacedPseUnreadable(n: string, d: string)
    requires NameShape(n)
    ensures Parse(ToText(Privilege(Object, n, "PSE A B", "", false)), d).Err?
  {
    hide Parse, ToText, NameShape, Match, Expr, Matches, HasOn, HasOption, Targets, Spelled, SpelledOther;
    var s := n + " ON PSE A B";
    SpacedPseText(n);
    SpacedPseOn(n);
    AcceptedIff(s, d);
    forall id: PatternId | id != OfSystem
      ensures !Matches(id, s)
    {
      MatchesIff(id, s);
      SpacedPseFails(id, n);
    }
    assert !Targets(s) by { NoTarget(s); }
    TargetsSpelled(s);
  }

  lemma NoTarget(s: string)
    requires forall id: PatternId | id != OfSystem :: !Matches(id, s)
    ensures !Targets(s)
  {
    hide Matches;
  }

  lemma SpacedPseText(n: string)
    ensures ToText(Privilege(Object, n, "PSE A B", "", false)) == n + " ON PSE A B"
  {
    var x := "PSE A B";
    assert "PSE " <= x && x[|"PSE "|..] == "A B";
    assert " ON " + "PSE " + "A B" == " ON PSE A B";
    assert n + " ON PSE A B" + "" == n + " ON PSE A B";
  }

  lemma SpacedPseOn(n: string)
    requires NameShape(n)
    ensures HasOn(n + " ON PSE A B")
  {
    var s := n + " ON PSE A B";
    TrimSpaceIff(s);
    LetterNotSpace(n[0]);
    assert s[|s| - 1] == 'B';
    var u := Upper(s);
    assert u[|n|..][..4] == " ON ";
  }

  lemma LetterNotSpace(c: char)
    requires IsLetter(c)
    ensures !IsUnicodeSpace(c)
  {}

  lemma SpacedPseHead(n: string)
    requires NameShape(n)
    ensures var h := n + " ON PSE A ";
            EndsSpace(h) && QUOTE !in h && '.' !in h && HeadWord(h) == "A" && h + "B" == n + " ON PSE A B"
  {
    hide HeadWord;
    HeadWordPlain(n + " ON PSE", " ", "A", " ");
    assert n + " ON PSE" + (" " + "A" + " ") == n + " ON PSE A ";
    NameIsSolid(n);
  }

  lemma SpacedPseFails(id: PatternId, n: string)
    requires NameShape(n) && id != OfSystem
    ensures Match(Expr(id), n + " ON PSE A B").None?
  {
    hide Lang, ClauseRe, OptionRe, Match, NameShape, HeadWord, Upper, Keywords, NameRe;
    var s, h := n + " ON PSE A B", n + " ON PSE A ";
    SpacedPseHead(n);
    assert h + "B" + "" == s;
    UpperId("GRANT");
    UpperId("A");
    UpperId("PRIVILEGE");
    if Match(Expr(id), s).Some? {
      var m := Match(Expr(id), s).value;
      if id == OfStructured {
        StructuredMatchParts(s);
        TailUnique(m[0], m[1], m[2], m[3], h, "B", "", "GRANT");
      } else if id == OnDotted {
        DottedMatchParts(s);
        NameIsSolid(m[1]);
        ClauseMatchEnds(m[0] + m[1], m[2], []);
        HeadWordOfClause(m[0] + m[1], m[2], []);
        DottedTail(m[0] + m[1] + m[2], m[3], m[5], m[6], m[7], h, "B", "", "GRANT");
      } else {
        TargetedParts(id, s);
        KeywordsProper(id);
        ClauseMatchEnds(m[0] + m[1], m[2], Keywords(id));
        HeadWordOfClause(m[0] + m[1], m[2], Keywords(id));
        TailUnique(m[0] + m[1] + m[2], m[3], m[4], m[5], h, "B", "", "GRANT");
        LastWordNotA(Keywords(id));
      }
    }
  }

  lemma LastWordNotA(kws: seq<string>)
    requires exists id: PatternId :: kws == Keywords(id)
    ensures LastWord(kws) != "A"
  {}
}
