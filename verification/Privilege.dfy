/** The privilege language of internal/clients/hana/privilege/privilege.go: the record, its printer, the ordered
    list of patterns and the parser that tries them. */
module Privileges {
  import opened Strings
  import opened Quoting
  import opened Regexp

  datatype Kind = System | Source | Schema | Object | UserGroup | ColumnKey | Structured

  datatype Privilege = Privilege(kind: Kind, name: string, identifier: string, subIdentifier: string, isGrantable: bool)

  datatype ParseError = UnknownPrivilege | InvalidGrantOption | InvalidAdminOption

  // ---------------------------------------------------------------- printing

  /** The prefix that marks an identifier as a special object, tested in this order. */
  function SpecialPrefix(identifier: string): Option<string> {
    if HasPrefix(identifier, "PSE ") then Some("PSE ")
    else if HasPrefix(identifier, "JWT PROVIDER ") then Some("JWT PROVIDER ")
    else if HasPrefix(identifier, "SAML PROVIDER ") then Some("SAML PROVIDER ")
    else if HasPrefix(identifier, "X509 PROVIDER ") then Some("X509 PROVIDER ")
    else None
  }

  /** What follows the privilege name in baseString; a structured privilege has its identifier there. */
  function Target(p: Privilege): string {
    match p.kind
    case System => ""
    case Source => " ON REMOTE SOURCE " + Quoted(p.identifier)
    case Schema => " ON SCHEMA " + Quoted(p.identifier)
    case Object =>
      if p.subIdentifier != "" then " ON " + Quoted(p.identifier) + "." + Quoted(p.subIdentifier)
      else
        (match SpecialPrefix(p.identifier)
         case Some(k) => " ON " + k + p.identifier[|k|..]
         case None => " ON " + Quoted(p.identifier))
    case UserGroup => " ON USERGROUP " + Quoted(p.identifier)
    case ColumnKey => " ON CLIENTSIDE ENCRYPTION COLUMN KEY " + p.identifier
    case Structured => " " + p.identifier
  }

  /** Privilege.baseString. */
  function BaseString(p: Privilege): string {
    (if p.kind == UserGroup then "USERGROUP OPERATOR" else p.name) + Target(p)
  }

  function OptionText(p: Privilege): string {
    if !p.isGrantable then "" else if p.kind == System then " WITH ADMIN OPTION" else " WITH GRANT OPTION"
  }

  /** Privilege.String. */
  function ToText(p: Privilege): string {
    BaseString(p) + OptionText(p)
  }

  // ---------------------------------------------------------------- patterns

  const WS: Regex := Star(One(Space), false)
  const GAP: Regex := Cat(One(Space), WS)
  const NAME: Regex := Cat(One(Letter), Alt(Cat(Star(One(LetterOrSpace), true), One(Letter)), Eps))
  const DOT: Regex := One(Exactly('.'))
  const QUOTES: Regex := One(Exactly(QUOTE))
  const BODY: Regex := Star(Alt(One(NonQuote), Cat(QUOTES, QUOTES)), false)
  const DELIMITED: Regex := Cat(QUOTES, Cat(BODY, QUOTES))
  const BARE: Regex := Cat(One(NonSpace), Star(One(NonSpace), false))
  const IDENT: Regex := Alt(DELIMITED, BARE)
  const SYSTEM_NAME: Regex :=
    Cat(One(Letter), Cat(Alt(Cat(Star(One(WordOrSpace), true), One(Word)), Eps),
                         Alt(Cat(DOT, Cat(One(Letter), Star(One(Word), false))), Eps)))

  function ThreeWords(a: string, b: string, c: string): Regex {
    Alt(Cat(GAP, Cat(AnyCase(a), Cat(GAP, Cat(AnyCase(b), Cat(GAP, AnyCase(c)))))), Eps)
  }

  /** adminOptionRegex and grantOptionRegex. */
  function OptionRe(w: string): Regex {
    ThreeWords("WITH", w, "OPTION")
  }

  /** `\s+ON\s+` followed by each keyword and `\s+`. */
  function ClauseRe(kws: seq<string>): Regex {
    if kws == [] then Cat(GAP, Cat(AnyCase("ON"), GAP))
    else Cat(ClauseRe(kws[..|kws| - 1]), Cat(AnyCase(kws[|kws| - 1]), GAP))
  }

  datatype PatternId =
    OnUserGroup | OnColumnKey | OnPse | OnJwt | OnSaml | OnX509 | OnSource | OnSchema | OnDotted | OnPlain |
        OfStructured | OfSystem

  /** privilegePatterns, in the order they are tried. */
  const PATTERNS: seq<PatternId> :=
    [OnUserGroup, OnColumnKey, OnPse, OnJwt, OnSaml, OnX509, OnSource, OnSchema] +
        [OnDotted, OnPlain, OfStructured, OfSystem]

  function Keywords(id: PatternId): seq<string> {
    match id
    case OnUserGroup => ["USERGROUP"]
    case OnColumnKey => ["CLIENTSIDE", "ENCRYPTION", "COLUMN", "KEY"]
    case OnPse => ["PSE"]
    case OnJwt => ["JWT", "PROVIDER"]
    case OnSaml => ["SAML", "PROVIDER"]
    case OnX509 => ["X509", "PROVIDER"]
    case OnSource => ["REMOTE", "SOURCE"]
    case OnSchema => ["SCHEMA"]
    case _ => []
  }

  function NameRe(id: PatternId): Regex {
    match id
    case OnUserGroup => Cat(AnyCase("USERGROUP"), Cat(GAP, AnyCase("OPERATOR")))
    case OnColumnKey => AnyCase("USAGE")
    case _ => NAME
  }

  /** The expression of a pattern, one element per capture and per part between captures. */
  function Expr(id: PatternId): seq<Regex> {
    match id
    case OnDotted => [WS, NAME, ClauseRe([]), IDENT, DOT, IDENT, OptionRe("GRANT"), WS]
    case OfStructured =>
      [Cat(WS, Cat(AnyCase("STRUCTURED"), Cat(GAP, Cat(AnyCase("PRIVILEGE"), GAP)))), IDENT, OptionRe("GRANT"), WS]
    case OfSystem => [WS, SYSTEM_NAME, OptionRe("ADMIN"), WS]
    case _ => [WS, NameRe(id), ClauseRe(Keywords(id)), IDENT, OptionRe("GRANT"), WS]
  }

  /** The build function of a pattern, applied to the segments of a match. */
  function Build(id: PatternId, m: seq<string>, defaultSchema: string): Privilege
    requires |m| == |Expr(id)|
  {
    match id
    case OnUserGroup => Privilege(UserGroup, m[1], Clean(m[3]), "", m[4] != "")
    case OnColumnKey => Privilege(ColumnKey, "USAGE", Clean(m[3]), "", m[4] != "")
    case OnPse => Privilege(Object, m[1], "PSE " + Clean(m[3]), "", m[4] != "")
    case OnJwt => Privilege(Object, m[1], "JWT PROVIDER " + Clean(m[3]), "", m[4] != "")
    case OnSaml => Privilege(Object, m[1], "SAML PROVIDER " + Clean(m[3]), "", m[4] != "")
    case OnX509 => Privilege(Object, m[1], "X509 PROVIDER " + Clean(m[3]), "", m[4] != "")
    case OnSource => Privilege(Source, m[1], Clean(m[3]), "", m[4] != "")
    case OnSchema => Privilege(Schema, m[1], Clean(m[3]), "", m[4] != "")
    case OnDotted => Privilege(Object, m[1], Clean(m[3]), Clean(m[5]), m[6] != "")
    case OnPlain => Privilege(Object, m[1], defaultSchema, Clean(m[3]), m[4] != "")
    case OfStructured => Privilege(Structured, "STRUCTURED PRIVILEGE", Clean(m[1]), "", m[2] != "")
    case OfSystem => Privilege(System, m[1], "", "", m[2] != "")
  }

  // ---------------------------------------------------------------- parsing

  /** The first pattern that matches, with its segments. */
  function FirstMatch(ids: seq<PatternId>, s: string): (r: Option<(PatternId, seq<string>)>)
    ensures r.Some? ==> r.value.0 in ids && Match(Expr(r.value.0), s) == Some(r.value.1)
  {
    if ids == [] then None
    else
      match Match(Expr(ids[0]), s)
      case Some(m) => Some((ids[0], m))
      case None => FirstMatch(ids[1..], s)
  }

  predicate HasOn(s: string) {
    Contains(Upper(TrimSpace(s)), " ON ")
  }

  predicate HasOption(s: string, w: string) {
    HasSuffix(Upper(TrimSpace(s)), "WITH " + w + " OPTION")
  }

  /** The errors after the loop over the patterns. */
  function Rejected(s: string): ParseError {
    if !HasOn(s) && HasOption(s, "GRANT") then InvalidAdminOption
    else if HasOn(s) && HasOption(s, "ADMIN") then InvalidAdminOption
    else UnknownPrivilege
  }

  /** parsePrivilegeString. */
  function Parse(s: string, defaultSchema: string): Result<Privilege, ParseError> {
    match FirstMatch(PATTERNS, s)
    case None => Err(Rejected(s))
    case Some((id, m)) =>
      var p := Build(id, m, defaultSchema);
      if p.kind == System && HasOn(s) then Err(Rejected(s))
      else if p.kind == System && HasOption(s, "GRANT") then Err(InvalidGrantOption)
      else Ok(p)
  }
}
