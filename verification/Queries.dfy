/** The texts of the grouped GRANT and REVOKE statements, and what the database reads in them. */
module Queries {
  import opened Strings
  import opened Privileges
  import opened RoundTrip
  import opened Language
  import opened Grouping
  import opened Statements
  import opened Grants
  import opened Execution

  /** The query of GrantPrivileges for a group. */
  function GrantQuery(g: Group, grantee: string): string {
    "GRANT " + g.body + " TO " + grantee +
    (if !g.isGrantable then "" else if g.kind == System then " WITH ADMIN OPTION" else " WITH GRANT OPTION")
  }

  /** The query of RevokePrivileges for a group. */
  function RevokeQuery(g: Group, grantee: string): string {
    "REVOKE " + g.body + " FROM " + grantee
  }

  function GrantQueries(gs: seq<Group>, grantee: string): (r: seq<string>)
    ensures |r| == |gs| && forall i | 0 <= i < |gs| :: r[i] == GrantQuery(gs[i], grantee)
  {
    seq(|gs|, i requires 0 <= i < |gs| => GrantQuery(gs[i], grantee))
  }

  function RevokeQueries(gs: seq<Group>, grantee: string): (r: seq<string>)
    ensures |r| == |gs| && forall i | 0 <= i < |gs| :: r[i] == RevokeQuery(gs[i], grantee)
  {
    seq(|gs|, i requires 0 <= i < |gs| => RevokeQuery(gs[i], grantee))
  }

  // ---------------------------------------------------------------- reading a query

  datatype OptionKind = NoOption | AdminOption | GrantOption

  /** Reference reader of a GRANT statement to the grantee: its body and its option. */
  function ReadGrant(text: string, grantee: string): Option<(string, OptionKind)> {
    var to := " TO " + grantee;
    if !("GRANT " <= text) then None
    else
      var rest := text[|"GRANT "|..];
      if HasSuffix(rest, to + " WITH ADMIN OPTION") then Some((rest[..|rest| - |to| - 18], AdminOption))
      else if HasSuffix(rest, to + " WITH GRANT OPTION") then Some((rest[..|rest| - |to| - 18], GrantOption))
      else if HasSuffix(rest, to) then Some((rest[..|rest| - |to|], NoOption))
      else None
  }

  /** Reference reader of a REVOKE statement. */
  function ReadRevoke(text: string, grantee: string): Option<string> {
    var from := " FROM " + grantee;
    if !("REVOKE " <= text) then None
    else
      var rest := text[|"REVOKE "|..];
      if HasSuffix(rest, from) then Some(rest[..|rest| - |from|]) else None
  }

  /** What the text of a statement over privileges does. */
  function PrivilegeStatement(text: string, grantee: string): Statement<Privilege> {
    match ReadGrant(text, grantee)
    case Some((body, option)) => GrantTo(Denoted(body), option != NoOption)
    case None =>
      match ReadRevoke(text, grantee)
      case Some(body) => RevokeFrom(Denoted(body))
      case None => RevokeFrom({})
  }

  function PrivilegeStatements(texts: seq<string>, grantee: string): (r: seq<Statement<Privilege>>)
    ensures |r| == |texts| && forall i | 0 <= i < |texts| :: r[i] == PrivilegeStatement(texts[i], grantee)
  {
    seq(|texts|, i requires 0 <= i < |texts| => PrivilegeStatement(texts[i], grantee))
  }

  /** Going around `w`, no T is followed by an O. */
  predicate NoTO(w: string) {
    |w| == 18 && forall r, q | 0 <= r < 18 && 0 <= q < 18 && q == (r + 1) % 18 && w[r] == 'T' :: w[q] != 'O'
  }

  lemma OptionsHaveNoTO()
    ensures NoTO(" WITH ADMIN OPTION") && NoTO(" WITH GRANT OPTION")
  {}

  /** A text that is followed by `w` and ends in itself repeats `w`. */
  lemma {:induction false} Repeats(s: string, z: string, w: string, i: nat)
    requires |w| == 18 && |z| == 18 && z + s == s + w && i < |s|
    ensures s[i] == w[(i + 18 - |s|) % 18]
    decreases |s| - i
  {
    assert (z + s)[i + 18] == s[i];
    if i + 18 < |s| {
      assert (s + w)[i + 18] == s[i + 18];
      Repeats(s, z, w, i + 18);
    } else {
      assert (s + w)[i + 18] == w[i + 18 - |s|];
    }
  }

  lemma RepeatsTO(s: string, z: string, w: string)
    requires |w| == 18 && |z| == 18 && z + s == s + w && |s| > 2 && s[1] == 'T' && s[2] == 'O'
    ensures !NoTO(w)
  {
    Repeats(s, z, w, 1);
    Repeats(s, z, w, 2);
    var r := (1 + 18 - |s|) % 18;
    assert (2 + 18 - |s|) % 18 == (r + 1) % 18;
    assert w[r] == 'T' && w[(r + 1) % 18] == 'O';
  }

  /** A statement without option is not read as one with it, whatever body and grantee contain. */
  lemma NoOptionRead(body: string, grantee: string, w: string)
    requires |w| == 18 && NoTO(w)
    ensures var to := " TO " + grantee; !HasSuffix(body + to, to + w)
  {
    hide NoTO;
    var to := " TO " + grantee;
    if HasSuffix(body + to, to + w) {
      var z := FrontOf(body, to, w);
      RepeatsTO(to, z, w);
    }
  }

  lemma FrontOf(body: string, s: string, w: string) returns (z: string)
    requires |w| == 18 && HasSuffix(body + s, s + w)
    ensures |z| == 18 && z + s == s + w
  {
    var t := body + s;
    var k := |t| - |s + w|;
    z := body[k..];
    assert t[k..] == z + s;
  }

  lemma SuffixOf(a: string, b: string)
    ensures HasSuffix(a + b, b) && (a + b)[..|a + b| - |b|] == a
  {}

  /** Every GRANT statement reads back to its body and its option: ADMIN OPTION exactly for system privileges. */
  lemma GrantReadsBack(g: Group, grantee: string)
    ensures ReadGrant(GrantQuery(g, grantee), grantee) ==
            Some((g.body, if !g.isGrantable then NoOption else if g.kind == System then AdminOption else GrantOption))
  {
    hide HasSuffix, NoTO;
    var to := " TO " + grantee;
    var option := if !g.isGrantable then "" else if g.kind == System then " WITH ADMIN OPTION"
        else " WITH GRANT OPTION";
    var rest := g.body + (to + option);
    QueryParts(g, grantee, option);
    SuffixOf(g.body, to + option);
    OptionsHaveNoTO();
    assert to + "" == to;
    if !g.isGrantable {
      NoOptionRead(g.body, grantee, " WITH ADMIN OPTION");
      NoOptionRead(g.body, grantee, " WITH GRANT OPTION");
    } else {
      OtherOption(g.body + to, to);
      assert rest == g.body + to + option;
    }
  }

  lemma QueryParts(g: Group, grantee: string, option: string)
    requires option == if !g.isGrantable then "" else if g.kind == System then " WITH ADMIN OPTION"
                       else " WITH GRANT OPTION"
    ensures var rest := g.body + (" TO " + grantee + option);
            "GRANT " <= GrantQuery(g, grantee) && GrantQuery(g, grantee)[|"GRANT "|..] == rest
  {
    assert GrantQuery(g, grantee) == "GRANT " + (g.body + (" TO " + grantee + option));
  }

  lemma SuffixChar(s: string, t: string, k: nat)
    requires HasSuffix(s, t) && 0 < k <= |t|
    ensures s[|s| - k] == t[|t| - k]
  {
    assert s[|s| - |t|..][|t| - k] == s[|s| - k];
  }

  lemma OtherOption(a: string, to: string)
    ensures !HasSuffix(a + " WITH GRANT OPTION", to + " WITH ADMIN OPTION")
  {
    hide HasSuffix;
    var s, t := a + " WITH GRANT OPTION", to + " WITH ADMIN OPTION";
    assert s[|s| - 8] == 'T' && t[|t| - 8] == 'N';
    if HasSuffix(s, t) {
      SuffixChar(s, t, 8);
    }
  }

  lemma RevokeReadsBack(g: Group, grantee: string)
    ensures ReadRevoke(RevokeQuery(g, grantee), grantee) == Some(g.body)
    ensures ReadGrant(RevokeQuery(g, grantee), grantee) == None
  {
    hide HasSuffix;
    var from := " FROM " + grantee;
    assert RevokeQuery(g, grantee) == "REVOKE " + (g.body + from);
    assert RevokeQuery(g, grantee)[|"REVOKE "|..] == g.body + from;
    assert RevokeQuery(g, grantee)[0] == 'R';
    SuffixOf(g.body, from);
  }

  /** The statement of a group carries the option of its privileges, ADMIN OPTION exactly for system privileges. */
  lemma GroupQueryIs(ps: seq<Privilege>, keys: seq<GroupKey>, groups: seq<Group>, i: nat, p: Privilege, grantee: string)
    requires IsGrouping(ps, keys, groups) && i < |groups| && p in ps && KeyOf(p) == keys[i]
    ensures ReadGrant(GrantQuery(groups[i], grantee), grantee) ==
            Some((groups[i].body,
                  if !p.isGrantable then NoOption else if p.kind == System then AdminOption else GrantOption))
    ensures ReadRevoke(RevokeQuery(groups[i], grantee), grantee) == Some(groups[i].body)
  {
    hide ReadGrant, ReadRevoke, GrantQuery, RevokeQuery, NamesFor, KeySet;
    GrantReadsBack(groups[i], grantee);
    RevokeReadsBack(groups[i], grantee);
  }

  /** The statement of a single privilege, in words. */
  lemma SingleQuery(p: Privilege, grantee: string)
    requires Direct(p) && Canonical(BaseOf(p), "")
    ensures GrantQuery(GroupOf(KeyOf(p), [p.name]), grantee) ==
            "GRANT " + BaseString(p) + " TO " + grantee + OptionText(p)
    ensures RevokeQuery(GroupOf(KeyOf(p), [p.name]), grantee) == "REVOKE " + BaseString(p) + " FROM " + grantee
  {
    hide Canonical, BaseString;
    SentSelf(p);
    SameBase(p, BaseOf(p));
  }

  // ---------------------------------------------------------------- lists of statements

  /** The texts do what the groups stand for. */
  lemma QueriesMean(groups: seq<Group>, grantee: string)
    ensures PrivilegeStatements(GrantQueries(groups, grantee), grantee) == GrantsOf(groups)
    ensures PrivilegeStatements(RevokeQueries(groups, grantee), grantee) == RevokesOf(groups)
  {
    hide ReadGrant, ReadRevoke, GrantQuery, RevokeQuery, Denoted;
    forall i | 0 <= i < |groups|
      ensures PrivilegeStatement(GrantQuery(groups[i], grantee), grantee) == GrantOf(groups[i])
      ensures PrivilegeStatement(RevokeQuery(groups[i], grantee), grantee) == RevokeOf(groups[i])
    {
      GrantReadsBack(groups[i], grantee);
      RevokeReadsBack(groups[i], grantee);
    }
  }

  /** The first GRANT statements of some grouping, up to a failure; none if a text does not parse. */
  ghost predicate PrivilegesGranted(db: map<Privilege, bool>, texts: seq<string>, schema: string, grantee: string,
                                    after: map<Privilege, bool>, ok: bool) {
    match ParseAll(texts, schema)
    case Err(_) => !ok && after == db
    case Ok(ps) =>
      exists keys, groups ::
        && IsGrouping(ps, keys, groups)
        && ExecSome(db, PrivilegeStatements(GrantQueries(groups, grantee), grantee), after, ok)
  }

  ghost predicate PrivilegesRevoked(db: map<Privilege, bool>, texts: seq<string>, schema: string, grantee: string,
                                    after: map<Privilege, bool>, ok: bool) {
    match ParseAll(texts, schema)
    case Err(_) => !ok && after == db
    case Ok(ps) =>
      exists keys, groups ::
        && IsGrouping(ps, keys, groups)
        && ExecSome(db, PrivilegeStatements(RevokeQueries(groups, grantee), grantee), after, ok)
  }

  /** What the texts do is what the groups do. */
  lemma TextsExecute(db: map<Privilege, bool>, texts: seq<string>, schema: string, grantee: string,
                     after: map<Privilege, bool>, ok: bool)
    ensures PrivilegesGranted(db, texts, schema, grantee, after, ok) <==> Granting(db, texts, schema, after, ok)
    ensures PrivilegesRevoked(db, texts, schema, grantee, after, ok) <==> Revoking(db, texts, schema, after, ok)
  {
    hide ParseAll, IsGrouping, ExecSome, PrivilegeStatement, GrantQuery, RevokeQuery, Denoted;
    forall groups: seq<Group>
      ensures PrivilegeStatements(GrantQueries(groups, grantee), grantee) == GrantsOf(groups)
      ensures PrivilegeStatements(RevokeQueries(groups, grantee), grantee) == RevokesOf(groups)
    {
      QueriesMean(groups, grantee);
    }
  }
}
