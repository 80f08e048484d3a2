/** The pattern `name ON schema.object`, the only one whose identifiers can be cut in several ways: its match is
    decided by trying the quoted reading of the schema first. */
module Dotted {
  import opened Strings
  import opened Quoting
  import opened Regexp
  import opened Privileges
  import opened Grammar
  import opened Tokens
  import opened Tails
  import opened Matching

  lemma {:induction false} SuffixInToken(x: string, t: string)
    requires NoSpace(t)
    ensures HasSuffix(LastToken(x + t), t)
    decreases |t|
  {
    if t != "" {
      var n := |t| - 1;
      assert (x + t)[..|x + t| - 1] == x + t[..n];
      SuffixInToken(x, t[..n]);
      var r := LastToken(x + t[..n]);
      assert LastToken(x + t) == r + [t[n]];
      assert t == t[..n] + [t[n]];
    }
  }

  /** Where a dotted identifier starts after a head without quotes and dots. */
  lemma DottedStart(u: string, g: string, r: string, h: string, q: string)
    requires u + g + "." + r == h + q
    requires EndsSpace(u) && EndsSpace(h) && QUOTE !in u && QUOTE !in h && '.' !in h
    requires IdentShape(g) && q != "" && (q[0] == QUOTE || NoSpace(q))
    ensures u == h && g + "." + r == q
  {
    var t := h + q;
    assert t[|u| + |g|] == '.';
    assert forall i | 0 <= i < |h| :: t[i] == h[i];
    assert forall i | 0 <= i < |q| :: t[|h| + i] == q[i];
    assert forall i | 0 <= i < |u| :: t[i] == u[i];
    assert forall i | 0 <= i < |g| :: t[|u| + i] == g[i];
    assert |u| == |h|;
    assert u == t[..|u|] && h == t[..|h|];
    assert g + "." + r == t[|u|..] && q == t[|h|..];
  }

  /** Head, dotted identifier, option and trailing white space of a text that ends in `q` and `o`. */
  lemma DottedTail(u: string, g1: string, g2: string, o1: string, sp: string, h: string, q: string, o: string,
                   w: string)
    requires u + g1 + "." + g2 + o1 + sp == h + q + o
    requires EndsSpace(u) && EndsSpace(h) && QUOTE !in u && QUOTE !in h && '.' !in h
    requires IdentShape(g1) && IdentShape(g2) && q != "" && EndsSolid(q)
    requires q[0] == QUOTE == q[|q| - 1] || NoSpace(q)
    requires Lang(OptionRe(w), o1) && AllSpace(sp)
    requires o == "" || o == WithOption(w)
    requires IsToken(w) && Upper(w) == w && Upper(HeadWord(h)) != w
    ensures u == h && g1 + "." + g2 == q && o1 == o && sp == ""
  {
    hide Lang, Upper, LastToken, Peel, TrimEnd, WithOption, HeadWord;
    var y := u + g1 + "." + g2;
    assert EndsSolid(g2) && EndsSolid(y);
    EndUnique(y, o1, sp, h + q, o, w);
    if o1 != "" && o == "" {
      assert h + q + o == h + q;
      OptionNotHere(y, o1, h, q, w);
      assert false;
    }
    if o1 == "" && o != "" {
      assert y + o1 == y;
      DotNotInOption(u + g1, g2, h + q, o, w);
    }
    DottedStart(u, g1, g2, h, q);
  }

  lemma DotInToken(u: string, g: string)
    requires NoSpace(g)
    ensures '.' in LastToken(u + "." + g)
  {
    SuffixInToken(u, "." + g);
    assert u + "." + g == u + ("." + g);
    var t := LastToken(u + "." + g);
    assert t[|t| - 1 - |g|..][0] == '.';
  }

  lemma LastOfOption(x: string, w: string)
    ensures (x + WithOption(w))[|x + WithOption(w)| - 1] == 'N'
  {}

  lemma DotNotInOption(u: string, g: string, x: string, o: string, w: string)
    requires IdentShape(g) && EndsSolid(x) && o == WithOption(w) && IsToken(w) && Upper(w) == w
    ensures u + "." + g != x + o
  {
    hide Lang, Upper, WithOption, LastToken, Peel;
    if u + "." + g == x + o {
      LastOfOption(x, w);
      assert g[|g| - 1] == (u + "." + g)[|u + "." + g| - 1];
      DotInToken(u, g);
      OptionIntro(w);
      OptionPeel(x, o, w);
      UpperKeeps(LastToken(x + o));
    }
  }

  ghost predicate DottedParts(m: seq<string>, s: string) {
    && |m| == 8
    && s == m[0] + m[1] + m[2] + m[3] + m[4] + m[5] + m[6] + m[7]
    && AllSpace(m[0]) && NameShape(m[1]) && Lang(ClauseRe([]), m[2])
    && IdentShape(m[3]) && m[4] == "." && IdentShape(m[5]) && Lang(OptionRe("GRANT"), m[6]) && AllSpace(m[7])
  }

  lemma Flat8(m: seq<string>)
    requires |m| == 8
    ensures Flat(m) == m[0] + m[1] + m[2] + m[3] + m[4] + m[5] + m[6] + m[7]
  {
    var a, b := m[..6], m[6..];
    FlatAppend(a, b);
    Flat6(a);
    assert m == a + b;
    assert b[1..] == [m[7]];
    assert Flat([m[7]]) == m[7] + Flat([]);
    assert Flat(b) == m[6] + m[7];
    assert m[0] + m[1] + m[2] + m[3] + m[4] + m[5] + (m[6] + m[7]) ==
        m[0] + m[1] + m[2] + m[3] + m[4] + m[5] + m[6] + m[7];
  }

  lemma DottedMatchParts(s: string)
    requires Match(Expr(OnDotted), s).Some?
    ensures DottedParts(Match(Expr(OnDotted), s).value, s)
  {
    hide Lang, ClauseRe, OptionRe, Match;
    var rs, m := Expr(OnDotted), Match(Expr(OnDotted), s).value;
    MatchSound(rs, s);
    assert rs == [WS, NAME, ClauseRe([]), IDENT, DOT, IDENT, OptionRe("GRANT"), WS];
    assert Lang(rs[0], m[0]) && Lang(rs[1], m[1]) && Lang(rs[2], m[2]) && Lang(rs[3], m[3]);
    assert Lang(rs[4], m[4]) && Lang(rs[5], m[5]) && Lang(rs[6], m[6]) && Lang(rs[7], m[7]);
    Flat8(m);
    SpacesLang(m[0]);
    NameLang(m[1]);
    IdentLang(m[3]);
    DotLang(m[4]);
    IdentLang(m[5]);
    SpacesLang(m[7]);
  }

  lemma DotLang(t: string)
    ensures Lang(DOT, t) <==> t == "."
  {}

  /** On a text that ends in a clause, `q` and `o`, the dotted pattern needs the bare clause ` ON `. */
  lemma DottedHead(m: seq<string>, n: string, kws: seq<string>, q: string, o: string)
    requires DottedParts(m, n + ClauseText(kws) + q + o)
    requires SolidName(n) && Proper(kws)
    requires q != "" && EndsSolid(q) && (q[0] == QUOTE == q[|q| - 1] || NoSpace(q))
    requires o == "" || o == WithOption("GRANT")
    ensures kws == []
    ensures m[0] == "" && m[1] == n && m[2] == ClauseText(kws) && m[3] + "." + m[5] == q && m[6] == o && m[7] == ""
  {
    hide Lang, ClauseRe, OptionRe, ClauseText, WithOption, HeadWord, Upper;
    var v := m[0] + m[1];
    var u, h := v + m[2], n + ClauseText(kws);
    NameIsSolid(m[1]);
    ClauseEnds([], m[2]);
    UpperIdAll(kws);
    ClauseIntro(kws);
    ClauseEnds(kws, ClauseText(kws));
    HeadWordOfClause(n, ClauseText(kws), kws);
    NotGrant(kws);
    assert QUOTE !in u && QUOTE !in h && '.' !in h;
    assert EndsSpace(u) && EndsSpace(h);
    UpperId("GRANT");
    DottedTail(u, m[3], m[5], m[6], m[7], h, q, o, "GRANT");
    assert EndsSolid(v);
    ClauseUnique(v, m[2], [], n, kws);
    assert m[0] == "";
    assert m[1] == v[|m[0]|..] && m[2] == u[|v|..] && ClauseText(kws) == h[|n|..];
  }

  // ---------------------------------------------------------------- preference

  const AFTER_SCHEMA: seq<Regex> := [DOT, IDENT, OptionRe("GRANT"), WS]

  lemma QuotedSolid(a: string)
    ensures IdentShape(Quoted(a)) && EndsSolid(Quoted(a)) && Quoted(a)[0] == QUOTE == Quoted(a)[|Quoted(a)| - 1]
  {
    QuotedIsQuoted(a);
  }

  lemma AfterSchemaMatches(b: string, o: string)
    requires o == "" || o == WithOption("GRANT")
    ensures Match(AFTER_SCHEMA, "." + Quoted(b) + o).Some?
  {
    hide Lang, OptionRe, WithOption, Match, Upper, Quoted;
    var m := [".", Quoted(b), o, ""];
    DotLang(".");
    QuotedSolid(b);
    IdentLang(Quoted(b));
    UpperId("GRANT");
    OptionIntro("GRANT");
    SpacesLang("");
    Flat4(m);
    assert "." + Quoted(b) + o + "" == "." + Quoted(b) + o;
    MatchComplete(AFTER_SCHEMA, m, "." + Quoted(b) + o);
  }

  lemma Flat4(m: seq<string>)
    requires |m| == 4
    ensures Flat(m) == m[0] + m[1] + m[2] + m[3]
  {
    Flat3(m[1..]);
    assert m[0] + (m[1] + m[2] + m[3]) == m[0] + m[1] + m[2] + m[3];
  }

  /** When a quoted schema can be followed by the rest, the preferred match has a quoted schema. */
  lemma QuotedFirst(t: string, k: nat)
    requires k <= |t| && IsQuoted(t[..k])
    requires Match(AFTER_SCHEMA, t[k..]).Some?
    requires Match([IDENT] + AFTER_SCHEMA, t).Some?
    ensures IsQuoted(Match([IDENT] + AFTER_SCHEMA, t).value[0])
  {
    hide Lang, OptionRe, Prefixes;
    var rs := [IDENT] + AFTER_SCHEMA;
    assert rs[1..] == AFTER_SCHEMA;
    var d, ks := Prefixes(DELIMITED, t), Prefixes(IDENT, t);
    AltPrefixes(DELIMITED, BARE, t);
    DelimitedLang(t[..k]);
    PrefixesAreLang(DELIMITED, t, k);
    var j :| 0 <= j < |d| && d[j] == k;
    assert ks[j] == k;
    var i := FirstOfPicks(ks, rs, t);
    assert i <= j;
    assert ks[i] == d[i];
    PrefixesAreLang(DELIMITED, t, d[i]);
    DelimitedLang(t[..d[i]]);
  }

  lemma AltPrefixes(a: Regex, b: Regex, t: string)
    ensures Prefixes(Alt(a, b), t) == Prefixes(a, t) + Prefixes(b, t)
  {}

  /** The quoted schema is found exactly, whatever characters schema and object contain. */
  lemma SchemaUnique(g1: string, g2: string, a: string, b: string)
    requires IsQuoted(g1)
    requires g1 + "." + g2 == Quoted(a) + "." + Quoted(b)
    ensures g1 == Quoted(a) && g2 == Quoted(b)
  {
    hide Escape, IsBody;
    var c := g1[1..|g1| - 1];
    var y, z := "." + g2, "." + Quoted(b);
    var w := c + [QUOTE] + y;
    var v := Escape(a, QUOTE) + [QUOTE] + z;
    assert g1 == [QUOTE] + c + [QUOTE];
    assert g1 + "." + g2 == [QUOTE] + w;
    assert Quoted(a) + "." + Quoted(b) == [QUOTE] + v;
    assert w == ([QUOTE] + w)[1..] && v == ([QUOTE] + v)[1..];
    EscapeIsBody(a, QUOTE);
    BodyUnique(c, y, Escape(a, QUOTE), z, QUOTE);
    assert g2 == y[1..] && Quoted(b) == z[1..];
  }

  /** The segments of a printed object privilege with a schema. */
  lemma CutAt(x: string, y: string, o: string)
    ensures var t := x + "." + y + o; t[..|x|] == x && t[|x|..] == "." + y + o
  {}

  lemma EightParts(m: seq<string>)
    requires |m| == 8
    ensures m == [m[0], m[1], m[2], m[3], m[4], m[5], m[6], m[7]]
  {}

  lemma DottedMatch(n: string, a: string, b: string, o: string)
    requires NameShape(n) && (o == "" || o == WithOption("GRANT"))
    ensures Match(Expr(OnDotted), n + ClauseText([]) + (Quoted(a) + "." + Quoted(b)) + o)
         == Some(["", n, ClauseText([]), Quoted(a), ".", Quoted(b), o, ""])
  {
    hide Lang, OptionRe, ClauseRe, ClauseText, WithOption, Match, Quoted;
    var q := Quoted(a) + "." + Quoted(b);
    var s := n + ClauseText([]) + q + o;
    var rs := Expr(OnDotted);
    QuotedSolid(a);
    QuotedSolid(b);
    NameIsSolid(n);
    DottedSplits(n, a, b, o);
    MatchComplete(rs, ["", n, ClauseText([]), Quoted(a), ".", Quoted(b), o, ""], s);
    DottedMatchParts(s);
    var m := Match(rs, s).value;
    DottedHead(m, n, [], q, o);
    DottedDescend(s, m, n, q, o);
    var t := q + o;
    CutAt(Quoted(a), Quoted(b), o);
    AfterSchemaMatches(b, o);
    QuotedIsQuoted(a);
    QuotedFirst(t, |Quoted(a)|);
    assert m[3] == m[3..][0];
    SchemaUnique(m[3], m[5], a, b);
    EightParts(m);
  }

  lemma DottedSplits(n: string, a: string, b: string, o: string)
    requires NameShape(n) && (o == "" || o == WithOption("GRANT"))
    ensures Splits(Expr(OnDotted), ["", n, ClauseText([]), Quoted(a), ".", Quoted(b), o, ""],
                   n + ClauseText([]) + (Quoted(a) + "." + Quoted(b)) + o)
  {
    hide Lang, OptionRe, ClauseRe, ClauseText, WithOption, Quoted, Upper, Flat;
    var m := ["", n, ClauseText([]), Quoted(a), ".", Quoted(b), o, ""];
    SpacesLang("");
    NameLang(n);
    ClauseIntro([]);
    QuotedSolid(a);
    QuotedSolid(b);
    IdentLang(Quoted(a));
    IdentLang(Quoted(b));
    DotLang(".");
    UpperId("GRANT");
    OptionIntro("GRANT");
    Flat8(m);
    assert "" + n + ClauseText([]) + Quoted(a) + "." + Quoted(b) + o + ""
        == n + ClauseText([]) + (Quoted(a) + "." + Quoted(b)) + o;
  }

  /** The preferred match of the whole continues as the preferred match after the clause. */
  lemma DottedDescend(s: string, m: seq<string>, n: string, q: string, o: string)
    requires s == n + ClauseText([]) + q + o
    requires Match(Expr(OnDotted), s) == Some(m)
    requires m[0] == "" && m[1] == n && m[2] == ClauseText([])
    ensures Match([IDENT] + AFTER_SCHEMA, q + o) == Some(m[3..])
  {
    hide Lang, OptionRe, ClauseRe, ClauseText, Match, Splits;
    var rs := Expr(OnDotted);
    MatchSound(rs, s);
    assert s[0..] == s;
    MatchSound(rs[1..], s);
    var s1 := ClauseText([]) + q + o;
    assert s == n + s1;
    assert s[|n|..] == s1;
    assert m[1..][1..] == m[2..] && rs[1..][1..] == rs[2..];
    MatchSound(rs[2..], s1);
    assert s1 == ClauseText([]) + (q + o);
    assert s1[|ClauseText([])|..] == q + o;
    assert m[2..][1..] == m[3..] && rs[2..][1..] == [IDENT] + AFTER_SCHEMA;
  }
}
