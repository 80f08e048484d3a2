/** Which pattern matches a printed privilege, and with which segments. */
module Matching {
  import opened Strings
  import opened Regexp
  import opened Privileges
  import opened Grammar
  import opened Tokens
  import opened Tails

  /** The patterns of the form name, clause, identifier, option. */
  predicate Targeted(id: PatternId) {
    !id.OnDotted? && !id.OfStructured? && !id.OfSystem?
  }

  predicate SolidName(t: string) {
    t != "" && !IsSpace(t[0]) && EndsSolid(t) && QUOTE !in t && '.' !in t
  }

  // ---------------------------------------------------------------- keywords

  predicate Capitals(w: string) {
    w != "" && forall i | 0 <= i < |w| :: 'A' <= w[i] <= 'Z' || '0' <= w[i] <= '9'
  }

  lemma CapitalsProper(w: string)
    requires Capitals(w) && w != "ON" && w != "GRANT"
    ensures ProperWord(w)
  {
    UpperId(w);
  }

  lemma ObjectWords()
    ensures ProperWord("USERGROUP") && ProperWord("PSE") && ProperWord("SCHEMA") && ProperWord("REMOTE") &&
            ProperWord("SOURCE")
  {
    hide ProperWord;
    CapitalsProper("USERGROUP");
    CapitalsProper("PSE");
    CapitalsProper("SCHEMA");
    CapitalsProper("REMOTE");
    CapitalsProper("SOURCE");
  }

  lemma ProviderWords()
    ensures ProperWord("JWT") && ProperWord("SAML") && ProperWord("X509") && ProperWord("PROVIDER")
  {
    hide ProperWord;
    CapitalsProper("JWT"); CapitalsProper("SAML"); CapitalsProper("X509"); CapitalsProper("PROVIDER");
  }

  lemma ColumnKeyWords()
    ensures ProperWord("CLIENTSIDE") && ProperWord("ENCRYPTION") && ProperWord("COLUMN") && ProperWord("KEY")
  {
    hide ProperWord;
    CapitalsProper("CLIENTSIDE"); CapitalsProper("ENCRYPTION"); CapitalsProper("COLUMN"); CapitalsProper("KEY");
  }

  lemma KeywordsProper(id: PatternId)
    ensures Proper(Keywords(id))
  {
    hide ProperWord;
    ObjectWords();
    ProviderWords();
    ColumnKeyWords();
  }

  lemma KeywordsDistinct(a: PatternId, b: PatternId)
    requires Targeted(a) && Targeted(b) && Keywords(a) == Keywords(b)
    ensures a == b
  {
    assert |Keywords(a)| == |Keywords(b)|;
    assert Keywords(a) != [] ==> Keywords(a)[0] == Keywords(b)[0];
  }

  // ---------------------------------------------------------------- names

  lemma NameIsSolid(t: string)
    requires NameShape(t)
    ensures SolidName(t)
  {
    assert forall i | 0 <= i < |t| :: In(t[i], LetterOrSpace) && t[i] != QUOTE && t[i] != '.';
  }

  lemma UserGroupName(t: string)
    requires Lang(NameRe(OnUserGroup), t)
    ensures SolidName(t)
  {
    hide Lang, Upper, Capitals;
    var a, s, b := Cat3Elim(AnyCase("USERGROUP"), GAP, AnyCase("OPERATOR"), t);
    AnyCaseLang("USERGROUP", a);
    AnyCaseLang("OPERATOR", b);
    GapLang(s);
    CapitalWords();
    TwoWords(a, "USERGROUP", s, b, "OPERATOR");
  }

  lemma CapitalWords()
    ensures Capitals("USERGROUP") && Capitals("OPERATOR")
  {}

  lemma TwoWords(a: string, v: string, s: string, b: string, w: string)
    requires Upper(a) == v && Upper(b) == w && Capitals(v) && Capitals(w) && AllSpace(s)
    ensures SolidName(a + s + b)
  {
    CapitalsWord(a, v);
    CapitalsWord(b, w);
    assert (a + s + b)[0] == a[0];
  }

  lemma CapitalsWord(a: string, v: string)
    requires Upper(a) == v && Capitals(v)
    ensures SolidName(a)
  {
    UpperKeeps(a);
  }

  lemma TargetedName(id: PatternId, t: string)
    requires Targeted(id) && Lang(NameRe(id), t)
    ensures SolidName(t)
    ensures id.OnColumnKey? ==> Upper(t) == "USAGE"
    ensures !id.OnUserGroup? && !id.OnColumnKey? ==> NameShape(t)
  {
    match id
    case OnUserGroup => UserGroupName(t);
    case OnColumnKey => CapitalsWord(t, "USAGE");
    case _ =>
      NameLang(t);
      NameIsSolid(t);
  }

  // ---------------------------------------------------------------- segments

  lemma Flat6(m: seq<string>)
    requires |m| == 6
    ensures Flat(m) == m[0] + m[1] + m[2] + m[3] + m[4] + m[5]
  {
    var a, b := m[..3], m[3..];
    FlatAppend(a, b);
    Flat3(a);
    Flat3(b);
    assert m == a + b;
    assert m[0] + m[1] + m[2] + (m[3] + m[4] + m[5]) == m[0] + m[1] + m[2] + m[3] + m[4] + m[5];
  }

  lemma Flat3(m: seq<string>)
    requires |m| == 3
    ensures Flat(m) == m[0] + m[1] + m[2]
  {
    assert m[1..][1..] == [m[2]];
    assert Flat([m[2]]) == m[2] + Flat([]);
    assert Flat(m) == m[0] + (m[1] + m[2]);
  }

  lemma {:induction false} FlatAppend(a: seq<string>, b: seq<string>)
    ensures Flat(a + b) == Flat(a) + Flat(b)
  {
    if a == [] {
      assert a + b == b;
    } else {
      assert (a + b)[1..] == a[1..] + b;
      FlatAppend(a[1..], b);
    }
  }

  /** The parts of a match of a targeted pattern. */
  ghost predicate Parts(id: PatternId, m: seq<string>, s: string) {
    && |m| == 6
    && s == m[0] + m[1] + m[2] + m[3] + m[4] + m[5]
    && AllSpace(m[0]) && SolidName(m[1]) && Lang(ClauseRe(Keywords(id)), m[2])
    && IdentShape(m[3]) && Lang(OptionRe("GRANT"), m[4]) && AllSpace(m[5])
  }

  lemma TargetedParts(id: PatternId, s: string)
    requires Targeted(id) && Match(Expr(id), s).Some?
    ensures Parts(id, Match(Expr(id), s).value, s)
    ensures Lang(NameRe(id), Match(Expr(id), s).value[1])
  {
    hide Lang, ClauseRe, OptionRe, Keywords, NameRe, Match;
    var rs, m := Expr(id), Match(Expr(id), s).value;
    MatchSound(rs, s);
    assert rs == [WS, NameRe(id), ClauseRe(Keywords(id)), IDENT, OptionRe("GRANT"), WS];
    assert Lang(rs[0], m[0]) && Lang(rs[1], m[1]) && Lang(rs[2], m[2]) && Lang(rs[3], m[3]) && Lang(rs[4], m[4]) &&
        Lang(rs[5], m[5]);
    Flat6(m);
    SpacesLang(m[0]);
    TargetedName(id, m[1]);
    IdentLang(m[3]);
    SpacesLang(m[5]);
  }

  lemma HeadWordOfClause(v: string, cl: string, kws: seq<string>)
    requires Proper(kws) && Lang(ClauseRe(kws), cl)
    ensures Upper(HeadWord(v + cl)) == LastWord(kws)
    ensures EndsSpace(v + cl)
  {
    hide Lang, Upper, HeadWord;
    var c, a, s := ClauseSplit(kws, cl);
    if kws != [] {
      ClauseEnds(kws[..|kws| - 1], c);
    }
    HeadWordPlain(v, c, a, s);
  }

  lemma HeadWordPlain(v: string, c: string, a: string, s: string)
    requires EndsSpace(c) && IsToken(a) && s != "" && AllSpace(s)
    ensures HeadWord(v + (c + a + s)) == a && EndsSpace(v + (c + a + s))
  {
    assert v + (c + a + s) == v + c + a + s;
    TrimEndSpaces(v + c + a, s);
    TrimSolid(v + c + a);
    LastTokenIs(v + c, a);
  }

  lemma NotGrant(kws: seq<string>)
    requires Proper(kws)
    ensures LastWord(kws) != "GRANT"
  {}

  lemma ClauseTextEnds(n: string, kws: seq<string>)
    requires SolidName(n) && Proper(kws)
    ensures EndsSpace(n + ClauseText(kws)) && QUOTE !in n + ClauseText(kws)
    ensures Upper(HeadWord(n + ClauseText(kws))) != "GRANT"
  {
    hide Lang, Upper, HeadWord, ClauseText;
    UpperIdAll(kws);
    ClauseIntro(kws);
    ClauseEnds(kws, ClauseText(kws));
    HeadWordOfClause(n, ClauseText(kws), kws);
    NotGrant(kws);
  }

  lemma ClauseMatchEnds(v: string, cl: string, kws: seq<string>)
    requires QUOTE !in v && Proper(kws) && Lang(ClauseRe(kws), cl)
    ensures EndsSpace(v + cl) && QUOTE !in v + cl
    ensures Upper(HeadWord(v + cl)) != "GRANT"
  {
    hide Lang, Upper, HeadWord;
    ClauseEnds(kws, cl);
    HeadWordOfClause(v, cl, kws);
    NotGrant(kws);
  }

  lemma PartsTail(id: PatternId, m: seq<string>, n: string, kws: seq<string>, q: string, o: string)
    requires Targeted(id) && Parts(id, m, n + ClauseText(kws) + q + o)
    requires SolidName(n) && Proper(kws)
    requires q != "" && EndsSolid(q) && (q[0] == QUOTE == q[|q| - 1] || NoSpace(q))
    requires o == "" || o == WithOption("GRANT")
    ensures m[0] + m[1] + m[2] == n + ClauseText(kws) && m[3] == q && m[4] == o && m[5] == ""
  {
    hide Lang, ClauseRe, OptionRe, Keywords, ClauseText, WithOption, HeadWord, Upper;
    KeywordsProper(id);
    ClauseMatchEnds(m[0] + m[1], m[2], Keywords(id));
    ClauseTextEnds(n, kws);
    UpperId("GRANT");
    TailUnique(m[0] + m[1] + m[2], m[3], m[4], m[5], n + ClauseText(kws), q, o, "GRANT");
  }

  /** A targeted pattern matches a printed privilege only if it has the same keywords, and then in one way. */
  lemma PartsUnique(id: PatternId, m: seq<string>, n: string, kws: seq<string>, q: string, o: string)
    requires Targeted(id) && Parts(id, m, n + ClauseText(kws) + q + o)
    requires SolidName(n) && Proper(kws)
    requires q != "" && EndsSolid(q) && (q[0] == QUOTE == q[|q| - 1] || NoSpace(q))
    requires o == "" || o == WithOption("GRANT")
    ensures Keywords(id) == kws
    ensures m == ["", n, ClauseText(kws), q, o, ""]
  {
    hide Lang, ClauseRe, OptionRe, Keywords, ClauseText, WithOption, IdentShape;
    PartsTail(id, m, n, kws, q, o);
    KeywordsProper(id);
    ClauseUnique(m[0] + m[1], m[2], Keywords(id), n, kws);
    Leading(m[0], m[1], m[2], n, ClauseText(kws));
    assert m == [m[0], m[1], m[2], m[3], m[4], m[5]];
  }

  lemma Leading(sp: string, a: string, b: string, n: string, c: string)
    requires sp + a == n && sp + a + b == n + c && AllSpace(sp) && n != "" && !IsSpace(n[0])
    ensures sp == "" && a == n && b == c
  {
    assert sp == "";
    assert b == (sp + a + b)[|n|..] && c == (n + c)[|n|..];
  }

  lemma UpperIdAll(kws: seq<string>)
    requires Proper(kws)
    ensures forall i | 0 <= i < |kws| :: Upper(kws[i]) == kws[i]
  {}

  lemma {:induction false} FirstMatchAt(ids: seq<PatternId>, k: nat, s: string)
    requires k < |ids|
    requires forall i | 0 <= i < k :: Match(Expr(ids[i]), s).None?
    requires Match(Expr(ids[k]), s).Some?
    ensures FirstMatch(ids, s) == Some((ids[k], Match(Expr(ids[k]), s).value))
  {
    hide Match, Expr;
    if k != 0 {
      FirstMatchAt(ids[1..], k - 1, s);
    }
  }

  /** The own pattern of a text with a clause matches it, in one way. */
  lemma OwnMatch(id: PatternId, n: string, q: string, o: string)
    requires Targeted(id) && Lang(NameRe(id), n)
    requires IdentShape(q) && EndsSolid(q) && (q[0] == QUOTE == q[|q| - 1] || NoSpace(q))
    requires o == "" || o == WithOption("GRANT")
    ensures Match(Expr(id), n + ClauseText(Keywords(id)) + q + o) == Some(["", n, ClauseText(Keywords(id)), q, o, ""])
  {
    hide Lang, ClauseRe, OptionRe, Keywords, ClauseText, WithOption, NameRe, Match;
    var kws := Keywords(id);
    var s := n + ClauseText(kws) + q + o;
    var m := ["", n, ClauseText(kws), q, o, ""];
    KeywordsProper(id);
    OwnSplits(id, n, q, o);
    MatchComplete(Expr(id), m, s);
    TargetedParts(id, s);
    TargetedName(id, n);
    PartsUnique(id, Match(Expr(id), s).value, n, kws, q, o);
  }

  lemma OwnSplits(id: PatternId, n: string, q: string, o: string)
    requires Targeted(id) && Lang(NameRe(id), n)
    requires IdentShape(q)
    requires o == "" || o == WithOption("GRANT")
    ensures Splits(Expr(id), ["", n, ClauseText(Keywords(id)), q, o, ""], n + ClauseText(Keywords(id)) + q + o)
  {
    hide Lang, ClauseRe, OptionRe, Keywords, ClauseText, WithOption, NameRe, Upper, Flat;
    var kws := Keywords(id);
    var m := ["", n, ClauseText(kws), q, o, ""];
    SpacesLang("");
    KeywordsProper(id);
    UpperIdAll(kws);
    ClauseIntro(kws);
    IdentLang(q);
    UpperId("GRANT");
    OptionIntro("GRANT");
    Flat6(m);
    assert "" + n + ClauseText(kws) + q + o + "" == n + ClauseText(kws) + q + o;
    assert Expr(id) == [WS, NameRe(id), ClauseRe(kws), IDENT, OptionRe("GRANT"), WS];
  }

  /** No other pattern with a clause matches. */
  lemma OthersFail(id: PatternId, n: string, kws: seq<string>, q: string, o: string)
    requires Targeted(id) && Proper(kws) && Keywords(id) != kws && SolidName(n)
    requires q != "" && EndsSolid(q) && (q[0] == QUOTE == q[|q| - 1] || NoSpace(q))
    requires o == "" || o == WithOption("GRANT")
    ensures Match(Expr(id), n + ClauseText(kws) + q + o).None?
  {
    hide Lang, ClauseRe, OptionRe, Keywords, ClauseText, WithOption, NameRe, Match;
    var s := n + ClauseText(kws) + q + o;
    if Match(Expr(id), s).Some? {
      TargetedParts(id, s);
      PartsUnique(id, Match(Expr(id), s).value, n, kws, q, o);
    }
  }
}
