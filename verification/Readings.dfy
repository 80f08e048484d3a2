/** What Parse returns for privilege strings with any white space and in any case. */
module Readings {
  import opened Strings
  import opened Quoting
  import opened Regexp
  import opened Privileges
  import opened Grammar
  import opened Tokens
  import opened Tails
  import opened Matching
  import opened Dotted
  import opened SystemNames
  import opened RoundTrip
  import opened SystemWords
  import opened Spelling

  // ---------------------------------------------------------------- the end of a text

  lemma SolidBeforeSpaces(x: string, sp: string, y: string, tp: string)
    requires x + sp == y + tp && EndsSolid(x) && EndsSolid(y) && AllSpace(sp) && AllSpace(tp)
    ensures x == y && sp == tp
  {
    hide TrimEnd;
    TrimEndSpaces(x, sp);
    TrimEndSpaces(y, tp);
    TrimSolid(x);
    TrimSolid(y);
    assert sp == (x + sp)[|x|..] && tp == (y + tp)[|y|..];
  }

  lemma OptionSolid(y: string, o: string, w: string)
    requires EndsSolid(y) && IsToken(w) && Lang(OptionRe(w), o)
    ensures EndsSolid(y + o)
  {
    hide Lang, LastToken, Peel;
    if o == "" {
      assert y + o == y;
    } else {
      OptionPeel(y, o, w);
    }
  }

  /** Text, option and trailing white space: two readings that both have an option, or both have none, agree. */
  lemma EndsAlike(y: string, o1: string, sp: string, x: string, o: string, tp: string, w: string)
    requires y + o1 + sp == x + o + tp
    requires EndsSolid(y) && EndsSolid(x) && AllSpace(sp) && AllSpace(tp) && IsToken(w)
    requires Lang(OptionRe(w), o1) && Lang(OptionRe(w), o)
    ensures sp == tp && y + o1 == x + o
    ensures (o1 == "") == (o == "") ==> y == x && o1 == o
  {
    hide Lang, Upper, LastToken, Peel, TrimEnd;
    OptionSolid(y, o1, w);
    OptionSolid(x, o, w);
    SolidBeforeSpaces(y + o1, sp, x + o, tp);
    assert y + "" == y && x + "" == x;
    if o1 != "" && o != "" {
      OptionPeel(y, o1, w);
      OptionPeel(x, o, w);
      assert o1 == (y + o1)[|y|..] && o == (x + o)[|x|..];
    }
  }

  lemma OptionEndsInN(x: string, o: string, w: string)
    requires EndsSolid(x) && o != "" && Lang(OptionRe(w), o) && IsToken(w)
    ensures (x + o)[|x + o| - 1] != QUOTE
  {
    hide Lang, Peel;
    OptionPeel(x, o, w);
    var t := LastToken(x + o);
    UpperKeeps(t);
    assert t[|t| - 1] == (x + o)[|x + o| - 1];
  }

  /** A text that ends in an option is read as ending in an identifier only if the word before is the option's. */
  lemma OptionNotName(u: string, g: string, x: string, o: string, w: string)
    requires u + g == x + o && EndsSpace(u) && IdentShape(g) && EndsSolid(x)
    requires IsToken(w) && o != "" && Lang(OptionRe(w), o)
    ensures Upper(HeadWord(u)) == w
  {
    hide Lang;
    OptionEndsInN(x, o, w);
    OptionPeel(x, o, w);
    assert g[|g| - 1] == (u + g)[|u + g| - 1];
    LastTokenIs(u, g);
    assert (u + g)[..|u + g| - |g|] == u;
  }

  /** Delimited as a whole, or without white space. */
  predicate FirmEnd(q: string) {
    EndsSolid(q) && (q[0] == QUOTE == q[|q| - 1] || NoSpace(q))
  }

  /** Head, identifier, option and trailing white space read in one way only. */
  lemma TailAlike(u: string, g: string, o1: string, sp: string, h: string, q: string, o: string, tp: string, w: string)
    requires u + g + o1 + sp == h + q + o + tp
    requires EndsSpace(u) && EndsSpace(h) && QUOTE !in u && QUOTE !in h
    requires IdentShape(g) && FirmEnd(q)
    requires Lang(OptionRe(w), o1) && Lang(OptionRe(w), o) && AllSpace(sp) && AllSpace(tp) && IsToken(w)
    requires Upper(HeadWord(u)) != w && Upper(HeadWord(h)) != w
    ensures u == h && g == q && o1 == o && sp == tp
  {
    hide Lang, Upper, LastToken, Peel, TrimEnd;
    assert EndsSolid(g) by { if IsQuoted(g) {} }
    EndsAlike(u + g, o1, sp, h + q, o, tp, w);
    if o1 != "" && o == "" {
      assert h + q + o == h + q;
      OptionNotHere(u + g, o1, h, q, w);
      assert false;
    }
    if o1 == "" && o != "" {
      assert u + g + o1 == u + g;
      OptionNotName(u, g, h + q, o, w);
      assert false;
    }
    StartUnique(u, g, h, q);
  }

  // ---------------------------------------------------------------- the clause

  lemma LastWordAlike(x: string, a: string, s: string, y: string, b: string, t: string)
    requires x + a + s == y + b + t
    requires EndsSpace(x) && EndsSpace(y)
    requires a != "" && b != "" && NoSpace(a) && NoSpace(b) && AllSpace(s) && AllSpace(t)
    ensures x == y && a == b && s == t
  {
    assert EndsSolid(x + a) && EndsSolid(y + b);
    SolidBeforeSpaces(x + a, s, y + b, t);
    LastTokenIs(x, a);
    LastTokenIs(y, b);
    assert x == (x + a)[..|x|] && y == (y + b)[..|y|];
  }

  /** A clause after a solid name reads in one way only: same keywords, same name. */
  lemma {:induction false} ClauseAlike(v: string, cl: string, kws: seq<string>, n: string, cl0: string,
                                       kws0: seq<string>)
    requires EndsSolid(v) && EndsSolid(n) && Proper(kws) && Proper(kws0)
    requires Lang(ClauseRe(kws), cl) && Lang(ClauseRe(kws0), cl0)
    requires v + cl == n + cl0
    ensures kws == kws0 && v == n
    decreases |kws|
  {
    hide Lang, Upper, ClauseRe, Proper, LastWord;
    var c, a, s := ClauseSplit(kws, cl);
    var c0, b, t := ClauseSplit(kws0, cl0);
    ClauseStemEnds(kws, c);
    ClauseStemEnds(kws0, c0);
    Regroup3(v, c, a, s);
    Regroup3(n, c0, b, t);
    assert EndsSpace(v + c) && EndsSpace(n + c0);
    LastWordAlike(v + c, a, s, n + c0, b, t);
    SameLastWord(kws, kws0);
    if kws == [] {
      SolidBeforeSpaces(v, c, n, c0);
    } else {
      var i, i0 := |kws| - 1, |kws0| - 1;
      ProperFront(kws);
      ProperFront(kws0);
      ClauseAlike(v, c, kws[..i], n, c0, kws0[..i0]);
      FrontAndLast(kws, kws0);
    }
  }

  lemma ClauseStemEnds(kws: seq<string>, c: string)
    requires Proper(kws)
    requires if kws == [] then c != "" && AllSpace(c) else Lang(ClauseRe(kws[..|kws| - 1]), c)
    ensures EndsSpace(c)
  {
    hide Lang, ClauseRe;
    if kws != [] {
      ClauseEnds(kws[..|kws| - 1], c);
    }
  }

  lemma SameLastWord(kws: seq<string>, kws0: seq<string>)
    requires Proper(kws) && Proper(kws0) && LastWord(kws) == LastWord(kws0)
    ensures kws == [] <==> kws0 == []
  {
    UpperLastWord(kws);
    UpperLastWord(kws0);
  }

  lemma ProperFront(kws: seq<string>)
    requires Proper(kws) && kws != []
    ensures Proper(kws[..|kws| - 1])
  {
    hide ProperWord;
  }

  lemma FrontAndLast(kws: seq<string>, kws0: seq<string>)
    requires kws != [] && kws0 != [] && kws[..|kws| - 1] == kws0[..|kws0| - 1] && LastWord(kws) == LastWord(kws0)
    ensures kws == kws0
  {
    assert kws == kws[..|kws| - 1] + [kws[|kws| - 1]];
    assert kws0 == kws0[..|kws0| - 1] + [kws0[|kws0| - 1]];
  }

  // ---------------------------------------------------------------- texts with a clause

  /** The parts of a text with a clause, whose last part is delimited or has no white space. */
  ghost predicate Clausal(kws: seq<string>, m: seq<string>, s: string) {
    && |m| == 6 && s == m[0] + m[1] + m[2] + m[3] + m[4] + m[5]
    && Proper(kws) && AllSpace(m[0]) && SolidName(m[1]) && Lang(ClauseRe(kws), m[2])
    && FirmEnd(m[3]) && Lang(OptionRe("GRANT"), m[4]) && AllSpace(m[5])
  }

  lemma GrantIsToken()
    ensures IsToken("GRANT") && IsToken("ADMIN")
  {}

  lemma HeadOf(sp: string, n: string, cl: string, kws: seq<string>)
    requires AllSpace(sp) && SolidName(n) && Proper(kws) && Lang(ClauseRe(kws), cl)
    ensures var h := sp + n + cl;
            EndsSpace(h) && QUOTE !in h && '.' !in h && Upper(HeadWord(h)) == LastWord(kws) != "GRANT"
    ensures EndsSolid(sp + n)
  {
    hide Lang, ClauseRe, HeadWord, Upper;
    ClauseEnds(kws, cl);
    HeadWordOfClause(sp + n, cl, kws);
    NotGrant(kws);
    SpacesPlain(sp);
  }

  lemma SpacesPlain(sp: string)
    requires AllSpace(sp)
    ensures QUOTE !in sp && '.' !in sp
  {}

  lemma LeadingAlike(sp: string, a: string, tp: string, b: string)
    requires sp + a == tp + b && AllSpace(sp) && AllSpace(tp) && a != "" && !IsSpace(a[0]) && b != "" && !IsSpace(b[0])
    ensures sp == tp && a == b
  {
    var t := sp + a;
    assert t == tp + b;
    assert forall i | 0 <= i < |sp| :: t[i] == sp[i];
    assert forall i | 0 <= i < |tp| :: t[i] == tp[i];
    assert t[|sp|] == a[0] && t[|tp|] == b[0];
    assert |sp| == |tp|;
    assert sp == (sp + a)[..|sp|] && a == (sp + a)[|sp|..];
    assert tp == (tp + b)[..|tp|] && b == (tp + b)[|tp|..];
  }

  /** Two readings of a text with a clause are the same. */
  lemma ClausalUnique(kws0: seq<string>, m0: seq<string>, kws: seq<string>, m: seq<string>, s: string)
    requires Clausal(kws, m, s)
    requires |m0| == 6 && s == m0[0] + m0[1] + m0[2] + m0[3] + m0[4] + m0[5] && Proper(kws0)
    requires AllSpace(m0[0]) && SolidName(m0[1]) && Lang(ClauseRe(kws0), m0[2])
    requires IdentShape(m0[3]) && Lang(OptionRe("GRANT"), m0[4]) && AllSpace(m0[5])
    ensures kws0 == kws && m0 == m
  {
    hide Lang, ClauseRe, OptionRe, HeadWord, Upper, IdentShape, FirmEnd, SolidName, Proper, LastWord;
    var u, h := m0[0] + m0[1] + m0[2], m[0] + m[1] + m[2];
    HeadOf(m0[0], m0[1], m0[2], kws0);
    HeadOf(m[0], m[1], m[2], kws);
    GrantIsToken();
    TailAlike(u, m0[3], m0[4], m0[5], h, m[3], m[4], m[5], "GRANT");
    ClauseAlike(m0[0] + m0[1], m0[2], kws0, m[0] + m[1], m[2], kws);
    SolidStart(m0[1]);
    SolidStart(m[1]);
    LeadingAlike(m0[0], m0[1], m[0], m[1]);
    assert m0[2] == u[|m0[0] + m0[1]|..] && m[2] == h[|m[0] + m[1]|..];
    assert m0 == [m0[0], m0[1], m0[2], m0[3], m0[4], m0[5]] && m == [m[0], m[1], m[2], m[3], m[4], m[5]];
  }

  lemma SolidStart(n: string)
    requires SolidName(n)
    ensures n != "" && !IsSpace(n[0])
  {}

  /** No other pattern with a clause fits. */
  lemma OthersMiss(id: PatternId, kws: seq<string>, m: seq<string>, s: string)
    requires Targeted(id) && Clausal(kws, m, s) && Keywords(id) != kws
    ensures Match(Expr(id), s).None?
  {
    hide Match, Expr, Keywords, Clausal, NameRe;
    if Match(Expr(id), s).Some? {
      TargetedParts(id, s);
      KeywordsProper(id);
      PartsAreClausal(id, Match(Expr(id), s).value, kws, m, s);
    }
  }

  lemma PartsAreClausal(id: PatternId, m0: seq<string>, kws: seq<string>, m: seq<string>, s: string)
    requires Parts(id, m0, s) && Proper(Keywords(id)) && Clausal(kws, m, s)
    ensures Keywords(id) == kws && m0 == m
  {
    hide Clausal, Lang, ClauseRe, OptionRe, IdentShape, SolidName, Keywords, Proper;
    ClausalUnique(Keywords(id), m0, kws, m, s);
  }

  /** A spelled text with a clause is clausal. */
  lemma TargetIsClausal(id: PatternId, m: seq<string>, s: string)
    requires Targeted(id) && TargetSpelled(id, m, s) && PrintedIdent(m[3])
    ensures Clausal(Keywords(id), m, s)
  {
    hide Lang, ClauseRe, OptionRe, Keywords, NameRe, ClauseSpelled, OptionSpelled, NameSpelled, SolidName, Proper;
    KeywordsProper(id);
    NameSpelledLang(id, m[1]);
    TargetedName(id, m[1]);
    ClauseLang(Keywords(id), m[2]);
    OptionLang("GRANT", m[4]);
  }

  /** The own pattern fits a spelled text, in this one way. */
  lemma OwnFits(id: PatternId, m: seq<string>, s: string)
    requires Targeted(id) && TargetSpelled(id, m, s) && PrintedIdent(m[3])
    ensures Match(Expr(id), s) == Some(m)
  {
    hide Match, Expr, TargetSpelled, Clausal, Keywords, Splits, NameRe, PrintedIdent, Proper;
    TargetSplits(id, m, s);
    MatchComplete(Expr(id), m, s);
    TargetIsClausal(id, m, s);
    TargetedParts(id, s);
    KeywordsProper(id);
    PartsAreClausal(id, Match(Expr(id), s).value, Keywords(id), m, s);
  }

  /** A privilege with a clause of keywords is read as spelled: its name as it stands, its identifier cleaned, and the
      option if there is one, whatever the white space and the case of the other words. */
  lemma ReadTarget(k: nat, m: seq<string>, s: string, d: string)
    requires k < 8 && TargetSpelled(PATTERNS[k], m, s) && PrintedIdent(m[3])
    ensures Parse(s, d) == Ok(Build(PATTERNS[k], m, d))
  {
    hide TargetSpelled, PrintedIdent, Match, Expr, Clausal, PATTERNS, Build, Parse, Keywords;
    EarlyTargeted(k);
    OwnFits(PATTERNS[k], m, s);
    TargetIsClausal(PATTERNS[k], m, s);
    forall i | 0 <= i < k
      ensures Match(Expr(PATTERNS[i]), s).None?
    {
      DifferentKeywords(i, k);
      OthersMiss(PATTERNS[i], Keywords(PATTERNS[k]), m, s);
    }
    FirstMatchAt(PATTERNS, k, s);
    ParseBy(s, PATTERNS[k], m, d);
  }

  lemma DifferentKeywords(i: nat, k: nat)
    requires i < k < 8
    ensures |PATTERNS| == 12 && Targeted(PATTERNS[i]) && Keywords(PATTERNS[i]) != Keywords(PATTERNS[k])
  {
    hide Keywords;
    EarlyTargeted(k);
    if Keywords(PATTERNS[i]) == Keywords(PATTERNS[k]) {
      KeywordsDistinct(PATTERNS[i], PATTERNS[k]);
    }
  }

  // ---------------------------------------------------------------- objects

  lemma DottedTailAlike(u: string, g1: string, g2: string, o1: string, sp: string, h: string, q: string, o: string,
                        tp: string, w: string)
    requires u + g1 + "." + g2 + o1 + sp == h + q + o + tp
    requires EndsSpace(u) && EndsSpace(h) && QUOTE !in u && QUOTE !in h && '.' !in h
    requires IdentShape(g1) && IdentShape(g2) && FirmEnd(q)
    requires Lang(OptionRe(w), o1) && Lang(OptionRe(w), o) && AllSpace(sp) && AllSpace(tp)
    requires IsToken(w) && '.' !in w && Upper(HeadWord(h)) != w
    ensures u == h && g1 + "." + g2 == q && o1 == o && sp == tp
  {
    hide Lang, Upper, LastToken, Peel, TrimEnd, HeadWord, OptionRe;
    var y := u + g1 + "." + g2;
    assert EndsSolid(g2) by { if IsQuoted(g2) {} }
    assert EndsSolid(y);
    EndsAlike(y, o1, sp, h + q, o, tp, w);
    if o1 != "" && o == "" {
      assert h + q + o == h + q;
      OptionNotHere(y, o1, h, q, w);
      assert false;
    }
    if o1 == "" && o != "" {
      assert y + o1 == y;
      DotNotInAnyOption(u + g1, g2, h + q, o, w);
    }
    DottedStart(u, g1, g2, h, q);
  }

  lemma DotNotInAnyOption(u: string, g: string, x: string, o: string, w: string)
    requires IdentShape(g) && EndsSolid(x) && o != "" && Lang(OptionRe(w), o) && IsToken(w)
    ensures u + "." + g != x + o
  {
    hide Lang, Upper, LastToken, Peel, OptionRe;
    if u + "." + g == x + o {
      OptionEndsInN(x, o, w);
      assert g[|g| - 1] == (u + "." + g)[|u + "." + g| - 1];
      DotInToken(u, g);
      OptionPeel(x, o, w);
      UpperKeeps(LastToken(x + o));
    }
  }

  /** On a text with a clause the pattern for qualified objects needs the clause without keywords, and cuts what follows
      it at a dot. */
  lemma DottedUnique(m0: seq<string>, kws: seq<string>, m: seq<string>, s: string)
    requires Clausal(kws, m, s) && DottedParts(m0, s)
    ensures kws == []
    ensures m0[0] == m[0] && m0[1] == m[1] && m0[2] == m[2] && m0[3] + "." + m0[5] == m[3] && m0[6] == m[4] &&
            m0[7] == m[5]
  {
    hide Lang, ClauseRe, OptionRe, HeadWord, Upper, IdentShape, FirmEnd, SolidName, Proper, LastWord, NameShape;
    var u, h := m0[0] + m0[1] + m0[2], m[0] + m[1] + m[2];
    NameIsSolid(m0[1]);
    NoKeywords();
    HeadOf(m0[0], m0[1], m0[2], []);
    HeadOf(m[0], m[1], m[2], kws);
    GrantIsToken();
    DottedTailAlike(u, m0[3], m0[5], m0[6], m0[7], h, m[3], m[4], m[5], "GRANT");
    ClauseAlike(m0[0] + m0[1], m0[2], [], m[0] + m[1], m[2], kws);
    SolidStart(m0[1]);
    SolidStart(m[1]);
    LeadingAlike(m0[0], m0[1], m[0], m[1]);
    assert m0[2] == u[|m0[0] + m0[1]|..] && m[2] == h[|m[0] + m[1]|..];
  }

  lemma NoKeywords()
    ensures Proper([])
  {}

  /** A dot inside an identifier without white space: not its first and not its last character. */
  predicate InnerDot(q: string, i: nat) {
    0 < i < |q| - 1 && q[i] == '.'
  }

  lemma QuotedNotCut(g1: string, g2: string, q: string)
    requires IdentShape(g1) && IdentShape(g2) && g1 + "." + g2 == q && IsQuoted(q)
    ensures NoSpace(q)
  {
    hide IsQuoted, Quoted;
    QuotedBack(q);
    CutNotQuoted(Clean(q), g1, g2);
    assert forall i | 0 <= i < |q| :: q[i] == (g1 + "." + g2)[i];
  }

  /** What is cut at a dot has one inside, and no white space. */
  lemma CutInside(g1: string, g2: string, q: string)
    requires IdentShape(g1) && IdentShape(g2) && g1 + "." + g2 == q && PrintedIdent(q)
    ensures NoSpace(q) && InnerDot(q, |g1|)
  {
    hide IsQuoted;
    if IsQuoted(q) {
      QuotedNotCut(g1, g2, q);
    }
    assert (g1 + "." + g2)[|g1|] == '.';
    assert g1 != "" && g2 != "" by { hide *; NotEmpty(g1); NotEmpty(g2); }
  }

  lemma NotEmpty(g: string)
    requires IdentShape(g)
    ensures g != ""
  {}

  /** An unqualified object is read as spelled, in the default schema, unless its name has a dot inside and no white
      space. */
  lemma ReadPlain(m: seq<string>, s: string, d: string)
    requires TargetSpelled(OnPlain, m, s) && PrintedIdent(m[3])
    requires !NoSpace(m[3]) || forall i | 0 <= i < |m[3]| :: !InnerDot(m[3], i)
    ensures Parse(s, d) == Ok(Privilege(Object, m[1], d, Clean(m[3]), m[4] != ""))
  {
    hide TargetSpelled, PrintedIdent, Match, Expr, Clausal, PATTERNS, Parse, Keywords, DottedParts, Clean;
    OwnFits(OnPlain, m, s);
    TargetIsClausal(OnPlain, m, s);
    LatePatterns();
    forall i | 0 <= i < 9
      ensures Match(Expr(PATTERNS[i]), s).None?
    {
      if i < 8 {
        EarlyKeywords(i);
        PlainKeywords();
        OthersMiss(PATTERNS[i], Keywords(OnPlain), m, s);
      } else {
        DottedMisses(m, s);
      }
    }
    FirstMatchAt(PATTERNS, 9, s);
    SixParts(m, s);
    ParseBy(s, OnPlain, m, d);
    PlainBuild(m, d);
  }

  lemma SixParts(m: seq<string>, s: string)
    requires TargetSpelled(OnPlain, m, s)
    ensures |m| == 6 == |Expr(OnPlain)|
  {
    hide ClauseSpelled, OptionSpelled, NameSpelled, IdentShape;
  }

  lemma PlainBuild(m: seq<string>, d: string)
    requires |m| == 6
    ensures |Expr(OnPlain)| == 6 && Build(OnPlain, m, d) == Privilege(Object, m[1], d, Clean(m[3]), m[4] != "")
  {
    hide Clean;
  }

  lemma DottedMisses(m: seq<string>, s: string)
    requires Clausal(Keywords(OnPlain), m, s) && PrintedIdent(m[3])
    requires !NoSpace(m[3]) || forall i | 0 <= i < |m[3]| :: !InnerDot(m[3], i)
    ensures Match(Expr(OnDotted), s).None?
  {
    hide Match, Expr, Keywords, PrintedIdent, InnerDot, FirmEnd, Lang, ClauseRe, OptionRe, Proper, SolidName;
    if Match(Expr(OnDotted), s).Some? {
      DottedMatchParts(s);
      var m0 := Match(Expr(OnDotted), s).value;
      DottedUnique(m0, Keywords(OnPlain), m, s);
      CutInside(m0[3], m0[5], m[3]);
    }
  }

  /** The segments of a qualified object as those of a text with a clause. */
  function Whole(m: seq<string>): seq<string>
    requires |m| == 8
  {
    [m[0], m[1], m[2], m[3] + "." + m[5], m[6], m[7]]
  }

  lemma EightSegments(m: seq<string>, s: string)
    requires DottedSpelled(m, s)
    ensures |m| == 8 && IdentShape(m[3]) && IdentShape(m[5]) && m[5] != ""
  {
    hide ClauseSpelled, OptionSpelled, NameShape;
  }

  lemma DottedIsClausal(m: seq<string>, s: string)
    requires DottedSpelled(m, s) && FirmEnd(m[3] + "." + m[5])
    ensures Clausal([], Whole(m), s)
  {
    hide Lang, ClauseRe, OptionRe, ClauseSpelled, OptionSpelled, SolidName, IdentShape, FirmEnd, NameShape;
    NoKeywords();
    NameIsSolid(m[1]);
    ClauseLang([], m[2]);
    OptionLang("GRANT", m[6]);
    WholeText(m);
  }

  lemma WholeText(m: seq<string>)
    requires |m| == 8 && m[4] == "."
    ensures m[0] + m[1] + m[2] + m[3] + m[4] + m[5] + m[6] + m[7] ==
            m[0] + m[1] + m[2] + (m[3] + "." + m[5]) + m[6] + m[7]
  {}

  /** The preferred match of a qualified object continues after the clause as the preferred match of the rest. */
  lemma DottedAfter(m0: seq<string>, s: string, h: string, t: string)
    requires Match(Expr(OnDotted), s) == Some(m0) && |m0| == 8
    requires s == h + t && h == m0[0] + m0[1] + m0[2]
    ensures Match([IDENT] + AFTER_SCHEMA, t) == Some(m0[3..])
  {
    hide Lang, OptionRe, ClauseRe, Match, Splits;
    var rs := Expr(OnDotted);
    assert rs == [WS, NAME, ClauseRe([]), IDENT, DOT, IDENT, OptionRe("GRANT"), WS];
    MatchSound(rs, s);
    var s1 := m0[1] + m0[2] + t;
    assert s == m0[0] + s1 && s[|m0[0]|..] == s1;
    MatchSound(rs[1..], s1);
    var s2 := m0[2] + t;
    assert s1 == m0[1] + s2 && s1[|m0[1]|..] == s2;
    assert m0[1..][1..] == m0[2..] && rs[1..][1..] == rs[2..];
    MatchSound(rs[2..], s2);
    assert s2[|m0[2]|..] == t;
    assert m0[2..][1..] == m0[3..] && rs[2..][1..] == [IDENT] + AFTER_SCHEMA;
  }

  lemma AfterFits(g: string, o: string, tp: string)
    requires IdentShape(g) && Lang(OptionRe("GRANT"), o) && AllSpace(tp)
    ensures Match(AFTER_SCHEMA, "." + g + o + tp).Some?
  {
    hide Lang, OptionRe, Match, IdentShape;
    var m := [".", g, o, tp];
    DotLang(".");
    IdentLang(g);
    SpacesLang(tp);
    Flat4(m);
    MatchComplete(AFTER_SCHEMA, m, "." + g + o + tp);
  }

  /** The pattern for qualified objects fits a spelled text; what it takes for the schema is what comes first in the
      rest after the clause. */
  lemma DottedFits(m: seq<string>, s: string) returns (m0: seq<string>, t: string)
    requires DottedSpelled(m, s) && FirmEnd(m[3] + "." + m[5])
    ensures Match(Expr(OnDotted), s) == Some(m0) && |m0| == 8 && DottedParts(m0, s)
    ensures m0[0] == m[0] && m0[1] == m[1] && m0[2] == m[2] && m0[3] + "." + m0[5] == m[3] + "." + m[5]
    ensures m0[6] == m[6] && m0[7] == m[7]
    ensures t == m[3] + ("." + m[5] + m[6] + m[7])
    ensures Match([IDENT] + AFTER_SCHEMA, t) == Some(m0[3..]) && Match(AFTER_SCHEMA, t[|m[3]|..]).Some?
  {
    hide Match, Expr, Splits, DottedSpelled, Clausal, FirmEnd, IdentShape, DottedParts, Lang, OptionRe;
    EightSegments(m, s);
    DottedSplitsIff(m, s);
    MatchComplete(Expr(OnDotted), m, s);
    DottedMatchParts(s);
    m0 := Match(Expr(OnDotted), s).value;
    DottedIsClausal(m, s);
    DottedUnique(m0, [], Whole(m), s);
    t := m[3] + ("." + m[5] + m[6] + m[7]);
    DottedText(m, s, t);
    DottedPartsLength(m0, s);
    DottedAfter(m0, s, m[0] + m[1] + m[2], t);
    SpelledAfter(m, s);
    assert t[|m[3]|..] == "." + m[5] + m[6] + m[7];
  }

  lemma DottedPartsLength(m: seq<string>, s: string)
    requires DottedParts(m, s)
    ensures |m| == 8
  {}

  lemma DottedText(m: seq<string>, s: string, t: string)
    requires DottedSpelled(m, s) && t == m[3] + ("." + m[5] + m[6] + m[7])
    ensures s == m[0] + m[1] + m[2] + t
  {
    hide ClauseSpelled, OptionSpelled, IdentShape, NameShape;
    assert m[4] == ".";
    assert m[0] + m[1] + m[2] + m[3] + "." + m[5] + m[6] + m[7] ==
        m[0] + m[1] + m[2] + (m[3] + ("." + m[5] + m[6] + m[7]));
  }

  lemma SpelledAfter(m: seq<string>, s: string)
    requires DottedSpelled(m, s)
    ensures Match(AFTER_SCHEMA, "." + m[5] + m[6] + m[7]).Some?
  {
    hide ClauseSpelled, OptionSpelled, IdentShape, NameShape, Match, Lang, OptionRe;
    OptionLang("GRANT", m[6]);
    AfterFits(m[5], m[6], m[7]);
  }

  /** The parser reads a spelled qualified object by its pattern, with the cut that the pattern prefers. */
  lemma DottedIsRead(m: seq<string>, s: string, m0: seq<string>, d: string)
    requires DottedSpelled(m, s) && FirmEnd(m[3] + "." + m[5])
    requires Match(Expr(OnDotted), s) == Some(m0) && |m0| == 8 && m0[3] == m[3] && m0[5] == m[5] && m0[1] == m[1] &&
             m0[6] == m[6]
    ensures Parse(s, d) == Ok(Privilege(Object, m[1], Clean(m[3]), Clean(m[5]), m[6] != ""))
  {
    hide Match, Expr, DottedSpelled, Clausal, FirmEnd, PATTERNS, Parse, Keywords, Clean;
    EightSegments(m, s);
    DottedIsClausal(m, s);
    LatePatterns();
    forall i | 0 <= i < 8
      ensures Match(Expr(PATTERNS[i]), s).None?
    {
      EarlyKeywords(i);
      OthersMiss(PATTERNS[i], [], Whole(m), s);
    }
    FirstMatchAt(PATTERNS, 8, s);
    ParseBy(s, OnDotted, m0, d);
    DottedBuild(m0, d);
  }

  lemma DottedBuild(m: seq<string>, d: string)
    requires |m| == 8
    ensures |Expr(OnDotted)| == 8 &&
            Build(OnDotted, m, d) == Privilege(Object, m[1], Clean(m[3]), Clean(m[5]), m[6] != "")
  {
    hide Clean;
  }

  /** An object qualified by a delimited schema is read as spelled, whatever characters the schema contains. */
  lemma ReadQualified(m: seq<string>, s: string, d: string)
    requires DottedSpelled(m, s) && IsQuoted(m[3]) && (IsQuoted(m[5]) || (NoSpace(m[3]) && NoSpace(m[5])))
    ensures Parse(s, d) == Ok(Privilege(Object, m[1], Clean(m[3]), Clean(m[5]), m[6] != ""))
  {
    hide DottedSpelled, Match, Expr, Clean, IsQuoted, DottedParts;
    EightSegments(m, s);
    QualifiedEnd(m[3], m[5]);
    var m0, t := DottedFits(m, s);
    assert t[..|m[3]|] == m[3];
    QuotedFirst(t, |m[3]|);
    assert m0[3] == m0[3..][0];
    SameSchema(m0[3], m0[5], m[3], m[5]);
    DottedIsRead(m, s, m0, d);
  }

  lemma QualifiedEnd(g1: string, g2: string)
    requires IsQuoted(g1) && (IsQuoted(g2) || (g2 != "" && NoSpace(g1) && NoSpace(g2)))
    ensures FirmEnd(g1 + "." + g2)
  {
    var q := g1 + "." + g2;
    assert q[0] == g1[0] && q[|q| - 1] == g2[|g2| - 1];
  }

  lemma SameSchema(g1: string, g2: string, a: string, b: string)
    requires IsQuoted(g1) && IsQuoted(a) && g1 + "." + g2 == a + "." + b
    ensures g1 == a && g2 == b
  {
    hide IsBody;
    var c, e := g1[1..|g1| - 1], a[1..|a| - 1];
    var y, z := "." + g2, "." + b;
    assert g1 == [QUOTE] + c + [QUOTE] && a == [QUOTE] + e + [QUOTE];
    assert (g1 + "." + g2)[1..] == c + [QUOTE] + y && (a + "." + b)[1..] == e + [QUOTE] + z;
    BodyUnique(c, y, e, z, QUOTE);
    assert g2 == y[1..] && b == z[1..];
  }

  // ---------------------------------------------------------------- bare objects

  predicate Descending(ks: seq<nat>) {
    forall i, j | 0 <= i < j < |ks| :: ks[i] > ks[j]
  }

  /** A greedy star of single characters offers its lengths longest first. */
  lemma {:induction false} GreedyDescending(c: Class, s: string)
    ensures Descending(Prefixes(Star(One(c), false), s))
    decreases |s|
  {
    var re := Star(One(c), false);
    if s != "" && In(s[0], c) {
      GreedyDescending(c, s[1..]);
      var rest := Prefixes(re, s[1..]);
      assert Prefixes(One(c), s) == [1];
      assert Again([1], re, s) == Shift(1, rest) + Again([1][1..], re, s);
      assert Prefixes(re, s) == Shift(1, rest) + [0];
    } else {
      assert Prefixes(re, s) == Again([], re, s) + [0];
    }
  }

  lemma BareDescending(t: string)
    ensures Descending(Prefixes(BARE, t))
  {
    if t != "" && !IsSpace(t[0]) {
      GreedyDescending(NonSpace, t[1..]);
      ThenSingle(1, Star(One(NonSpace), false), t);
    } else {
      assert Prefixes(One(NonSpace), t) == [];
    }
  }

  lemma NotDelimited(t: string)
    requires t != "" && t[0] != QUOTE
    ensures Prefixes(IDENT, t) == Prefixes(BARE, t)
  {
    hide BODY, BARE;
    AltPrefixes(DELIMITED, BARE, t);
    assert Prefixes(QUOTES, t) == [];
    assert Prefixes(DELIMITED, t) == [];
  }

  /** Of a bare schema the preferred match takes as much as it can. */
  lemma LongestFirst(t: string, k: nat)
    requires 0 < k <= |t| && t[0] != QUOTE && NoSpace(t[..k])
    requires Match(AFTER_SCHEMA, t[k..]).Some? && Match([IDENT] + AFTER_SCHEMA, t).Some?
    ensures |Match([IDENT] + AFTER_SCHEMA, t).value| > 0 && |Match([IDENT] + AFTER_SCHEMA, t).value[0]| >= k
  {
    hide Lang, OptionRe, Prefixes, BARE, IDENT;
    var rs := [IDENT] + AFTER_SCHEMA;
    assert rs[1..] == AFTER_SCHEMA;
    NotDelimited(t);
    var ks := Prefixes(IDENT, t);
    BareLang(t[..k]);
    PrefixesAreLang(BARE, t, k);
    var j :| 0 <= j < |ks| && ks[j] == k;
    MatchIsFirstOf(rs, t);
    var i := FirstOfPicks(ks, rs, t);
    assert i <= j;
    BareDescending(t);
    assert i < j ==> ks[i] > ks[j];
  }

  lemma BareLang(g: string)
    requires g != "" && NoSpace(g)
    ensures Lang(BARE, g)
  {
    OneThenStar(NonSpace, NonSpace, g);
  }

  /** A bare qualified object is cut at its last dot. */
  lemma ReadBareQualified(m: seq<string>, s: string, d: string)
    requires DottedSpelled(m, s) && NoSpace(m[3]) && NoSpace(m[5]) && m[3][0] != QUOTE && '.' !in m[5]
    ensures Parse(s, d) == Ok(Privilege(Object, m[1], Clean(m[3]), Clean(m[5]), m[6] != ""))
  {
    hide DottedSpelled, Match, Expr, Clean, DottedParts;
    EightSegments(m, s);
    BareEnd(m, s);
    var m0, t := DottedFits(m, s);
    assert t[..|m[3]|] == m[3];
    LongestFirst(t, |m[3]|);
    assert m0[3] == m0[3..][0];
    LastDot(m0[3], m0[5], m[3], m[5]);
    DottedIsRead(m, s, m0, d);
  }

  lemma BareEnd(m: seq<string>, s: string)
    requires DottedSpelled(m, s) && NoSpace(m[3]) && NoSpace(m[5])
    ensures FirmEnd(m[3] + "." + m[5]) && m[3] != ""
  {
    hide ClauseSpelled, OptionSpelled, NameShape, IsBody;
  }

  lemma NoDotAfter(a: string, b: string, i: int)
    requires '.' !in b && |a| < i < |a + "." + b|
    ensures (a + "." + b)[i] != '.'
  {
    assert (a + "." + b)[i] == b[i - |a| - 1];
  }

  lemma LastDot(g1: string, g2: string, a: string, b: string)
    requires g1 + "." + g2 == a + "." + b && '.' !in b && |g1| >= |a|
    ensures g1 == a && g2 == b
  {
    var q := a + "." + b;
    assert q == g1 + "." + g2 && q[|g1|] == '.';
    if |g1| > |a| {
      NoDotAfter(a, b, |g1|);
    }
    assert |g1| == |a|;
    assert g1 == q[..|g1|] && a == q[..|a|] && g2 == q[|g1| + 1..] && b == q[|a| + 1..];
  }

  // ---------------------------------------------------------------- structured privileges

  lemma HeadFactsOf(h: string)
    requires HeadSpelled(h)
    ensures EndsSpace(h) && QUOTE !in h && '.' !in h && Upper(HeadWord(h)) == "PRIVILEGE"
  {
    hide HeadSpelled, HeadWord, Lang, Upper, HEAD_RE;
    HeadSpelledLang(h);
    CapitalHeads();
    HeadReIs();
    StructuredHead(h, "STRUCTURED", "PRIVILEGE");
  }

  lemma HeadReIs()
    ensures HEAD_RE == Cat(WS, Cat(AnyCase("STRUCTURED"), Cat(GAP, Cat(AnyCase("PRIVILEGE"), GAP))))
    ensures Expr(OfStructured) == [HEAD_RE, IDENT, OptionRe("GRANT"), WS]
  {
    hide OptionRe;
  }

  /** A spelled structured privilege with a delimited name, or one without white space. */
  ghost predicate FirmStructured(m: seq<string>, s: string) {
    StructuredSpelled(m, s) && PrintedIdent(m[1])
  }

  lemma StructuredUnique(m: seq<string>, s: string)
    requires FirmStructured(m, s)
    ensures Match(Expr(OfStructured), s) == Some(m)
  {
    hide Lang, OptionRe, Match, Expr, HeadSpelled, HeadWord, Upper, OptionSpelled, IdentShape, Splits;
    StructuredSplitsIff(m, s);
    MatchComplete(Expr(OfStructured), m, s);
    StructuredMatchParts(s);
    var m0 := Match(Expr(OfStructured), s).value;
    HeadFactsOf(m[0]);
    OptionLang("GRANT", m[2]);
    GrantIsToken();
    TailAlike(m0[0], m0[1], m0[2], m0[3], m[0], m[1], m[2], m[3], "GRANT");
    assert m0 == [m0[0], m0[1], m0[2], m0[3]] && m == [m[0], m[1], m[2], m[3]];
  }

  lemma StructuredNoTarget(id: PatternId, m: seq<string>, s: string)
    requires Targeted(id) && FirmStructured(m, s)
    ensures Match(Expr(id), s).None?
  {
    hide Lang, OptionRe, Match, Expr, HeadSpelled, HeadWord, Upper, OptionSpelled, IdentShape, ClauseRe, Keywords,
        NameRe;
    hide SolidName, LastWord;
    if Match(Expr(id), s).Some? {
      TargetedParts(id, s);
      var m0 := Match(Expr(id), s).value;
      KeywordsProper(id);
      HeadOf(m0[0], m0[1], m0[2], Keywords(id));
      HeadFactsOf(m[0]);
      OptionLang("GRANT", m[2]);
      GrantIsToken();
      TailAlike(m0[0] + m0[1] + m0[2], m0[3], m0[4], m0[5], m[0], m[1], m[2], m[3], "GRANT");
      NotPrivilege(id);
    }
  }

  lemma StructuredNoDot(m: seq<string>, s: string)
    requires FirmStructured(m, s)
    ensures Match(Expr(OnDotted), s).None?
  {
    hide Lang, OptionRe, Match, Expr, HeadSpelled, HeadWord, Upper, OptionSpelled, IdentShape, ClauseRe, SolidName,
        NameShape;
    if Match(Expr(OnDotted), s).Some? {
      DottedMatchParts(s);
      var m0 := Match(Expr(OnDotted), s).value;
      NameIsSolid(m0[1]);
      NoKeywords();
      HeadOf(m0[0], m0[1], m0[2], []);
      HeadFactsOf(m[0]);
      OptionLang("GRANT", m[2]);
      GrantIsToken();
      DottedTailAlike(m0[0] + m0[1] + m0[2], m0[3], m0[5], m0[6], m0[7], m[0], m[1], m[2], m[3], "GRANT");
    }
  }

  /** A structured privilege is read as spelled. */
  lemma ReadStructured(m: seq<string>, s: string, d: string)
    requires StructuredSpelled(m, s) && PrintedIdent(m[1])
    ensures Parse(s, d) == Ok(Privilege(Structured, "STRUCTURED PRIVILEGE", Clean(m[1]), "", m[2] != ""))
  {
    hide Match, Expr, FirmStructured, PATTERNS, Parse, Clean, PrintedIdent, HeadSpelled, OptionSpelled, IdentShape;
    assert FirmStructured(m, s) by { FirmIs(m, s); }
    StructuredUnique(m, s);
    LatePatterns();
    forall i | 0 <= i < 10
      ensures Match(Expr(PATTERNS[i]), s).None?
    {
      if i == 8 {
        StructuredNoDot(m, s);
      } else {
        if i < 8 {
          EarlyKeywords(i);
        }
        StructuredNoTarget(PATTERNS[i], m, s);
      }
    }
    FirstMatchAt(PATTERNS, 10, s);
    StructuredBuild(m, d);
    ParseBy(s, OfStructured, m, d);
  }

  lemma FirmIs(m: seq<string>, s: string)
    requires StructuredSpelled(m, s) && PrintedIdent(m[1])
    ensures FirmStructured(m, s)
  {
    hide StructuredSpelled, PrintedIdent;
  }

  lemma StructuredBuild(m: seq<string>, d: string)
    requires |m| == 4
    ensures |Expr(OfStructured)| == 4
    ensures Build(OfStructured, m, d) == Privilege(Structured, "STRUCTURED PRIVILEGE", Clean(m[1]), "", m[2] != "")
  {
    hide Clean;
  }

  // ---------------------------------------------------------------- system privileges

  /** Trimming takes away what is around a text that does not start or end in white space. */
  lemma {:induction false} TrimAround(sp: string, t: string, tp: string)
    requires AllSpace(sp) && AllSpace(tp) && t != "" && !IsUnicodeSpace(t[0]) && !IsUnicodeSpace(t[|t| - 1])
    ensures TrimSpace(sp + t + tp) == t
    decreases |sp| + |tp|
  {
    var s := sp + t + tp;
    if sp != "" {
      assert s[0] == sp[0] && s[1..] == sp[1..] + t + tp;
      TrimAround(sp[1..], t, tp);
    } else if tp != "" {
      assert s[|s| - 1] == tp[|tp| - 1] && s[..|s| - 1] == sp + t + tp[..|tp| - 1];
      assert s[0] == t[0];
      TrimAround(sp, t, tp[..|tp| - 1]);
    } else {
      assert s == t;
    }
  }

  /** The guards of the parser do not see white space around a text. */
  lemma GuardsAround(sp: string, t: string, tp: string)
    requires AllSpace(sp) && AllSpace(tp) && t != "" && !IsUnicodeSpace(t[0]) && !IsUnicodeSpace(t[|t| - 1])
    ensures HasOn(sp + t + tp) <==> HasOn(t)
    ensures forall w :: HasOption(sp + t + tp, w) <==> HasOption(t, w)
  {
    hide IsUnicodeSpace, TrimSpace, Upper;
    TrimAround(sp, t, tp);
    TrimSpaceIff(t);
  }

  lemma SystemEnds(x: string, o: string)
    requires SystemShape(x) && Lang(OptionRe("ADMIN"), o)
    ensures EndsSolid(x + o) && x != "" && IsLetter(x[0]) && (x + o)[0] == x[0]
  {
    hide Lang, OptionRe, SystemShape;
    SystemShapeEnds(x);
    GrantIsToken();
    OptionSolid(x, o, "ADMIN");
  }

  /** Every reading of a spelled system privilege has its white space around, and its name and option if both readings
      have an option or both have none. */
  lemma SystemAlike(m0: seq<string>, m: seq<string>, s: string)
    requires SystemParts(m0, s) && SystemSpelled(m, s)
    ensures m0[0] == m[0] && m0[3] == m[3] && m0[1] + m0[2] == m[1] + m[2]
    ensures (m0[2] == "") == (m[2] == "") ==> m0[1] == m[1] && m0[2] == m[2]
  {
    hide Lang, OptionRe, SystemShape, OptionSpelled, IsLetter;
    OptionLang("ADMIN", m[2]);
    SystemEnds(m0[1], m0[2]);
    SystemEnds(m[1], m[2]);
    GrantIsToken();
    SystemShapeEnds(m0[1]);
    SystemShapeEnds(m[1]);
    EndsAlike(m0[0] + m0[1], m0[2], m0[3], m[0] + m[1], m[2], m[3], "ADMIN");
    LetterStarts(m0[1]);
    LetterStarts(m[1]);
    Regrouped(m0[0], m0[1], m0[2]);
    Regrouped(m[0], m[1], m[2]);
    LeadingAlike(m0[0], m0[1] + m0[2], m[0], m[1] + m[2]);
    assert m0[0] == m[0];
    if (m0[2] == "") == (m[2] == "") {
      assert m0[1] == (m0[0] + m0[1])[|m0[0]|..] && m[1] == (m[0] + m[1])[|m[0]|..];
    }
  }

  lemma Regrouped(a: string, b: string, c: string)
    ensures a + b + c == a + (b + c)
  {}

  lemma LetterStarts(x: string)
    requires x != "" && IsLetter(x[0])
    ensures !IsSpace(x[0])
  {}

  lemma OptionAndEnd(o: string, tp: string)
    requires Lang(OptionRe("ADMIN"), o) && AllSpace(tp)
    ensures Match(AFTER_NAME, o + tp).Some?
  {
    hide Lang, OptionRe, Match;
    SpacesLang(tp);
    assert [o, tp][1..] == [tp] && Flat([tp]) == tp + Flat([]);
    assert Flat([o, tp]) == o + Flat([tp]);
    MatchComplete(AFTER_NAME, [o, tp], o + tp);
  }

  /** The system pattern after its white space. */
  const NAME_AND_OPTION: seq<Regex> := [SYSTEM_NAME] + AFTER_NAME

  /** Of all ways to end the name, the preferred one is the shortest of at least two letters. */
  lemma ShortestName(t: string, m: seq<string>, k: nat)
    requires t != "" && IsLetter(t[0]) && '.' !in t
    requires Match(NAME_AND_OPTION, t) == Some(m) && |m| > 0
    requires k <= |t| && SystemShape(t[..k]) && Match(AFTER_NAME, t[k..]).Some?
    ensures (|m[0]| == 1 ==> k == 1) && (|m[0]| >= 2 && k >= 2 ==> |m[0]| <= k)
  {
    hide Lang, OptionRe, Match, Prefixes, SystemShape, SYSTEM_NAME, AFTER_NAME, IsLetter;
    var ks := Prefixes(SYSTEM_NAME, t);
    var j := NameLength(t, k);
    var i := ChosenName(t, m, ks, j);
    SystemOrder(t);
    InOrder(ks, i, j);
  }

  lemma InOrder(ks: seq<nat>, i: nat, j: nat)
    requires i <= j < |ks| && ks[|ks| - 1] == 1 && Ascending(ks[..|ks| - 1])
    requires forall l | 0 <= l < |ks| - 1 :: ks[l] >= 2
    ensures (ks[i] == 1 ==> ks[j] == 1) && (ks[i] >= 2 && ks[j] >= 2 ==> ks[i] <= ks[j])
  {
    assert i < |ks| - 1 && j < |ks| - 1 && i < j ==> ks[..|ks| - 1][i] < ks[..|ks| - 1][j];
  }

  lemma NameLength(t: string, k: nat) returns (j: nat)
    requires k <= |t| && SystemShape(t[..k])
    ensures j < |Prefixes(SYSTEM_NAME, t)| && Prefixes(SYSTEM_NAME, t)[j] == k
  {
    hide Lang, Prefixes, SystemShape, SYSTEM_NAME;
    SystemLang(t[..k]);
    PrefixesAreLang(SYSTEM_NAME, t, k);
    j :| 0 <= j < |Prefixes(SYSTEM_NAME, t)| && Prefixes(SYSTEM_NAME, t)[j] == k;
  }

  lemma ChosenName(t: string, m: seq<string>, ks: seq<nat>, j: nat) returns (i: nat)
    requires Match(NAME_AND_OPTION, t) == Some(m) && |m| > 0 && ks == Prefixes(SYSTEM_NAME, t)
    requires j < |ks| && ks[j] <= |t| && Match(AFTER_NAME, t[ks[j]..]).Some?
    ensures i <= j && |m[0]| == ks[i]
  {
    hide Match, Prefixes, SYSTEM_NAME, AFTER_NAME;
    var rs := NAME_AND_OPTION;
    assert rs[0] == SYSTEM_NAME && rs[1..] == AFTER_NAME;
    MatchIsFirstOf(rs, t);
    i := FirstOfPicks(ks, rs, t);
  }

  /** The match of the system pattern goes on after the white space as the match of the rest. */
  lemma SystemAfter(m0: seq<string>, s: string, t: string)
    requires Match(Expr(OfSystem), s) == Some(m0) && |m0| == 4 && s == m0[0] + t
    ensures Match(NAME_AND_OPTION, t) == Some(m0[1..])
  {
    hide Lang, OptionRe, Match, Splits, SYSTEM_NAME;
    MatchSound(Expr(OfSystem), s);
    assert s[|m0[0]|..] == t;
    assert Expr(OfSystem)[1..] == NAME_AND_OPTION;
  }

  /** The system pattern takes the name and the option that are spelled, if the option does not follow a single letter
      and the name does not end in one. */
  lemma SystemFits(m: seq<string>, s: string)
    requires SystemSpelled(m, s) && if m[2] != "" then |m[1]| > 1 else !HidesOption(m[1])
    ensures Match(Expr(OfSystem), s) == Some(m)
  {
    hide Match, Expr, Splits, Lang, OptionRe, SystemShape, OptionSpelled, HidesOption;
    SystemSplitsIff(m, s);
    MatchComplete(Expr(OfSystem), m, s);
    SystemMatchParts(s);
    var m0 := Match(Expr(OfSystem), s).value;
    SystemAlike(m0, m, s);
    OptionLang("ADMIN", m[2]);
    var t := m[1] + m[2] + m[3];
    FourRegrouped(m[0], m[1], m[2], m[3]);
    SystemAfter(m0, s, t);
    assert m0[1..][0] == m0[1];
    SystemEnds(m[1], m[2]);
    assert m0[1] + "" == m0[1] && m[1] + "" == m[1];
    if m[2] != "" {
      LongName(m, t, m0);
    } else if m0[2] != "" {
      HiddenOption(m, t, m0);
    }
    assert m0 == [m0[0], m0[1], m0[2], m0[3]] && m == [m[0], m[1], m[2], m[3]];
  }

  lemma FourRegrouped(a: string, b: string, c: string, d: string)
    ensures a + b + c + d == a + (b + c + d)
  {}

  /** A name that swallows the option is not the shortest one. */
  lemma LongName(m: seq<string>, t: string, m0: seq<string>)
    requires |m| == 4 && |m0| == 4 && t == m[1] + m[2] + m[3] && |m[1]| > 1 && m[2] != "" && AllSpace(m[3])
    requires SystemShape(m[1]) && Lang(OptionRe("ADMIN"), m[2]) && SystemShape(m0[1])
    requires Match(NAME_AND_OPTION, t) == Some(m0[1..])
    ensures m0[1] != m[1] + m[2]
  {
    hide Match, Expr, Lang, OptionRe, SystemShape, IsLetter, NAME_AND_OPTION, AFTER_NAME;
    if m0[1] == m[1] + m[2] {
      SystemShapeEnds(m[1]);
      OptionMeansNoDot(m[1], m[2]);
      SpacesPlain(m[3]);
      OptionAndEnd(m[2], m[3]);
      Regrouped(m[1], m[2], m[3]);
      assert t[..|m[1]|] == m[1] && t[|m[1]|..] == m[2] + m[3];
      assert m0[1..][0] == m0[1];
      ShortestName(t, m0[1..], |m[1]|);
    }
  }

  /** A name that is cut before an option hides one. */
  lemma HiddenOption(m: seq<string>, t: string, m0: seq<string>)
    requires |m| == 4 && |m0| == 4 && t == m[1] + m[2] + m[3] && m[2] == "" && AllSpace(m[3])
    requires SystemShape(m[1]) && SystemShape(m0[1])
    requires Lang(OptionRe("ADMIN"), m0[2]) && m0[2] != "" && m[1] == m0[1] + m0[2]
    requires Match(NAME_AND_OPTION, t) == Some(m0[1..])
    ensures HidesOption(m[1])
  {
    hide Match, Expr, Lang, OptionRe, SystemShape, IsLetter, NAME_AND_OPTION, AFTER_NAME;
    SystemShapeEnds(m[1]);
    SystemShapeEnds(m0[1]);
    OptionMeansNoDot(m0[1], m0[2]);
    SpacesPlain(m[3]);
    NoOptionLang("ADMIN");
    OptionAndEnd("", m[3]);
    assert t == m[1] + m[3] && "" + m[3] == m[3];
    assert t[..|m[1]|] == m[1] && t[|m[1]|..] == m[3];
    assert m0[1..][0] == m0[1];
    ShortestName(t, m0[1..], |m[1]|);
    assert |m0[1]| >= 2;
    assert m[1][..|m0[1]|] == m0[1] && m[1][|m0[1]|..] == m0[2];
  }

  /** A system privilege is read as spelled: nothing else fits, there is neither ON nor a grant option, and the option
      does not follow a single letter nor hide in the name. */
  lemma ReadSystem(m: seq<string>, s: string, d: string)
    requires SystemSpelled(m, s) && forall id: PatternId | id != OfSystem :: !Spelled(id, s)
    requires !HasOn(m[1] + m[2]) && !HasOption(m[1] + m[2], "GRANT")
    requires if m[2] != "" then |m[1]| > 1 else !HidesOption(m[1])
    ensures Parse(s, d) == Ok(Privilege(System, m[1], "", "", m[2] != ""))
  {
    hide Match, Expr, PATTERNS, SystemShape, HidesOption, Spelled, Matches, HasOn, HasOption, OptionSpelled, FirstMatch;
    SystemFits(m, s);
    LatePatterns();
    forall i | 0 <= i < 11
      ensures Match(Expr(PATTERNS[i]), s).None?
    {
      OnlyLast(i);
      MatchesIff(PATTERNS[i], s);
      MatchesSpelled(PATTERNS[i], s);
    }
    FirstMatchAt(PATTERNS, 11, s);
    GuardsOf(m, s);
    SystemBuild(m, d);
  }

  lemma SystemBuild(m: seq<string>, d: string)
    requires |m| == 4
    ensures |Expr(OfSystem)| == 4 && Build(OfSystem, m, d) == Privilege(System, m[1], "", "", m[2] != "")
  {}

  lemma GuardsOf(m: seq<string>, s: string)
    requires SystemSpelled(m, s)
    ensures (HasOn(s) <==> HasOn(m[1] + m[2])) && (HasOption(s, "GRANT") <==> HasOption(m[1] + m[2], "GRANT"))
  {
    hide SystemShape, HasOn, HasOption, OptionSpelled, Lang, OptionRe, IsUnicodeSpace;
    OptionLang("ADMIN", m[2]);
    SystemEnds(m[1], m[2]);
    var t := m[1] + m[2];
    SystemNotSpaced(m[1], m[2]);
    Regrouped(m[0], m[1], m[2]);
    GuardsAround(m[0], t, m[3]);
  }

  /** No Unicode space at either end. */
  lemma SystemNotSpaced(x: string, o: string)
    requires SystemShape(x) && Lang(OptionRe("ADMIN"), o)
    ensures var t := x + o; t != "" && !IsUnicodeSpace(t[0]) && !IsUnicodeSpace(t[|t| - 1])
  {
    hide SystemShape, Lang, OptionRe, LastToken, Peel, IsWord;
    SystemShapeEnds(x);
    LetterNotUnicode(x[0]);
    if o == "" {
      assert x + o == x;
      SystemChars(x);
      WordNotSpace(x[|x| - 1]);
    } else {
      GrantIsToken();
      OptionPeel(x, o, "ADMIN");
      var t := LastToken(x + o);
      LastLetter(t);
      assert t[|t| - 1] == (x + o)[|x + o| - 1];
    }
  }

  lemma LetterNotUnicode(c: char)
    requires IsLetter(c)
    ensures !IsUnicodeSpace(c)
  {}

  lemma LastLetter(t: string)
    requires Upper(t) == "OPTION"
    ensures |t| == 6 && !IsUnicodeSpace(t[5])
  {
    hide UpperChar, IsUnicodeSpace;
    assert |t| == 6 && Upper(t)[5] == UpperChar(t[5]);
    UpperN(t[5]);
  }

  lemma UpperN(c: char)
    requires UpperChar(c) == 'N'
    ensures !IsUnicodeSpace(c)
  {}

  // ---------------------------------------------------------------- one word

  /** White space between two other characters. */
  predicate Broken(s: string) {
    exists i, j, k :: 0 <= i < j < k < |s| && !IsSpace(s[i]) && IsSpace(s[j]) && !IsSpace(s[k])
  }

  lemma BreakAt(a: string, b: string, c: string)
    requires b != "" && !IsSpace(b[0]) && EndsSpace(b) && c != "" && !IsSpace(c[0])
    ensures Broken(a + b + c)
  {
    var s := a + b + c;
    assert s[|a|] == b[0] && s[|a| + |b| - 1] == b[|b| - 1] && s[|a| + |b|] == c[0];
  }

  lemma ClauseBreaks(kws: seq<string>, m: seq<string>)
    requires |m| >= 4 && Proper(kws) && AllSpace(m[0]) && SolidName(m[1]) && ClauseSpelled(kws, m[2]) &&
             IdentShape(m[3])
    ensures Broken(m[0] + (m[1] + m[2]) + m[3])
  {
    hide ClauseSpelled, Lang, ClauseRe, Proper, Broken;
    ClauseLang(kws, m[2]);
    ClauseEnds(kws, m[2]);
    assert (m[1] + m[2])[|m[1] + m[2]| - 1] == m[2][|m[2]| - 1];
    SolidStart(m[1]);
    IdentFirst(m[3]);
    BreakAt(m[0], m[1] + m[2], m[3]);
  }

  lemma IdentFirst(g: string)
    requires IdentShape(g)
    ensures g != "" && !IsSpace(g[0])
  {}

  lemma BrokenMore(s: string, t: string)
    requires Broken(s)
    ensures Broken(s + t)
  {
    var i, j, k :| 0 <= i < j < k < |s| && !IsSpace(s[i]) && IsSpace(s[j]) && !IsSpace(s[k]);
    assert (s + t)[i] == s[i] && (s + t)[j] == s[j] && (s + t)[k] == s[k];
  }

  lemma DottedBroken(m: seq<string>, s: string)
    requires DottedSpelled(m, s)
    ensures Broken(s)
  {
    hide ClauseSpelled, OptionSpelled, IdentShape, Broken, NameShape, SolidName, Proper;
    NameIsSolid(m[1]);
    NoKeywords();
    ClauseBreaks([], m);
    BrokenMore(m[0] + (m[1] + m[2]) + m[3], m[4] + m[5] + m[6] + m[7]);
    assert s == m[0] + (m[1] + m[2]) + m[3] + (m[4] + m[5] + m[6] + m[7]);
  }

  lemma StructuredBroken(m: seq<string>, s: string)
    requires StructuredSpelled(m, s)
    ensures Broken(s)
  {
    hide OptionSpelled, IdentShape, HeadSpelled, Broken;
    HeadBreaks(m[0], m[1]);
    BrokenMore(m[0] + m[1], m[2] + m[3]);
    assert s == m[0] + m[1] + (m[2] + m[3]);
  }

  lemma TargetBroken(id: PatternId, m: seq<string>, s: string)
    requires Targeted(id) && TargetSpelled(id, m, s)
    ensures Broken(s)
  {
    hide ClauseSpelled, OptionSpelled, NameSpelled, IdentShape, Broken, SolidName, Proper, NameRe, Lang, Keywords;
    NameSpelledLang(id, m[1]);
    TargetedName(id, m[1]);
    KeywordsProper(id);
    ClauseBreaks(Keywords(id), m);
    BrokenMore(m[0] + (m[1] + m[2]) + m[3], m[4] + m[5]);
    assert s == m[0] + (m[1] + m[2]) + m[3] + (m[4] + m[5]);
  }

  /** Every other privilege has more than one word. */
  lemma OthersAreBroken(id: PatternId, s: string)
    requires id != OfSystem && Spelled(id, s)
    ensures Broken(s)
  {
    hide DottedSpelled, StructuredSpelled, TargetSpelled, Broken;
    if id == OnDotted {
      var m :| DottedSpelled(m, s);
      DottedBroken(m, s);
    } else if id == OfStructured {
      var m :| StructuredSpelled(m, s);
      StructuredBroken(m, s);
    } else {
      var m :| TargetSpelled(id, m, s);
      TargetBroken(id, m, s);
    }
  }

  lemma HeadBreaks(h: string, g: string)
    requires HeadSpelled(h) && IdentShape(g)
    ensures Broken(h + g)
  {
    hide Broken, PairSpelled, IdentShape;
    var sp, p, t :| h == sp + p + t && AllSpace(sp) && PairSpelled("STRUCTURED", "PRIVILEGE", p) && Gap(t);
    PairStarts(p);
    IdentFirst(g);
    assert (p + t)[|p + t| - 1] == t[|t| - 1];
    BreakAt(sp, p + t, g);
    assert h + g == sp + (p + t) + g;
  }

  lemma PairStarts(p: string)
    requires PairSpelled("STRUCTURED", "PRIVILEGE", p)
    ensures p != "" && !IsSpace(p[0])
  {
    var a, s, b :| p == a + s + b && Upper(a) == "STRUCTURED" && Gap(s) && Upper(b) == "PRIVILEGE";
    assert UpperChar(a[0]) == 'S' && p[0] == a[0];
  }

  lemma OneWordIsWhole(sp: string, x: string, tp: string)
    requires AllSpace(sp) && AllSpace(tp) && NoSpace(x)
    ensures !Broken(sp + x + tp)
  {
    var s := sp + x + tp;
    assert forall i | 0 <= i < |s| :: s[i] == if i < |sp| then sp[i] else if i < |sp| + |x| then x[i - |sp|]
                                              else tp[i - |sp| - |x|];
  }

  /** A system name of one word is read as it stands, whatever white space is around it. */
  lemma ReadOneWord(sp: string, x: string, tp: string, d: string)
    requires AllSpace(sp) && AllSpace(tp) && SystemShape(x) && NoSpace(x)
    ensures Parse(sp + x + tp, d) == Ok(Privilege(System, x, "", "", false))
  {
    hide Parse, SystemShape, Spelled, HasOn, HasOption, HidesOption, OptionSpelled, Broken, HasOnWord, TrimSpace;
    var m, s := [sp, x, "", tp], sp + x + tp;
    assert sp + x + "" + tp == s;
    assert OptionSpelled("ADMIN", "") by { NothingSpelled(); }
    OneWordIsWhole(sp, x, tp);
    forall id: PatternId | id != OfSystem
      ensures !Spelled(id, s)
    {
      if Spelled(id, s) {
        OthersAreBroken(id, s);
      }
    }
    NotHidden(x);
    OneWordGuards(x);
    assert x + "" == x;
    ReadSystem(m, s, d);
  }

  lemma NothingSpelled()
    ensures OptionSpelled("ADMIN", "")
  {}

  lemma OneWordGuards(x: string)
    requires SystemShape(x) && NoSpace(x)
    ensures !HasOn(x) && !HasOption(x, "GRANT")
  {
    hide SystemShape, HasOn, TrimSpace, Upper;
    SystemTrimmed(x, "");
    assert x + "" == x;
    OnGuard(x);
    NoGrantSuffix(x);
  }
}
