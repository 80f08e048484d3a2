/** Privilege strings as users may write them: any white space between words and around the text, and words in any case.
    First what the patterns accept, in these terms; then that such a text can be taken apart in one way only. */
module Spelling {
  import opened Strings
  import opened Regexp
  import opened Privileges
  import opened Grammar
  import opened Tails
  import opened Matching
  import opened Dotted
  import opened SystemNames
  import opened RoundTrip

  predicate Gap(t: string) {
    t != "" && AllSpace(t)
  }

  /** White space, ON and the keywords in any case, each followed by white space. */
  ghost predicate ClauseSpelled(kws: seq<string>, cl: string)
    decreases |kws|
  {
    if kws == [] then exists c, a, s :: cl == c + a + s && Gap(c) && Upper(a) == "ON" && Gap(s)
    else
      exists c, a, s ::
        cl == c + a + s && ClauseSpelled(kws[..|kws| - 1], c) && Upper(a) == kws[|kws| - 1] && Gap(s)
  }

  /** Nothing, or WITH, the word and OPTION in any case, each after white space. */
  ghost predicate OptionSpelled(w: string, o: string) {
    o == "" || exists s1, a, s2, b, s3, c :: OptionSplit(w, o, s1, a, s2, b, s3, c)
  }

  /** Two words in any case with white space between them. */
  ghost predicate PairSpelled(v: string, w: string, t: string) {
    exists a, s, b :: t == a + s + b && Upper(a) == v && Gap(s) && Upper(b) == w
  }

  ghost predicate NameSpelled(id: PatternId, n: string) {
    match id
    case OnUserGroup => PairSpelled("USERGROUP", "OPERATOR", n)
    case OnColumnKey => Upper(n) == "USAGE"
    case _ => NameShape(n)
  }

  ghost predicate HeadSpelled(h: string) {
    exists sp, p, t :: h == sp + p + t && AllSpace(sp) && PairSpelled("STRUCTURED", "PRIVILEGE", p) && Gap(t)
  }

  // ---------------------------------------------------------------- the parts

  lemma {:induction false} ClauseLang(kws: seq<string>, cl: string)
    ensures Lang(ClauseRe(kws), cl) <==> ClauseSpelled(kws, cl)
    decreases |kws|
  {
    hide Lang, Upper;
    if kws == [] {
      if Lang(ClauseRe(kws), cl) {
        var c, a, s := GapWordGapElim("ON", cl);
      }
      if c, a, s :| cl == c + a + s && Gap(c) && Upper(a) == "ON" && Gap(s) {
        GapLang(c);
        AnyCaseLang("ON", a);
        GapLang(s);
        Cat3Intro(GAP, AnyCase("ON"), GAP, c, a, s);
      }
    } else {
      var n := |kws| - 1;
      if Lang(ClauseRe(kws), cl) {
        var c, a, s := Cat3Elim(ClauseRe(kws[..n]), AnyCase(kws[n]), GAP, cl);
        ClauseLang(kws[..n], c);
        AnyCaseLang(kws[n], a);
        GapLang(s);
      }
      if c, a, s :| cl == c + a + s && ClauseSpelled(kws[..n], c) && Upper(a) == kws[n] && Gap(s) {
        ClauseLang(kws[..n], c);
        AnyCaseLang(kws[n], a);
        GapLang(s);
        Cat3Intro(ClauseRe(kws[..n]), AnyCase(kws[n]), GAP, c, a, s);
      }
    }
  }

  lemma OptionLang(w: string, o: string)
    ensures Lang(OptionRe(w), o) <==> OptionSpelled(w, o)
  {
    hide Lang, Upper;
    if o == "" {
      NoOptionLang(w);
    } else if Lang(OptionRe(w), o) {
      var s1, a, s2, b, s3, c := OptionElim(w, o);
    } else if OptionSpelled(w, o) {
      var s1, a, s2, b, s3, c :| OptionSplit(w, o, s1, a, s2, b, s3, c);
      GapLang(s1);
      GapLang(s2);
      GapLang(s3);
      AnyCaseLang("WITH", a);
      AnyCaseLang(w, b);
      AnyCaseLang("OPTION", c);
      Cat6Intro(GAP, AnyCase("WITH"), GAP, AnyCase(w), GAP, AnyCase("OPTION"), s1, a, s2, b, s3, c);
      SomeOptionLang(w, o);
    }
  }

  lemma NoOptionLang(w: string)
    ensures Lang(OptionRe(w), "")
  {}

  lemma SomeOptionLang(w: string, o: string)
    requires Lang(Cat(GAP, Cat(AnyCase("WITH"), Cat(GAP, Cat(AnyCase(w), Cat(GAP, AnyCase("OPTION")))))), o)
    ensures Lang(OptionRe(w), o)
  {}

  lemma PairLang(v: string, w: string, t: string)
    ensures Lang(Cat(AnyCase(v), Cat(GAP, AnyCase(w))), t) <==> PairSpelled(v, w, t)
  {
    hide Lang, Upper;
    if Lang(Cat(AnyCase(v), Cat(GAP, AnyCase(w))), t) {
      var a, s, b := Cat3Elim(AnyCase(v), GAP, AnyCase(w), t);
      AnyCaseLang(v, a);
      GapLang(s);
      AnyCaseLang(w, b);
    }
    if a, s, b :| t == a + s + b && Upper(a) == v && Gap(s) && Upper(b) == w {
      AnyCaseLang(v, a);
      GapLang(s);
      AnyCaseLang(w, b);
      Cat3Intro(AnyCase(v), GAP, AnyCase(w), a, s, b);
    }
  }

  lemma NameSpelledLang(id: PatternId, n: string)
    requires Targeted(id)
    ensures Lang(NameRe(id), n) <==> NameSpelled(id, n)
  {
    hide Lang, Upper, NameShape;
    match id
    case OnUserGroup => PairLang("USERGROUP", "OPERATOR", n);
    case OnColumnKey => AnyCaseLang("USAGE", n);
    case _ => NameLang(n);
  }

  /** The head of a structured privilege. */
  const HEAD_RE: Regex := Cat(WS, Cat(AnyCase("STRUCTURED"), Cat(GAP, Cat(AnyCase("PRIVILEGE"), GAP))))

  lemma HeadSpelledLang(h: string)
    ensures Lang(HEAD_RE, h) <==> HeadSpelled(h)
  {
    hide Lang, HEAD_RE, PairSpelled;
    if Lang(HEAD_RE, h) {
      HeadTakenApart(h);
    }
    if sp, p, t :| h == sp + p + t && AllSpace(sp) && PairSpelled("STRUCTURED", "PRIVILEGE", p) && Gap(t) {
      HeadPutTogether(sp, p, t);
    }
  }

  lemma HeadTakenApart(h: string)
    requires Lang(HEAD_RE, h)
    ensures HeadSpelled(h)
  {
    hide Lang, Upper;
    var sp, a, r := Cat3Elim(WS, AnyCase("STRUCTURED"), Cat(GAP, Cat(AnyCase("PRIVILEGE"), GAP)), h);
    var s, b, t := Cat3Elim(GAP, AnyCase("PRIVILEGE"), GAP, r);
    SpacesLang(sp);
    AnyCaseLang("STRUCTURED", a);
    GapLang(s);
    AnyCaseLang("PRIVILEGE", b);
    GapLang(t);
    PairIs(a, s, b, "STRUCTURED", "PRIVILEGE");
    hide PairSpelled;
    assert h == sp + (a + s + b) + t;
  }

  lemma PairIs(a: string, s: string, b: string, v: string, w: string)
    requires Upper(a) == v && Gap(s) && Upper(b) == w
    ensures PairSpelled(v, w, a + s + b)
  {
    hide Upper;
  }

  lemma HeadPutTogether(sp: string, p: string, t: string)
    requires AllSpace(sp) && PairSpelled("STRUCTURED", "PRIVILEGE", p) && Gap(t)
    ensures Lang(HEAD_RE, sp + p + t)
  {
    hide Lang, Upper;
    var a, s, b :| p == a + s + b && Upper(a) == "STRUCTURED" && Gap(s) && Upper(b) == "PRIVILEGE";
    hide PairSpelled;
    SpacesLang(sp);
    AnyCaseLang("STRUCTURED", a);
    GapLang(s);
    AnyCaseLang("PRIVILEGE", b);
    GapLang(t);
    Cat3Intro(GAP, AnyCase("PRIVILEGE"), GAP, s, b, t);
    Cat3Intro(WS, AnyCase("STRUCTURED"), Cat(GAP, Cat(AnyCase("PRIVILEGE"), GAP)), sp, a, s + b + t);
    HeadRegroup(sp, a, s, b, t);
  }

  lemma HeadRegroup(sp: string, a: string, s: string, b: string, t: string)
    ensures sp + a + (s + b + t) == sp + (a + s + b) + t
  {}

  // ---------------------------------------------------------------- what the patterns accept

  lemma SplitsSix(rs: seq<Regex>, m: seq<string>, s: string)
    requires |rs| == 6 && |m| == 6
    ensures Splits(rs, m, s) <==>
            && s == m[0] + m[1] + m[2] + m[3] + m[4] + m[5]
            && Lang(rs[0], m[0]) && Lang(rs[1], m[1]) && Lang(rs[2], m[2])
            && Lang(rs[3], m[3]) && Lang(rs[4], m[4]) && Lang(rs[5], m[5])
  {
    hide Lang, Flat;
    Flat6(m);
  }

  lemma SplitsEight(rs: seq<Regex>, m: seq<string>, s: string)
    requires |rs| == 8 && |m| == 8
    ensures Splits(rs, m, s) <==>
            && s == m[0] + m[1] + m[2] + m[3] + m[4] + m[5] + m[6] + m[7]
            && Lang(rs[0], m[0]) && Lang(rs[1], m[1]) && Lang(rs[2], m[2]) && Lang(rs[3], m[3])
            && Lang(rs[4], m[4]) && Lang(rs[5], m[5]) && Lang(rs[6], m[6]) && Lang(rs[7], m[7])
  {
    hide Lang, Flat;
    Flat8(m);
  }

  lemma SplitsFour(rs: seq<Regex>, m: seq<string>, s: string)
    requires |rs| == 4 && |m| == 4
    ensures Splits(rs, m, s) <==>
            && s == m[0] + m[1] + m[2] + m[3]
            && Lang(rs[0], m[0]) && Lang(rs[1], m[1]) && Lang(rs[2], m[2]) && Lang(rs[3], m[3])
  {
    hide Lang, Flat;
    Flat4(m);
  }

  /** The parts of a text with a clause, as it may be written. */
  ghost predicate TargetSpelled(id: PatternId, m: seq<string>, s: string) {
    && |m| == 6 && s == m[0] + m[1] + m[2] + m[3] + m[4] + m[5]
    && AllSpace(m[0]) && NameSpelled(id, m[1]) && ClauseSpelled(Keywords(id), m[2])
    && IdentShape(m[3]) && OptionSpelled("GRANT", m[4]) && AllSpace(m[5])
  }

  lemma TargetSplits(id: PatternId, m: seq<string>, s: string)
    requires Targeted(id)
    ensures Splits(Expr(id), m, s) <==> TargetSpelled(id, m, s)
  {
    hide Lang, ClauseRe, OptionRe, Keywords, NameRe, Splits, IdentShape, NameSpelled, ClauseSpelled, OptionSpelled;
    assert Expr(id) == [WS, NameRe(id), ClauseRe(Keywords(id)), IDENT, OptionRe("GRANT"), WS];
    if |m| == 6 {
      SplitsSix(Expr(id), m, s);
      SpacesLang(m[0]);
      NameSpelledLang(id, m[1]);
      ClauseLang(Keywords(id), m[2]);
      IdentLang(m[3]);
      OptionLang("GRANT", m[4]);
      SpacesLang(m[5]);
    } else {
      SplitsLength(Expr(id), m, s);
    }
  }

  lemma SplitsLength(rs: seq<Regex>, m: seq<string>, s: string)
    ensures Splits(rs, m, s) ==> |m| == |rs|
  {}

  ghost predicate DottedSpelled(m: seq<string>, s: string) {
    && |m| == 8 && s == m[0] + m[1] + m[2] + m[3] + m[4] + m[5] + m[6] + m[7]
    && AllSpace(m[0]) && NameShape(m[1]) && ClauseSpelled([], m[2])
    && IdentShape(m[3]) && m[4] == "." && IdentShape(m[5]) && OptionSpelled("GRANT", m[6]) && AllSpace(m[7])
  }

  lemma DottedSplitsIff(m: seq<string>, s: string)
    ensures Splits(Expr(OnDotted), m, s) <==> DottedSpelled(m, s)
  {
    hide Lang, ClauseRe, OptionRe, Splits, IdentShape, NameShape, ClauseSpelled, OptionSpelled;
    assert Expr(OnDotted) == [WS, NAME, ClauseRe([]), IDENT, DOT, IDENT, OptionRe("GRANT"), WS];
    if |m| == 8 {
      SplitsEight(Expr(OnDotted), m, s);
      SpacesLang(m[0]);
      NameLang(m[1]);
      ClauseLang([], m[2]);
      IdentLang(m[3]);
      DotLang(m[4]);
      IdentLang(m[5]);
      OptionLang("GRANT", m[6]);
      SpacesLang(m[7]);
    } else {
      SplitsLength(Expr(OnDotted), m, s);
    }
  }

  ghost predicate StructuredSpelled(m: seq<string>, s: string) {
    && |m| == 4 && s == m[0] + m[1] + m[2] + m[3]
    && HeadSpelled(m[0]) && IdentShape(m[1]) && OptionSpelled("GRANT", m[2]) && AllSpace(m[3])
  }

  lemma StructuredSplitsIff(m: seq<string>, s: string)
    ensures Splits(Expr(OfStructured), m, s) <==> StructuredSpelled(m, s)
  {
    hide Lang, OptionRe, Splits, IdentShape, HeadSpelled, OptionSpelled;
    assert Expr(OfStructured) == [HEAD_RE, IDENT, OptionRe("GRANT"), WS];
    if |m| == 4 {
      SplitsFour(Expr(OfStructured), m, s);
      HeadSpelledLang(m[0]);
      IdentLang(m[1]);
      OptionLang("GRANT", m[2]);
      SpacesLang(m[3]);
    } else {
      SplitsLength(Expr(OfStructured), m, s);
    }
  }

  ghost predicate SystemSpelled(m: seq<string>, s: string) {
    && |m| == 4 && s == m[0] + m[1] + m[2] + m[3]
    && AllSpace(m[0]) && SystemShape(m[1]) && OptionSpelled("ADMIN", m[2]) && AllSpace(m[3])
  }

  lemma SystemSplitsIff(m: seq<string>, s: string)
    ensures Splits(Expr(OfSystem), m, s) <==> SystemSpelled(m, s)
  {
    hide Lang, OptionRe, Splits, SystemShape, OptionSpelled;
    assert Expr(OfSystem) == [WS, SYSTEM_NAME, OptionRe("ADMIN"), WS];
    if |m| == 4 {
      SplitsFour(Expr(OfSystem), m, s);
      SpacesLang(m[0]);
      SystemLang(m[1]);
      OptionLang("ADMIN", m[2]);
      SpacesLang(m[3]);
    } else {
      SplitsLength(Expr(OfSystem), m, s);
    }
  }

  /** What a pattern accepts. */
  ghost predicate Spelled(id: PatternId, s: string) {
    match id
    case OnDotted => exists m :: DottedSpelled(m, s)
    case OfStructured => exists m :: StructuredSpelled(m, s)
    case OfSystem => exists m :: SystemSpelled(m, s)
    case _ => exists m :: TargetSpelled(id, m, s)
  }

  /** A text is accepted by a pattern exactly when it is spelled so. */
  lemma MatchesSpelled(id: PatternId, s: string)
    ensures Matches(id, s) <==> Spelled(id, s)
  {
    hide Splits, Expr, Keywords, NameSpelled, ClauseSpelled, OptionSpelled, IdentShape, HeadSpelled, SystemShape,
        NameShape;
    forall m: seq<string>
      ensures Targeted(id) ==> (Splits(Expr(id), m, s) <==> TargetSpelled(id, m, s))
      ensures id == OnDotted ==> (Splits(Expr(id), m, s) <==> DottedSpelled(m, s))
      ensures id == OfStructured ==> (Splits(Expr(id), m, s) <==> StructuredSpelled(m, s))
      ensures id == OfSystem ==> (Splits(Expr(id), m, s) <==> SystemSpelled(m, s))
    {
      if Targeted(id) {
        TargetSplits(id, m, s);
      } else if id == OnDotted {
        DottedSplitsIff(m, s);
      } else if id == OfStructured {
        StructuredSplitsIff(m, s);
      } else {
        SystemSplitsIff(m, s);
      }
    }
  }
}
