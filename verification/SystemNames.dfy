/** The two patterns without a clause: structured privileges, and system privileges with their lazily matched name. */
module SystemNames {
  import opened Strings
  import opened Regexp
  import opened Privileges
  import opened Grammar
  import opened Tokens
  import opened Tails
  import opened Matching
  import opened Dotted

  // ---------------------------------------------------------------- structured privileges

  const HEAD: string := "STRUCTURED PRIVILEGE "

  lemma HeadFacts()
    ensures EndsSpace(HEAD) && QUOTE !in HEAD && '.' !in HEAD
    ensures HeadWord(HEAD) == "PRIVILEGE"
  {
    hide HeadWord;
    assert HEAD == "" + ("STRUCTURED " + "PRIVILEGE" + " ");
    HeadWordPlain("", "STRUCTURED ", "PRIVILEGE", " ");
  }

  lemma StructuredHead(u: string, v: string, w: string)
    requires Capitals(v) && Capitals(w)
    requires Lang(Cat(WS, Cat(AnyCase(v), Cat(GAP, Cat(AnyCase(w), GAP)))), u)
    ensures EndsSpace(u) && QUOTE !in u && '.' !in u
    ensures Upper(HeadWord(u)) == w
    ensures |u| >= |v| + |w| + 2
  {
    hide Lang, Upper, HeadWord, Capitals;
    var s0, a, r := Cat3Elim(WS, AnyCase(v), Cat(GAP, Cat(AnyCase(w), GAP)), u);
    var s1, b, s2 := Cat3Elim(GAP, AnyCase(w), GAP, r);
    SpacesLang(s0);
    AnyCaseLang(v, a);
    GapLang(s1);
    AnyCaseLang(w, b);
    GapLang(s2);
    CapitalsWord(a, v);
    CapitalsWord(b, w);
    TokenOfCapitals(b, w);
    HeadWordPlain(s0 + a, s1, b, s2);
    assert u == s0 + a + (s1 + b + s2);
  }

  lemma TokenOfCapitals(b: string, w: string)
    requires Upper(b) == w && Capitals(w)
    ensures IsToken(b)
  {
    TokenOf(b, w);
  }

  ghost predicate StructuredParts(m: seq<string>, s: string) {
    && |m| == 4
    && s == m[0] + m[1] + m[2] + m[3]
    && EndsSpace(m[0]) && QUOTE !in m[0] && Upper(HeadWord(m[0])) == "PRIVILEGE" && |m[0]| >= |HEAD|
    && IdentShape(m[1]) && Lang(OptionRe("GRANT"), m[2]) && AllSpace(m[3])
  }

  /** The texts of identifiers that the printer writes. */
  predicate PrintedIdent(q: string) {
    IdentShape(q) && EndsSolid(q) && (q[0] == QUOTE == q[|q| - 1] || NoSpace(q))
  }

  lemma StructuredMatchParts(s: string)
    requires Match(Expr(OfStructured), s).Some?
    ensures StructuredParts(Match(Expr(OfStructured), s).value, s)
  {
    hide Lang, OptionRe, Match, Capitals, Upper, HeadWord;
    var rs, m := Expr(OfStructured), Match(Expr(OfStructured), s).value;
    MatchSound(rs, s);
    assert Lang(rs[0], m[0]) && Lang(rs[1], m[1]) && Lang(rs[2], m[2]) && Lang(rs[3], m[3]);
    Flat4(m);
    CapitalHeads();
    StructuredHead(m[0], "STRUCTURED", "PRIVILEGE");
    IdentLang(m[1]);
    SpacesLang(m[3]);
  }

  lemma CapitalHeads()
    ensures Capitals("STRUCTURED") && Capitals("PRIVILEGE")
  {}

  lemma HeadLang(v: string, w: string)
    requires Capitals(v) && Capitals(w)
    ensures Lang(Cat(WS, Cat(AnyCase(v), Cat(GAP, Cat(AnyCase(w), GAP)))), v + " " + w + " ")
  {
    hide Lang, Upper;
    UpperId(v);
    UpperId(w);
    SpacesLang("");
    AnyCaseLang(v, v);
    GapLang(" ");
    AnyCaseLang(w, w);
    Cat3Intro(GAP, AnyCase(w), GAP, " ", w, " ");
    Cat3Intro(WS, AnyCase(v), Cat(GAP, Cat(AnyCase(w), GAP)), "", v, " " + w + " ");
    assert "" + v + (" " + w + " ") == v + " " + w + " ";
  }

  lemma StructuredSplits(n: string, o: string)
    requires PrintedIdent(n) && (o == "" || o == WithOption("GRANT"))
    ensures Splits(Expr(OfStructured), [HEAD, n, o, ""], HEAD + n + o)
  {
    hide Lang, OptionRe, WithOption, Upper, Capitals, Flat;
    CapitalHeads();
    HeadLang("STRUCTURED", "PRIVILEGE");
    assert HEAD == "STRUCTURED" + " " + "PRIVILEGE" + " ";
    IdentLang(n);
    UpperId("GRANT");
    OptionIntro("GRANT");
    SpacesLang("");
    Flat4([HEAD, n, o, ""]);
    assert HEAD + n + o + "" == HEAD + n + o;
  }

  /** A printed structured privilege matches its own pattern in one way. */
  lemma StructuredMatch(n: string, o: string)
    requires PrintedIdent(n) && (o == "" || o == WithOption("GRANT"))
    ensures Match(Expr(OfStructured), HEAD + n + o) == Some([HEAD, n, o, ""])
  {
    hide Lang, OptionRe, WithOption, Match, Upper, HeadWord, Capitals;
    var s := HEAD + n + o;
    StructuredSplits(n, o);
    MatchComplete(Expr(OfStructured), [HEAD, n, o, ""], s);
    StructuredMatchParts(s);
    UpperId("GRANT");
    var m := Match(Expr(OfStructured), s).value;
    HeadFacts();
    UpperId("PRIVILEGE");
    TailUnique(m[0], m[1], m[2], m[3], HEAD, n, o, "GRANT");
    assert m == [m[0], m[1], m[2], m[3]];
  }

  lemma NotPrivilege(id: PatternId)
    ensures LastWord(Keywords(id)) != "PRIVILEGE"
  {
    var kws := Keywords(id);
    assert kws != [] ==> |kws[|kws| - 1]| != 9 || kws[|kws| - 1][0] != 'P';
  }

  /** A printed structured privilege matches no pattern with a clause. */
  lemma StructuredNotTargeted(id: PatternId, n: string, o: string)
    requires Targeted(id)
    requires PrintedIdent(n) && (o == "" || o == WithOption("GRANT"))
    ensures Match(Expr(id), HEAD + n + o).None?
  {
    hide Lang, OptionRe, WithOption, Match, Upper, HeadWord, ClauseRe, Keywords, NameRe;
    var s := HEAD + n + o;
    if Match(Expr(id), s).Some? {
      TargetedParts(id, s);
      var m := Match(Expr(id), s).value;
      var v := m[0] + m[1];
      KeywordsProper(id);
      ClauseEnds(Keywords(id), m[2]);
      HeadWordOfClause(v, m[2], Keywords(id));
      NotGrant(Keywords(id));
      HeadFacts();
      UpperId("PRIVILEGE");
      UpperId("GRANT");
      assert QUOTE !in v + m[2];
      TailUnique(v + m[2], m[3], m[4], m[5], HEAD, n, o, "GRANT");
      NotPrivilege(id);
    }
  }

  lemma StructuredNotDotted(n: string, o: string)
    requires PrintedIdent(n) && (o == "" || o == WithOption("GRANT"))
    ensures Match(Expr(OnDotted), HEAD + n + o).None?
  {
    hide Lang, OptionRe, WithOption, Match, Upper, HeadWord, ClauseRe;
    var s := HEAD + n + o;
    if Match(Expr(OnDotted), s).Some? {
      DottedMatchParts(s);
      var m := Match(Expr(OnDotted), s).value;
      var v := m[0] + m[1];
      NameIsSolid(m[1]);
      ClauseEnds([], m[2]);
      HeadWordOfClause(v, m[2], []);
      HeadFacts();
      UpperId("PRIVILEGE");
      assert QUOTE !in v + m[2];
      UpperId("GRANT");
      DottedTail(v + m[2], m[3], m[5], m[6], m[7], HEAD, n, o, "GRANT");
    }
  }

  // ---------------------------------------------------------------- system privileges

  predicate Ascending(ks: seq<nat>) {
    forall i, j | 0 <= i < j < |ks| :: ks[i] < ks[j]
  }

  /** A lazy star of single characters offers its lengths shortest first. */
  lemma {:induction false} LazyAscending(c: Class, s: string)
    ensures Ascending(Prefixes(Star(One(c), true), s))
    decreases |s|
  {
    var re := Star(One(c), true);
    if s != "" && In(s[0], c) {
      LazyAscending(c, s[1..]);
      var rest := Prefixes(re, s[1..]);
      assert Prefixes(One(c), s) == [1];
      assert Again([1], re, s) == Shift(1, rest) + Again([1][1..], re, s);
      assert Prefixes(re, s) == [0] + Shift(1, rest);
    } else {
      assert Prefixes(re, s) == [0] + Again([], re, s);
    }
  }

  lemma ThenFirst(ks: seq<nat>, re: Regex, s: string)
    requires Within(ks, |s|) && ks != []
    ensures Then(ks, re, s) == Shift(ks[0], Prefixes(re, s[ks[0]..])) + Then(ks[1..], re, s)
  {
    hide Prefixes;
  }

  lemma OneShort(e: Class, s: string)
    ensures Prefixes(One(e), s) == [] || Prefixes(One(e), s) == [1]
  {}

  lemma {:induction false} ThenOneAscending(ks: seq<nat>, e: Class, s: string)
    requires Within(ks, |s|) && Ascending(ks)
    ensures Ascending(Then(ks, One(e), s))
    ensures forall i | 0 <= i < |Then(ks, One(e), s)| :: ks != [] && ks[0] < Then(ks, One(e), s)[i]
    decreases |ks|
  {
    if ks != [] {
      ThenOneAscending(ks[1..], e, s);
      hide Prefixes, Then;
      ThenFirst(ks, One(e), s);
      OneShort(e, s[ks[0]..]);
      var first, rest := Shift(ks[0], Prefixes(One(e), s[ks[0]..])), Then(ks[1..], One(e), s);
      assert forall i | 0 <= i < |first| :: first[i] == ks[0] + 1;
      assert ks[1..] != [] ==> ks[1..][0] == ks[1];
    }
  }

  /** Without a dot in the text, the optional `.word` always matches nothing. */
  lemma {:induction false} ThenNoDot(ks: seq<nat>, s: string)
    requires Within(ks, |s|) && '.' !in s
    ensures Then(ks, Alt(Cat(DOT, DOTTED_WORD), Eps), s) == ks
    decreases |ks|
  {
    if ks != [] {
      ThenNoDot(ks[1..], s);
      NoDot(s[ks[0]..]);
      hide Prefixes, Then;
      ThenFirst(ks, Alt(Cat(DOT, DOTTED_WORD), Eps), s);
      assert Shift(ks[0], [0]) == [ks[0]];
      assert ks == [ks[0]] + ks[1..];
    }
  }

  lemma NoDot(s: string)
    requires '.' !in s
    ensures Prefixes(Alt(Cat(DOT, DOTTED_WORD), Eps), s) == [0]
  {
    assert Prefixes(DOT, s) == [];
    assert Prefixes(Cat(DOT, DOTTED_WORD), s) == [];
  }

  /** The order in which lengths of a system name are tried on a text without dots: from two on, shortest first,
      and a single letter last. */
  lemma SystemOrder(s: string)
    requires s != "" && IsLetter(s[0]) && '.' !in s
    ensures var ks := Prefixes(SYSTEM_NAME, s);
            && ks != [] && ks[|ks| - 1] == 1 && Ascending(ks[..|ks| - 1])
            && forall i | 0 <= i < |ks| - 1 :: ks[i] >= 2
  {
    var t := s[1..];
    var c := Cat(Star(One(WordOrSpace), true), One(Word));
    var b := Alt(Cat(DOT, DOTTED_WORD), Eps);
    var stars := Prefixes(Star(One(WordOrSpace), true), t);
    LazyAscending(WordOrSpace, t);
    ThenOneAscending(stars, Word, t);
    var longer := Prefixes(c, t);
    assert Ascending(longer) && forall i | 0 <= i < |longer| :: longer[i] >= 1;
    AltPrefixes(c, Eps, t);
    ThenNoDot(Prefixes(STEM_TAIL, t), t);
    SystemShift(s, longer + [0]);
  }

  lemma SystemShift(s: string, ks: seq<nat>)
    requires s != "" && IsLetter(s[0])
    requires Prefixes(Cat(STEM_TAIL, Alt(Cat(DOT, DOTTED_WORD), Eps)), s[1..]) == ks
    ensures Prefixes(SYSTEM_NAME, s) == Shift(1, ks)
  {
    var re := Cat(STEM_TAIL, Alt(Cat(DOT, DOTTED_WORD), Eps));
    ThenSingle(1, re, s);
  }

  lemma ThenSingle(k: nat, re: Regex, s: string)
    requires k <= |s|
    ensures Then([k], re, s) == Shift(k, Prefixes(re, s[k..]))
  {
    assert Then([k][1..], re, s) == [];
  }

  lemma SystemLang(t: string)
    ensures Lang(SYSTEM_NAME, t) <==> SystemShape(t)
  {
    hide Lang;
    if Lang(SYSTEM_NAME, t) {
      var stem, suffix := SystemNameElim(t);
      assert t[..|stem|] == stem && t[|stem|..] == suffix;
      assert suffix == "" ==> t == stem;
    }
    if SystemShape(t) {
      if SystemStem(t) {
        SystemNameIntro(t, "");
        assert t + "" == t;
      } else {
        var k :| 0 < k < |t| && SystemStem(t[..k]) && SystemSuffix(t[k..]);
        SystemNameIntro(t[..k], t[k..]);
        assert t == t[..k] + t[k..];
      }
    }
  }

  lemma SystemShapeEnds(t: string)
    requires SystemShape(t)
    ensures t != "" && IsLetter(t[0]) && EndsSolid(t)
  {
    if !SystemStem(t) {
      var k :| 0 < k < |t| && SystemStem(t[..k]) && SystemSuffix(t[k..]);
      assert t[|t| - 1] == t[k..][|t| - k - 1];
    }
  }

  ghost predicate IsOption(w: string, t: string) {
    t != "" && Lang(OptionRe(w), t)
  }

  ghost predicate SystemParts(m: seq<string>, s: string) {
    && |m| == 4
    && s == m[0] + m[1] + m[2] + m[3]
    && AllSpace(m[0]) && SystemShape(m[1]) && Lang(OptionRe("ADMIN"), m[2]) && AllSpace(m[3])
  }

  lemma SystemMatchParts(s: string)
    requires Match(Expr(OfSystem), s).Some?
    ensures SystemParts(Match(Expr(OfSystem), s).value, s)
  {
    hide Lang, OptionRe, Match, SystemShape;
    var rs, m := Expr(OfSystem), Match(Expr(OfSystem), s).value;
    MatchSound(rs, s);
    assert Lang(rs[0], m[0]) && Lang(rs[1], m[1]) && Lang(rs[2], m[2]) && Lang(rs[3], m[3]);
    Flat4(m);
    SpacesLang(m[0]);
    SystemLang(m[1]);
    SpacesLang(m[3]);
  }

  /** Every match of a printed system privilege either has its name and option, or mistakes the option for
      part of the name, or the end of the name for an option. */
  lemma SystemCandidates(m: seq<string>, x: string, o: string)
    requires SystemParts(m, x + o) && SystemShape(x)
    requires o == "" || o == WithOption("ADMIN")
    ensures m[0] == "" && m[3] == "" && m[1] + m[2] == x + o
    ensures (m[2] == "") == (o == "") ==> m[1] == x && m[2] == o
  {
    hide Lang, OptionRe, WithOption, SystemShape, Upper;
    SystemShapeEnds(x);
    SystemShapeEnds(m[1]);
    UpperId("ADMIN");
    assert m[0] + m[1] + m[2] + m[3] == x + o;
    EndUnique(m[0] + m[1], m[2], m[3], x, o, "ADMIN");
    assert (x + o)[0] == x[0];
    assert m[0] == "";
  }

  const AFTER_NAME: seq<Regex> := [OptionRe("ADMIN"), WS]

  lemma OptionThenEnd(t: string)
    requires Lang(OptionRe("ADMIN"), t)
    ensures Match(AFTER_NAME, t).Some?
  {
    hide Lang, OptionRe, Match;
    SpacesLang("");
    assert Flat([t, ""]) == t + Flat([t, ""][1..]);
    assert [t, ""][1..] == [""];
    assert Flat([""]) == "" + Flat([]);
    assert t + "" == t;
    MatchComplete(AFTER_NAME, [t, ""], t);
  }

  /** Of all ways to end the name, the preferred one is the shortest of at least two letters. */
  lemma SystemChosen(s: string, k: nat)
    requires s != "" && IsLetter(s[0]) && '.' !in s
    requires Match(Expr(OfSystem), s).Some? && Match(Expr(OfSystem), s).value[0] == ""
    requires k <= |s| && SystemShape(s[..k]) && Lang(OptionRe("ADMIN"), s[k..])
    ensures var c := |Match(Expr(OfSystem), s).value[1]|;
            (c == 1 ==> k == 1) && (c >= 2 && k >= 2 ==> c <= k)
  {
    hide Lang, OptionRe, Match, Prefixes, SystemShape, SYSTEM_NAME;
    var rs, m := Expr(OfSystem), Match(Expr(OfSystem), s).value;
    MatchSound(rs, s);
    var rest := rs[1..];
    assert rest[1..] == AFTER_NAME && s[0..] == s;
    var ks := Prefixes(SYSTEM_NAME, s);
    MatchIsFirstOf(rest, s);
    var i := FirstOfPicks(ks, rest, s);
    assert m[1..][0] == s[..ks[i]];
    SystemLang(s[..k]);
    PrefixesAreLang(SYSTEM_NAME, s, k);
    var j :| 0 <= j < |ks| && ks[j] == k;
    OptionThenEnd(s[k..]);
    assert i <= j;
    SystemOrder(s);
    assert i < |ks| - 1 && j < |ks| - 1 && i < j ==> ks[..|ks| - 1][i] < ks[..|ks| - 1][j];
  }

  lemma MatchIsFirstOf(rs: seq<Regex>, s: string)
    requires rs != []
    ensures Match(rs, s) == FirstOf(Prefixes(rs[0], s), rs, s)
  {}

  /** A name whose end would be read as the option. */
  ghost predicate HidesOption(n: string) {
    exists k | 2 <= k < |n| :: SystemShape(n[..k]) && IsOption("ADMIN", n[k..])
  }

  /** The dot of a system name is in its last token. */
  lemma DotIsLast(s: string)
    requires SystemShape(s)
    ensures '.' !in s || '.' in LastToken(s)
  {
    hide LastToken, SystemStem, SystemSuffix;
    if SystemStem(s) {
      StemNoDot(s);
    } else {
      var k :| 0 < k < |s| && SystemStem(s[..k]) && SystemSuffix(s[k..]);
      SuffixDot(s[..k], s[k..]);
      assert s == s[..k] + s[k..];
    }
  }

  lemma StemNoDot(s: string)
    requires SystemStem(s)
    ensures '.' !in s
  {}

  lemma SuffixDot(x: string, t: string)
    requires SystemSuffix(t)
    ensures '.' in LastToken(x + t)
  {
    SuffixInToken(x, t);
    var r := LastToken(x + t);
    assert r[|r| - |t|..][0] == '.';
  }

  /** A system name that ends in an option has no dot. */
  lemma OptionMeansNoDot(y: string, t: string)
    requires EndsSolid(y) && SystemShape(y + t) && IsOption("ADMIN", t)
    ensures '.' !in y + t
  {
    hide Lang, OptionRe, Upper, Peel, LastToken, SystemShape;
    OptionPeel(y, t, "ADMIN");
    UpperKeeps(LastToken(y + t));
    DotIsLast(y + t);
  }

  lemma SystemSplits(x: string, o: string)
    requires SystemShape(x) && (o == "" || o == WithOption("ADMIN"))
    ensures Match(Expr(OfSystem), x + o).Some?
  {
    hide Lang, OptionRe, WithOption, Match, SystemShape, Upper;
    SpacesLang("");
    SystemLang(x);
    UpperId("ADMIN");
    OptionIntro("ADMIN");
    Flat4(["", x, o, ""]);
    assert "" + x + o + "" == x + o;
    MatchComplete(Expr(OfSystem), ["", x, o, ""], x + o);
  }

  /** Exactly when a printed system privilege is matched with its own name and option. */
  lemma SystemMatch(x: string, o: string)
    requires SystemShape(x) && (o == "" || o == WithOption("ADMIN"))
    ensures Match(Expr(OfSystem), x + o) == Some(["", x, o, ""]) <==> if o != "" then |x| > 1 else !HidesOption(x)
  {
    hide Lang, OptionRe, WithOption, Match, SystemShape, HidesOption;
    SystemSplits(x, o);
    SystemMatchParts(x + o);
    var m := Match(Expr(OfSystem), x + o).value;
    SystemCandidates(m, x, o);
    assert m == [m[0], m[1], m[2], m[3]];
    if o != "" {
      SystemMatchWith(m, x, o);
    } else {
      assert x + o == x;
      SystemMatchWithout(m, x);
    }
  }

  lemma SystemMatchWith(m: seq<string>, x: string, o: string)
    requires SystemShape(x) && o == WithOption("ADMIN")
    requires Match(Expr(OfSystem), x + o) == Some(m) && |m| == 4 && m[0] == "" && m[1] + m[2] == x + o
    requires SystemParts(m, x + o)
    requires m[2] != "" ==> m[1] == x
    ensures m[2] != "" <==> |x| > 1
  {
    hide Lang, OptionRe, Match, Upper;
    SystemShapeEnds(x);
    UpperId("ADMIN");
    OptionIntro("ADMIN");
    var s := x + o;
    assert s[|x|..] == o && s[..|x|] == x && s[|s|..] == "" && s[..|s|] == s;
    if |x| == 1 {
      LetterOption(x);
      OptionMeansNoDot(x, o);
      SystemChosen(s, |s|);
    } else if m[2] == "" {
      assert m[1] == s;
      OptionMeansNoDot(x, o);
      SystemChosen(s, |x|);
    }
  }

  lemma LetterOption(x: string)
    requires |x| == 1 && IsLetter(x[0])
    ensures SystemShape(x + WithOption("ADMIN"))
  {
    var s := x + " WITH ADMIN OPTION";
    assert s == x + WithOption("ADMIN");
    assert SystemStem(s);
  }

  lemma SystemMatchWithout(m: seq<string>, x: string)
    requires SystemShape(x)
    requires Match(Expr(OfSystem), x) == Some(m) && |m| == 4 && m[0] == "" && m[1] + m[2] == x
    requires SystemParts(m, x)
    ensures m[2] == "" <==> !HidesOption(x)
  {
    hide Lang, OptionRe, Match, Upper, SystemShape, WithOption;
    SystemShapeEnds(x);
    SystemShapeEnds(m[1]);
    UpperId("ADMIN");
    OptionIntro("ADMIN");
    assert x[|x|..] == "" && x[..|x|] == x;
    if m[2] == "" {
      assert m[1] == x;
      if k :| 2 <= k < |x| && SystemShape(x[..k]) && IsOption("ADMIN", x[k..]) {
        assert x == x[..k] + x[k..];
        SystemShapeEnds(x[..k]);
        OptionMeansNoDot(x[..k], x[k..]);
        SystemChosen(x, k);
      }
    } else {
      OptionMeansNoDot(m[1], m[2]);
      SystemChosen(x, |x|);
      assert x[..|m[1]|] == m[1] && x[|m[1]|..] == m[2];
    }
  }
}
