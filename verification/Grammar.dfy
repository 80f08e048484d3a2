/** What each building block of the patterns accepts, in plain terms. */
module Grammar {
  import opened Strings
  import opened Quoting
  import opened Regexp
  import opened Privileges

  /** A privilege name: letters and white space, with a letter at both ends. */
  predicate NameShape(t: string) {
    && t != "" && IsLetter(t[0]) && IsLetter(t[|t| - 1])
    && forall i | 0 <= i < |t| :: In(t[i], LetterOrSpace)
  }

  /** The part of a system privilege name before its optional `.word`. */
  predicate SystemStem(t: string) {
    && t != "" && IsLetter(t[0]) && IsWord(t[|t| - 1])
    && forall i | 0 <= i < |t| :: In(t[i], WordOrSpace)
  }

  predicate SystemSuffix(t: string) {
    |t| >= 2 && t[0] == '.' && IsLetter(t[1]) && forall i | 1 <= i < |t| :: IsWord(t[i])
  }

  ghost predicate SystemShape(t: string) {
    SystemStem(t) || exists k | 0 < k < |t| :: SystemStem(t[..k]) && SystemSuffix(t[k..])
  }

  predicate IdentShape(t: string) {
    IsQuoted(t) || (t != "" && NoSpace(t))
  }

  lemma {:induction false} StarOneLang(c: Class, lazy: bool, t: string)
    ensures Lang(Star(One(c), lazy), t) <==> forall i | 0 <= i < |t| :: In(t[i], c)
    decreases |t|
  {
    var re := Star(One(c), lazy);
    if t != "" {
      StarOneLang(c, lazy, t[1..]);
      assert t == [t[0]] + t[1..];
      if Lang(re, t) {
        var x, y := StarElim(One(c), lazy, t);
        assert y == t[1..];
      }
      if forall i | 0 <= i < |t| :: In(t[i], c) {
        assert forall i | 0 <= i < |t[1..]| :: t[1..][i] == t[i + 1];
        StarIntro(One(c), lazy, [t[0]], t[1..]);
      }
    }
  }

  lemma SpacesLang(t: string)
    ensures Lang(WS, t) <==> AllSpace(t)
  {
    StarOneLang(Space, false, t);
  }

  /** One character of a class, then any number of another. */
  lemma OneThenStar(c: Class, d: Class, t: string)
    ensures Lang(Cat(One(c), Star(One(d), false)), t) <==>
            t != "" && In(t[0], c) && forall i | 1 <= i < |t| :: In(t[i], d)
  {
    var re := Cat(One(c), Star(One(d), false));
    if Lang(re, t) {
      var x, y := CatElim(One(c), Star(One(d), false), t);
      assert y == t[1..];
      StarOneLang(d, false, y);
      assert forall i | 1 <= i < |t| :: t[i] == y[i - 1];
    }
    if t != "" && In(t[0], c) && forall i | 1 <= i < |t| :: In(t[i], d) {
      StarOneLang(d, false, t[1..]);
      CatIntro(One(c), Star(One(d), false), [t[0]], t[1..]);
      assert t == [t[0]] + t[1..];
    }
  }

  lemma GapLang(t: string)
    ensures Lang(GAP, t) <==> t != "" && AllSpace(t)
  {
    OneThenStar(Space, Space, t);
  }

  lemma AnyCaseLang(w: string, t: string)
    ensures Lang(AnyCase(w), t) <==> Upper(t) == w
  {}

  /** Lazily any number of one class and one of another at the end, or nothing. */
  lemma HeadAndTailLang(d: Class, e: Class, t: string)
    ensures Lang(Alt(Cat(Star(One(d), true), One(e)), Eps), t) <==>
            t == "" || (In(t[|t| - 1], e) && forall i | 0 <= i < |t| - 1 :: In(t[i], d))
  {
    var re := Cat(Star(One(d), true), One(e));
    if Lang(re, t) {
      var x, y := CatElim(Star(One(d), true), One(e), t);
      StarOneLang(d, true, x);
      assert forall i | 0 <= i < |x| :: t[i] == x[i];
    }
    if t != "" && In(t[|t| - 1], e) && forall i | 0 <= i < |t| - 1 :: In(t[i], d) {
      var x, y := t[..|t| - 1], t[|t| - 1..];
      StarOneLang(d, true, x);
      CatIntro(Star(One(d), true), One(e), x, y);
      assert t == x + y;
    }
  }

  lemma NameLang(t: string)
    ensures Lang(NAME, t) <==> NameShape(t)
  {
    var rest := Alt(Cat(Star(One(LetterOrSpace), true), One(Letter)), Eps);
    if Lang(NAME, t) {
      var x, y := CatElim(One(Letter), rest, t);
      HeadAndTailLang(LetterOrSpace, Letter, y);
      assert t[0] == x[0];
      assert forall i | 1 <= i < |t| :: t[i] == y[i - 1];
    }
    if NameShape(t) {
      HeadAndTailLang(LetterOrSpace, Letter, t[1..]);
      CatIntro(One(Letter), rest, [t[0]], t[1..]);
      assert t == [t[0]] + t[1..];
    }
  }

  lemma {:induction false} BodyLang(t: string)
    ensures Lang(BODY, t) <==> IsBody(t, QUOTE)
    decreases |t|
  {
    var item := Alt(One(NonQuote), Cat(QUOTES, QUOTES));
    if t != "" && Lang(BODY, t) {
      var x, y := StarElim(item, false, t);
      if !Lang(One(NonQuote), x) {
        var a, b := CatElim(QUOTES, QUOTES, x);
        assert x == [QUOTE, QUOTE];
      }
      assert y == t[|x|..];
      BodyLang(y);
    }
    if t != "" && IsBody(t, QUOTE) {
      var k := if t[0] == QUOTE then 2 else 1;
      BodyLang(t[k..]);
      if k == 2 {
        CatIntro(QUOTES, QUOTES, [QUOTE], [QUOTE]);
        assert t[..2] == [QUOTE] + [QUOTE];
      }
      StarIntro(item, false, t[..k], t[k..]);
      assert t == t[..k] + t[k..];
    }
  }

  lemma DelimitedLang(t: string)
    ensures Lang(DELIMITED, t) <==> IsQuoted(t)
  {
    if Lang(DELIMITED, t) {
      var x, b, z := Cat3Elim(QUOTES, BODY, QUOTES, t);
      assert t[1..|t| - 1] == b;
      BodyLang(b);
    }
    if IsQuoted(t) {
      var b := t[1..|t| - 1];
      BodyLang(b);
      Cat3Intro(QUOTES, BODY, QUOTES, [QUOTE], b, [QUOTE]);
      assert t == [QUOTE] + b + [QUOTE];
    }
  }

  lemma IdentLang(t: string)
    ensures Lang(IDENT, t) <==> IdentShape(t)
  {
    DelimitedLang(t);
    OneThenStar(NonSpace, NonSpace, t);
  }

  /** ` WITH ADMIN OPTION`, spaced and cased at will. */
  ghost predicate OptionSplit(w: string, t: string, s1: string, a: string, s2: string, b: string, s3: string,
                              c: string) {
    && t == s1 + a + s2 + b + s3 + c
    && s1 != "" && AllSpace(s1) && s2 != "" && AllSpace(s2) && s3 != "" && AllSpace(s3)
    && Upper(a) == "WITH" && Upper(b) == w && Upper(c) == "OPTION"
  }

  lemma ThreeWordsElim(v: string, w: string, x: string, t: string)
      returns (s1: string, a: string, s2: string, b: string, s3: string, c: string)
    requires t != "" && Lang(ThreeWords(v, w, x), t)
    ensures t == s1 + a + s2 + b + s3 + c
    ensures s1 != "" && AllSpace(s1) && s2 != "" && AllSpace(s2) && s3 != "" && AllSpace(s3)
    ensures Upper(a) == v && Upper(b) == w && Upper(c) == x
  {
    s1, a, s2, b, s3, c := Cat6Elim(GAP, AnyCase(v), GAP, AnyCase(w), GAP, AnyCase(x), t);
    GapLang(s1); GapLang(s2); GapLang(s3);
  }

  lemma OptionElim(w: string, t: string) returns (s1: string, a: string, s2: string, b: string, s3: string, c: string)
    requires t != "" && Lang(OptionRe(w), t)
    ensures OptionSplit(w, t, s1, a, s2, b, s3, c)
  {
    s1, a, s2, b, s3, c := ThreeWordsElim("WITH", w, "OPTION", t);
  }

  lemma ThreeWordsIntro(v: string, w: string, x: string)
    requires Upper(v) == v && Upper(w) == w && Upper(x) == x
    ensures Lang(ThreeWords(v, w, x), "") && Lang(ThreeWords(v, w, x), " " + v + " " + w + " " + x)
  {
    GapLang(" ");
    Cat6Intro(GAP, AnyCase(v), GAP, AnyCase(w), GAP, AnyCase(x), " ", v, " ", w, " ", x);
  }

  lemma UpperId(s: string)
    requires forall i | 0 <= i < |s| :: !('a' <= s[i] <= 'z')
    ensures Upper(s) == s
  {}

  /** `" ON "` followed by each keyword and a space. */
  function ClauseText(kws: seq<string>): string {
    if kws == [] then " ON " else ClauseText(kws[..|kws| - 1]) + kws[|kws| - 1] + " "
  }

  lemma {:induction false} ClauseIntro(kws: seq<string>)
    requires forall i | 0 <= i < |kws| :: Upper(kws[i]) == kws[i]
    ensures Lang(ClauseRe(kws), ClauseText(kws))
    decreases |kws|
  {
    if kws == [] {
      UpperId("ON");
      GapWordGap("ON");
      assert " ON " == " " + "ON" + " ";
    } else {
      var n := |kws| - 1;
      ClauseIntro(kws[..n]);
      GapLang(" ");
      Cat3Intro(ClauseRe(kws[..n]), AnyCase(kws[n]), GAP, ClauseText(kws[..n]), kws[n], " ");
    }
  }

  lemma GapWordGap(w: string)
    requires Upper(w) == w
    ensures Lang(Cat(GAP, Cat(AnyCase(w), GAP)), " " + w + " ")
  {
    GapLang(" ");
    Cat3Intro(GAP, AnyCase(w), GAP, " ", w, " ");
  }

  /** The three parts of a system name, with the parts left abstract to keep the proofs small. */
  const STEM_TAIL: Regex := Alt(Cat(Star(One(WordOrSpace), true), One(Word)), Eps)
  const DOTTED_WORD: Regex := Cat(One(Letter), Star(One(Word), false))

  lemma SuffixLang(z: string)
    ensures Lang(Alt(Cat(DOT, DOTTED_WORD), Eps), z) <==> z == "" || SystemSuffix(z)
  {
    if z != "" && Lang(Cat(DOT, DOTTED_WORD), z) {
      var d, v := CatElim(DOT, DOTTED_WORD, z);
      OneThenStar(Letter, Word, v);
      assert forall i | 1 <= i < |z| :: z[i] == v[i - 1];
    }
    if SystemSuffix(z) {
      OneThenStar(Letter, Word, z[1..]);
      CatIntro(DOT, DOTTED_WORD, ".", z[1..]);
      assert z == "." + z[1..];
    }
  }

  lemma SystemNameElim(t: string) returns (stem: string, suffix: string)
    requires Lang(SYSTEM_NAME, t)
    ensures t == stem + suffix && SystemStem(stem) && (suffix == "" || SystemSuffix(suffix))
  {
    var x, m, z := Cat3Elim(One(Letter), STEM_TAIL, Alt(Cat(DOT, DOTTED_WORD), Eps), t);
    StemParts(x, m);
    SuffixLang(z);
    stem, suffix := x + m, z;
  }

  lemma StemParts(x: string, m: string)
    requires |x| == 1 && IsLetter(x[0])
    ensures Lang(STEM_TAIL, m) <==> SystemStem(x + m)
  {
    HeadAndTailLang(WordOrSpace, Word, m);
    var t := x + m;
    assert forall i | 1 <= i < |t| :: t[i] == m[i - 1];
    assert forall i | 0 <= i < |m| :: m[i] == t[i + 1];
  }

  lemma SystemNameIntro(stem: string, suffix: string)
    requires SystemStem(stem) && (suffix == "" || SystemSuffix(suffix))
    ensures Lang(SYSTEM_NAME, stem + suffix)
  {
    assert stem == [stem[0]] + stem[1..];
    StemParts([stem[0]], stem[1..]);
    SuffixLang(suffix);
    Cat3Intro(One(Letter), STEM_TAIL, Alt(Cat(DOT, DOTTED_WORD), Eps), [stem[0]], stem[1..], suffix);
  }
}
