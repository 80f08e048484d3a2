/** Which system privileges are canonical, told from the words of their names. */
module SystemWords {
  import opened Strings
  import opened Regexp
  import opened Privileges
  import opened Grammar
  import opened Tokens
  import opened Tails
  import opened Matching
  import opened Dotted
  import opened SystemNames
  import opened RoundTrip

  // ---------------------------------------------------------------- words of a name

  /** The word ON, in any case, between white space. */
  predicate SpacedOn(s: string, i: int) {
    0 <= i && i + 4 <= |s| && IsSpace(s[i]) && UpperChar(s[i + 1]) == 'O' && UpperChar(s[i + 2]) == 'N' &&
        IsSpace(s[i + 3])
  }

  predicate HasOnWord(s: string) {
    exists i | 0 <= i < |s| :: SpacedOn(s, i)
  }

  /** Two words in any case, each followed by white space. */
  ghost predicate HeadWords(v: string, w: string, h: string) {
    exists a, s, b, t :: && h == a + s + b + t && Upper(a) == v && Upper(b) == w
                         && s != "" && AllSpace(s) && t != "" && AllSpace(t)
  }

  /** STRUCTURED PRIVILEGE and one more word, with a grant option or without. */
  ghost predicate StructuredForm(x: string) {
    exists h, t, o :: && x == h + t + o && HeadWords("STRUCTURED", "PRIVILEGE", h)
                      && t != "" && NoSpace(t) && (o == "" || IsOption("GRANT", o))
  }

  predicate SpacesOnly(x: string) {
    forall i | 0 <= i < |x| && IsSpace(x[i]) :: x[i] == ' '
  }

  predicate GrantSuffix(x: string) {
    HasSuffix(Upper(x), "WITH " + "GRANT" + " OPTION")
  }

  /** The text is taken for a privilege on something: it has ON between blanks, or is split by a pattern with a
      clause. */
  ghost predicate ReadsOn(s: string) {
    HasOn(s) || exists id: PatternId | id != OfStructured && id != OfSystem :: Matches(id, s)
  }

  /** System privileges whose name has the right characters, is not read as one with ON, has more than one letter if the
      option follows, and otherwise neither the end of an option nor the beginning of a structured privilege. */
  ghost predicate PlainSystem(p: Privilege) {
    && p.kind == System && p.identifier == "" && p.subIdentifier == "" && SystemShape(p.name)
    && !ReadsOn(ToText(p))
    && if p.isGrantable then |p.name| > 1
       else !GrantSuffix(p.name) && !HidesOption(p.name) && !StructuredForm(p.name)
  }

  // ---------------------------------------------------------------- characters

  lemma SystemChars(x: string)
    requires SystemShape(x)
    ensures x != "" && IsLetter(x[0]) && IsWord(x[|x| - 1])
    ensures forall i | 0 <= i < |x| :: In(x[i], WordOrSpace) || x[i] == '.'
  {
    hide In, IsLetter, IsWord;
    if !SystemStem(x) {
      var k :| 0 < k < |x| && SystemStem(x[..k]) && SystemSuffix(x[k..]);
      forall i | 0 <= i < |x|
        ensures In(x[i], WordOrSpace) || x[i] == '.'
      {
        assert x[i] == if i < k then x[..k][i] else x[k..][i - k];
        WordIn(x[i]);
      }
      assert x[|x| - 1] == x[k..][|x| - k - 1];
      assert x[0] == x[..k][0];
      LetterIsWord(x[k + 1]);
    }
  }

  lemma WordIn(c: char)
    ensures IsWord(c) ==> In(c, WordOrSpace)
    ensures IsLetter(c) ==> IsWord(c)
  {}

  lemma LetterIsWord(c: char)
    ensures IsLetter(c) ==> IsWord(c)
  {}

  lemma NoQuoteIn(c: char)
    requires In(c, WordOrSpace) || c == '.'
    ensures c != QUOTE
  {}

  lemma WordNotSpace(c: char)
    requires IsWord(c)
    ensures !IsUnicodeSpace(c) && !IsSpace(c)
  {}

  lemma SystemNoQuote(x: string)
    requires SystemShape(x)
    ensures QUOTE !in x
  {
    hide In, SystemShape;
    SystemChars(x);
    forall i | 0 <= i < |x|
      ensures x[i] != QUOTE
    {
      NoQuoteIn(x[i]);
    }
  }

  lemma SystemTrimmed(x: string, o: string)
    requires SystemShape(x) && (o == "" || o == WithOption("ADMIN"))
    ensures TrimSpace(x + o) == x + o
  {
    hide IsLetter, IsWord, SystemShape, IsUnicodeSpace, In;
    SystemChars(x);
    LetterIsWord(x[0]);
    WordNotSpace(x[0]);
    WordNotSpace(x[|x| - 1]);
    LastWordChar(o);
    TrimSpaceIff(x + o);
  }

  lemma LastWordChar(o: string)
    requires o == "" || o == WithOption("ADMIN")
    ensures o != "" ==> !IsUnicodeSpace(o[|o| - 1])
  {}

  // ---------------------------------------------------------------- patterns with a clause

  lemma OnWordInside(u: string, c: string, v: string)
    requires HasOnWord(c)
    ensures HasOnWord(u + c + v)
  {
    var i :| 0 <= i < |c| && SpacedOn(c, i);
    var s := u + c + v;
    assert forall j | 0 <= j < |c| :: s[|u| + j] == c[j];
    assert SpacedOn(s, |u| + i);
  }

  lemma GapOnGap(c: string, a: string, s: string)
    requires c != "" && AllSpace(c) && Upper(a) == "ON" && s != "" && AllSpace(s)
    ensures HasOnWord(c + a + s)
  {
    var t := c + a + s;
    assert |a| == 2 && UpperChar(a[0]) == 'O' && UpperChar(a[1]) == 'N';
    assert SpacedOn(t, |c| - 1);
  }

  lemma OnWordFirst(c: string, v: string)
    requires HasOnWord(c)
    ensures HasOnWord(c + v)
  {
    hide HasOnWord;
    OnWordInside("", c, v);
    assert "" + c + v == c + v;
  }

  lemma ProperInit(kws: seq<string>)
    requires Proper(kws) && kws != []
    ensures Proper(kws[..|kws| - 1])
  {
    hide ProperWord;
  }

  /** Every clause has the word ON. */
  lemma {:induction false} ClauseHasOn(kws: seq<string>, cl: string)
    requires Proper(kws) && Lang(ClauseRe(kws), cl)
    ensures HasOnWord(cl)
    decreases |kws|
  {
    hide Lang, ClauseRe, HasOnWord, Proper, Upper;
    var c, a, s := ClauseSplit(kws, cl);
    if kws == [] {
      GapOnGap(c, a, s);
    } else {
      ProperInit(kws);
      ClauseHasOn(kws[..|kws| - 1], c);
      OnWordFirst(c, a);
      OnWordFirst(c + a, s);
    }
  }

  lemma SixHaveOn(m: seq<string>)
    requires |m| == 6 && HasOnWord(m[2])
    ensures HasOnWord(m[0] + m[1] + m[2] + m[3] + m[4] + m[5])
  {
    hide HasOnWord;
    OnWordInside(m[0] + m[1], m[2], m[3]);
    OnWordFirst(m[0] + m[1] + m[2] + m[3], m[4]);
    OnWordFirst(m[0] + m[1] + m[2] + m[3] + m[4], m[5]);
  }

  lemma EightHaveOn(m: seq<string>)
    requires |m| == 8 && HasOnWord(m[2])
    ensures HasOnWord(m[0] + m[1] + m[2] + m[3] + m[4] + m[5] + m[6] + m[7])
  {
    hide HasOnWord;
    SixHaveOn(m[..6]);
    OnWordFirst(m[0] + m[1] + m[2] + m[3] + m[4] + m[5], m[6]);
    OnWordFirst(m[0] + m[1] + m[2] + m[3] + m[4] + m[5] + m[6], m[7]);
  }

  /** Without the word ON no pattern with a clause matches. */
  lemma ClauseNeedsOn(id: PatternId, s: string)
    requires id != OfStructured && id != OfSystem && Match(Expr(id), s).Some?
    ensures HasOnWord(s)
  {
    hide Lang, ClauseRe, OptionRe, Match, HasOnWord, NameRe, Keywords, Upper, NameShape, IdentShape;
    var m := Match(Expr(id), s).value;
    if id == OnDotted {
      DottedMatchParts(s);
      ClauseHasOn([], m[2]);
      EightHaveOn(m);
    } else {
      TargetedParts(id, s);
      KeywordsProper(id);
      ClauseHasOn(Keywords(id), m[2]);
      SixHaveOn(m);
    }
  }

  // ---------------------------------------------------------------- the structured pattern

  lemma HeadElim(v: string, w: string, u: string)
    requires Lang(Cat(WS, Cat(AnyCase(v), Cat(GAP, Cat(AnyCase(w), GAP)))), u)
    requires u != "" && !IsSpace(u[0])
    ensures HeadWords(v, w, u)
  {
    hide Lang, Upper;
    var s0, a, r := Cat3Elim(WS, AnyCase(v), Cat(GAP, Cat(AnyCase(w), GAP)), u);
    var s1, b, s2 := Cat3Elim(GAP, AnyCase(w), GAP, r);
    SpacesLang(s0);
    AnyCaseLang(v, a);
    GapLang(s1);
    AnyCaseLang(w, b);
    GapLang(s2);
    assert u == a + s1 + b + s2;
  }

  lemma HeadIntro(v: string, w: string, u: string)
    requires HeadWords(v, w, u)
    ensures Lang(Cat(WS, Cat(AnyCase(v), Cat(GAP, Cat(AnyCase(w), GAP)))), u)
  {
    hide Lang, Upper;
    var a, s, b, t :|
        u == a + s + b + t && Upper(a) == v && Upper(b) == w && s != "" && AllSpace(s) && t != "" && AllSpace(t);
    SpacesLang("");
    AnyCaseLang(v, a);
    GapLang(s);
    AnyCaseLang(w, b);
    GapLang(t);
    HeadPieces(v, w, a, s, b, t);
  }

  lemma HeadPieces(v: string, w: string, a: string, s: string, b: string, t: string)
    requires Lang(WS, "") && Lang(AnyCase(v), a) && Lang(GAP, s) && Lang(AnyCase(w), b) && Lang(GAP, t)
    ensures Lang(Cat(WS, Cat(AnyCase(v), Cat(GAP, Cat(AnyCase(w), GAP)))), a + s + b + t)
  {
    hide Lang;
    Cat3Intro(GAP, AnyCase(w), GAP, s, b, t);
    Cat3Intro(WS, AnyCase(v), Cat(GAP, Cat(AnyCase(w), GAP)), "", a, s + b + t);
    assert "" + a + (s + b + t) == a + s + b + t;
  }

  lemma OptionTail(x: string)
    requires EndsSolid(x) && QUOTE !in x
    ensures var h := x + " WITH ADMIN ";
            x + WithOption("ADMIN") == h + "OPTION" && EndsSpace(h) && QUOTE !in h && HeadWord(h) == "ADMIN"
  {
    hide HeadWord;
    HeadWordPlain(x + " WITH", " ", "ADMIN", " ");
    assert x + " WITH" + (" " + "ADMIN" + " ") == x + " WITH ADMIN ";
    assert WithOption("ADMIN") == " WITH ADMIN " + "OPTION";
  }

  /** A printed system privilege is taken for a structured one only without option, and if it has that form. */
  lemma StructuredNeedsForm(x: string, o: string)
    requires SystemShape(x) && (o == "" || o == WithOption("ADMIN"))
    requires Match(Expr(OfStructured), x + o).Some?
    ensures o == "" && StructuredForm(x)
  {
    hide Lang, OptionRe, Match, Upper, HeadWord, WithOption, SystemShape, HeadWords;
    var s := x + o;
    SystemNoQuote(x);
    SystemShapeEnds(x);
    StructuredMatchParts(s);
    var m := Match(Expr(OfStructured), s).value;
    UpperId("GRANT");
    UpperId("PRIVILEGE");
    UpperId("ADMIN");
    if o != "" {
      OptionTail(x);
      var h := x + " WITH ADMIN ";
      assert h + "OPTION" + "" == s;
      TailUnique(m[0], m[1], m[2], m[3], h, "OPTION", "", "GRANT");
      assert false;
    }
    assert s == x;
    StructuredPieces(x, m);
  }

  lemma StructuredPieces(x: string, m: seq<string>)
    requires EndsSolid(x) && QUOTE !in x && !IsSpace(x[0])
    requires Match(Expr(OfStructured), x) == Some(m)
    ensures StructuredForm(x)
  {
    hide Lang, OptionRe, Match, Upper, HeadWord, HeadWords;
    StructuredMatchParts(x);
    MatchSound(Expr(OfStructured), x);
    assert Lang(Expr(OfStructured)[0], m[0]);
    assert x[0] == m[0][0];
    HeadElim("STRUCTURED", "PRIVILEGE", m[0]);
    assert m[1] != "" && NoSpace(m[1]) by { NotQuoted(x, m); }
    assert x == m[0] + m[1] + m[2];
  }

  lemma NotQuoted(x: string, m: seq<string>)
    requires QUOTE !in x && |m| == 4 && x == m[0] + m[1] + m[2] + m[3] && IdentShape(m[1])
    ensures m[1] != "" && NoSpace(m[1])
  {
    assert m[1] != "" ==> x[|m[0]|] == m[1][0];
  }

  lemma OptionOrNothing(w: string, o: string)
    requires o == "" || IsOption(w, o)
    ensures Lang(OptionRe(w), o)
  {
    hide Upper;
  }

  lemma FormMatches(x: string)
    requires StructuredForm(x)
    ensures Matches(OfStructured, x)
  {
    hide Lang, OptionRe, Upper, HeadWords, Flat;
    var h, t, o :|
        x == h + t + o && HeadWords("STRUCTURED", "PRIVILEGE", h) && t != "" && NoSpace(t) &&
        (o == "" || IsOption("GRANT", o));
    HeadIntro("STRUCTURED", "PRIVILEGE", h);
    IdentLang(t);
    OptionOrNothing("GRANT", o);
    SpacesLang("");
    Flat4([h, t, o, ""]);
    assert h + t + o + "" == x;
    var rs, m := Expr(OfStructured), [h, t, o, ""];
    assert |rs| == 4 && Lang(rs[0], m[0]) && Lang(rs[1], m[1]) && Lang(rs[2], m[2]) && Lang(rs[3], m[3]);
    assert Splits(rs, m, x);
  }

  // ---------------------------------------------------------------- the guards of the parser

  lemma OnGuard(s: string)
    requires TrimSpace(s) == s
    ensures HasOn(s) ==> HasOnWord(s)
    ensures SpacesOnly(s) && HasOnWord(s) ==> HasOn(s)
  {
    hide Upper, SpacedOn, SpacesOnly, TrimSpace;
    var u := Upper(s);
    if HasOn(s) {
      var i :| 0 <= i <= |u| - 4 && u[i..][..4] == " ON ";
      OnChars(s, i);
    }
    if SpacesOnly(s) && HasOnWord(s) {
      var i :| 0 <= i < |s| && SpacedOn(s, i);
      OnSlice(s, i);
    }
  }

  lemma OnSlice(s: string, i: nat)
    requires SpacedOn(s, i) && SpacesOnly(s)
    ensures i + 4 <= |s| && Upper(s)[i..][..4] == " ON "
  {
    hide Upper;
    var t := Upper(s)[i..][..4];
    assert t[0] == ' ' && t[1] == 'O' && t[2] == 'N' && t[3] == ' ';
  }

  lemma OnChars(s: string, i: nat)
    requires i + 4 <= |s| && Upper(s)[i..][..4] == " ON "
    ensures SpacedOn(s, i)
  {
    var t := Upper(s)[i..][..4];
    assert t[0] == ' ' && t[1] == 'O' && t[2] == 'N' && t[3] == ' ';
    assert t[0] == UpperChar(s[i]) && t[1] == UpperChar(s[i + 1]) && t[2] == UpperChar(s[i + 2]) &&
        t[3] == UpperChar(s[i + 3]);
    UpperSpace(s[i]);
    UpperSpace(s[i + 3]);
  }

  lemma UpperSpace(c: char)
    ensures UpperChar(c) == ' ' ==> c == ' '
  {}

  lemma AdminNotGrant(x: string)
    ensures !GrantSuffix(x + WithOption("ADMIN"))
  {
    var s := x + WithOption("ADMIN");
    var u := Upper(s);
    assert |WithOption("ADMIN")| == 18;
    assert s[|s| - 12] == 'A';
    assert u[|u| - 12] == 'A';
    assert ("WITH " + "GRANT" + " OPTION")[5] == 'G';
    assert u[|u| - 17..][5] == u[|u| - 12];
  }

  // ---------------------------------------------------------------- canonical names

  lemma OptionTextIsAdmin(p: Privilege)
    requires p.kind == System
    ensures ToText(p) == p.name + OptionText(p)
    ensures OptionText(p) == if p.isGrantable then WithOption("ADMIN") else ""
  {
    OptionLiterals();
    assert p.name + "" == p.name;
  }

  /** A text that is taken so has the word ON, and where the only white space is the blank every such text is taken
      so. */
  lemma ReadsOnIff(s: string)
    requires TrimSpace(s) == s
    ensures ReadsOn(s) ==> HasOnWord(s)
    ensures SpacesOnly(s) ==> (ReadsOn(s) <==> HasOnWord(s))
  {
    hide Match, Expr, HasOn, HasOnWord, Matches, SpacesOnly, TrimSpace;
    OnGuard(s);
    if id: PatternId :| id != OfStructured && id != OfSystem && Matches(id, s) {
      MatchesIff(id, s);
      ClauseNeedsOn(id, s);
    }
  }

  lemma NoClause(s: string, id: PatternId)
    requires !ReadsOn(s) && id != OfStructured && id != OfSystem
    ensures !Matches(id, s)
  {
    hide HasOn, Matches;
  }

  /** The canonical system privileges are exactly the plain ones. */
  lemma PlainSystemIff(p: Privilege)
    requires p.kind == System
    ensures CanonicalSystem(p) <==> PlainSystem(p)
  {
    hide Match, Expr, SystemShape, HasOn, HasOption, ReadsOn, GrantSuffix, HidesOption, StructuredForm, ToText;
    hide WithOption;
    hide OptionText, Matches;
    if PlainSystem(p) {
      PlainIsCanonical(p);
    }
    if CanonicalSystem(p) {
      OptionTextIsAdmin(p);
      GrantGuard(p);
      NotRead(ToText(p));
      assert p.name + "" == p.name;
      if !p.isGrantable && StructuredForm(p.name) {
        FormMatches(p.name);
      }
    }
  }

  lemma NotRead(s: string)
    requires !HasOn(s) && forall id: PatternId | id != OfSystem :: !Matches(id, s)
    ensures !ReadsOn(s)
  {
    hide HasOn, Matches;
  }

  lemma PlainIsCanonical(p: Privilege)
    requires PlainSystem(p)
    ensures CanonicalSystem(p)
  {
    hide Match, Expr, Lang, Upper, SystemShape, HasOption, GrantSuffix, HidesOption, StructuredForm, ToText, WithOption;
    hide OptionText, Matches, HasOn;
    var s := ToText(p);
    OptionTextIsAdmin(p);
    GrantGuard(p);
    UpperId("ADMIN");
    OptionIntro("ADMIN");
    forall id: PatternId | id != OfSystem
      ensures !Matches(id, s)
    {
      if id != OfStructured {
        NoClause(s, id);
      } else {
        MatchesIff(id, s);
        if Match(Expr(id), s).Some? {
          StructuredNeedsForm(p.name, OptionText(p));
        }
      }
    }
  }

  lemma GrantGuard(p: Privilege)
    requires p.kind == System && SystemShape(p.name)
    ensures HasOption(ToText(p), "GRANT") <==> !p.isGrantable && GrantSuffix(p.name)
  {
    hide SystemShape, ToText, WithOption, Upper;
    OptionTextIsAdmin(p);
    SystemTrimmed(p.name, OptionText(p));
    if p.isGrantable {
      AdminNotGrant(p.name);
    } else {
      assert p.name + "" == p.name;
    }
  }

  /** Every name of one word, such as AUDIT_ADMIN, is canonical with and without option. */
  lemma OneWordIsCanonical(p: Privilege)
    requires p.kind == System && p.identifier == "" && p.subIdentifier == ""
    requires SystemShape(p.name) && NoSpace(p.name) && |p.name| > 1
    ensures CanonicalSystem(p)
  {
    hide SystemShape, ToText, CanonicalSystem, Upper, Lang;
    OptionTextIsAdmin(p);
    var s := ToText(p);
    forall i | 0 <= i < |s|
      ensures !SpacedOn(s, i)
    {
      OneWordNoOn(p.name, OptionText(p), i);
    }
    SystemTrimmed(p.name, OptionText(p));
    ReadsOnIff(s);
    NoGrantSuffix(p.name);
    NotHidden(p.name);
    NotStructured(p.name);
    PlainIsCanonical(p);
  }

  lemma OneWordNoOn(x: string, o: string, i: nat)
    requires NoSpace(x) && (o == "" || o == WithOption("ADMIN"))
    ensures !SpacedOn(x + o, i)
  {
    var s := x + o;
    if i >= |x| && o != "" && i + 4 <= |s| {
      assert s[i] == o[i - |x|] && s[i + 1] == o[i + 1 - |x|];
    }
  }

  lemma NoGrantSuffix(x: string)
    requires NoSpace(x)
    ensures !GrantSuffix(x)
  {
    var u := Upper(x);
    if GrantSuffix(x) {
      assert u[|u| - 17..][4] == ' ';
      UpperSpace(x[|x| - 13]);
    }
  }

  lemma OptionStartsSpaced(w: string, t: string)
    ensures IsOption(w, t) ==> IsSpace(t[0])
  {
    hide Lang, Upper;
    if IsOption(w, t) {
      var s1, a, s2, b, s3, c := OptionElim(w, t);
      assert t[0] == s1[0];
    }
  }

  lemma NotHidden(x: string)
    requires NoSpace(x)
    ensures !HidesOption(x)
  {
    hide IsOption, SystemShape;
    forall k | 2 <= k < |x|
      ensures !IsOption("ADMIN", x[k..])
    {
      OptionStartsSpaced("ADMIN", x[k..]);
    }
  }

  lemma FormHasSpace(x: string)
    requires StructuredForm(x)
    ensures !NoSpace(x)
  {
    hide IsOption, HeadWords;
    var h, t, o :|
        x == h + t + o && HeadWords("STRUCTURED", "PRIVILEGE", h) && t != "" && NoSpace(t) &&
        (o == "" || IsOption("GRANT", o));
    var i := HeadWordsSpaced("STRUCTURED", "PRIVILEGE", h);
    assert x[i] == h[i];
  }

  lemma HeadWordsSpaced(v: string, w: string, h: string) returns (i: nat)
    requires HeadWords(v, w, h)
    ensures i < |h| && IsSpace(h[i])
  {
    hide Upper;
    var a, s, b, u :|
        h == a + s + b + u && Upper(a) == v && Upper(b) == w && s != "" && AllSpace(s) && u != "" && AllSpace(u);
    i := |a|;
    assert h[i] == s[0];
  }

  lemma NotStructured(x: string)
    requires NoSpace(x)
    ensures !StructuredForm(x)
  {
    hide StructuredForm;
    if StructuredForm(x) {
      FormHasSpace(x);
    }
  }
}
