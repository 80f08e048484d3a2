/** Uniqueness of the two ends of a match: the ` ON ... ` clause that follows the name, and the identifier and
    option that finish the text. */
module Tails {
  import opened Strings
  import opened Quoting
  import opened Regexp
  import opened Privileges
  import opened Grammar
  import opened Tokens

  lemma UpperKeeps(t: string)
    ensures NoSpace(t) <==> NoSpace(Upper(t))
    ensures QUOTE in t <==> QUOTE in Upper(t)
    ensures '.' in t <==> '.' in Upper(t)
  {
    var u := Upper(t);
    if QUOTE in t {
      var i :| 0 <= i < |t| && t[i] == QUOTE;
      assert u[i] == QUOTE;
    }
    if '.' in t {
      var i :| 0 <= i < |t| && t[i] == '.';
      assert u[i] == '.';
    }
    assert forall i | 0 <= i < |t| :: u[i] == UpperChar(t[i]);
  }

  // ---------------------------------------------------------------- clauses

  /** Keywords as the patterns use them: upper-case words other than ON. */
  predicate Proper(kws: seq<string>) {
    forall i | 0 <= i < |kws| :: ProperWord(kws[i])
  }

  predicate ProperWord(w: string) {
    w != "" && NoSpace(w) && Upper(w) == w && w != "ON" && w != "GRANT" && QUOTE !in w && '.' !in w
  }

  function LastWord(kws: seq<string>): string {
    if kws == [] then "ON" else kws[|kws| - 1]
  }

  /** A matched clause ends in white space; before that stands its last word. */
  lemma ClauseSplit(kws: seq<string>, cl: string) returns (c: string, a: string, s: string)
    requires Proper(kws) && Lang(ClauseRe(kws), cl)
    ensures cl == c + a + s && s != "" && AllSpace(s)
    ensures Upper(a) == LastWord(kws) && NoSpace(a) && a != ""
    ensures kws == [] ==> c != "" && AllSpace(c)
    ensures kws != [] ==> Lang(ClauseRe(kws[..|kws| - 1]), c)
  {
    if kws == [] {
      c, a, s := GapWordGapElim("ON", cl);
    } else {
      var n := |kws| - 1;
      c, a, s := Cat3Elim(ClauseRe(kws[..n]), AnyCase(kws[n]), GAP, cl);
      GapLang(s);
    }
    UpperKeeps(a);
  }

  lemma GapWordGapElim(w: string, t: string) returns (c: string, a: string, s: string)
    requires Lang(Cat(GAP, Cat(AnyCase(w), GAP)), t)
    ensures t == c + a + s && c != "" && AllSpace(c) && Upper(a) == w && s != "" && AllSpace(s)
  {
    c, a, s := Cat3Elim(GAP, AnyCase(w), GAP, t);
    GapLang(c);
    GapLang(s);
  }

  lemma {:induction false} ClauseEnds(kws: seq<string>, cl: string)
    requires Proper(kws) && Lang(ClauseRe(kws), cl)
    ensures EndsSpace(cl) && QUOTE !in cl && '.' !in cl
    decreases |kws|
  {
    var c, a, s := ClauseSplit(kws, cl);
    UpperKeeps(a);
    if kws != [] {
      ClauseEnds(kws[..|kws| - 1], c);
    }
  }

  function ClauseStem(kws: seq<string>): string {
    if kws == [] then " " else ClauseText(kws[..|kws| - 1])
  }

  lemma ClauseTextSplit(kws: seq<string>)
    requires Proper(kws)
    ensures ClauseText(kws) == ClauseStem(kws) + LastWord(kws) + " "
    ensures EndsSpace(ClauseText(kws)) && EndsSpace(ClauseStem(kws))
  {
    if kws == [] {
      assert " ON " == " " + "ON" + " ";
    } else {
      var init := kws[..|kws| - 1];
      assert EndsSpace(ClauseText(init)) by {
        if init == [] {} else {}
      }
    }
  }

  lemma UpperLastWord(kws: seq<string>)
    requires Proper(kws)
    ensures Upper(LastWord(kws)) == LastWord(kws) && NoSpace(LastWord(kws)) && LastWord(kws) != ""
    ensures kws == [] <==> LastWord(kws) == "ON"
  {
    UpperId("ON");
  }

  lemma ClauseStep(v: string, cl: string, kws: seq<string>, n: string, kws0: seq<string>) returns (c: string)
    requires Proper(kws) && Proper(kws0)
    requires Lang(ClauseRe(kws), cl)
    requires v + cl == n + ClauseText(kws0)
    ensures LastWord(kws) == LastWord(kws0)
    ensures v + c == n + ClauseStem(kws0)
    ensures kws == [] ==> AllSpace(c)
    ensures kws != [] ==> Lang(ClauseRe(kws[..|kws| - 1]), c)
  {
    var a, s;
    c, a, s := ClauseSplit(kws, cl);
    if kws != [] {
      ClauseEnds(kws[..|kws| - 1], c);
    }
    ClauseTextSplit(kws0);
    UpperLastWord(kws0);
    ClauseStepPlain(v, c, a, s, LastWord(kws), n, ClauseStem(kws0), LastWord(kws0));
  }

  lemma ClauseStepPlain(v: string, c: string, a: string, s: string, w: string, n: string, c0: string, b: string)
    requires v + (c + a + s) == n + (c0 + b + " ")
    requires EndsSpace(c) && EndsSpace(c0)
    requires a != "" && b != "" && NoSpace(a) && NoSpace(b) && AllSpace(s)
    requires Upper(a) == w && Upper(b) == b
    ensures v + c == n + c0 && w == b
  {
    hide Upper;
    Regroup3(v, c, a, s);
    Regroup3(n, c0, b, " ");
    assert EndsSpace(v + c) && EndsSpace(n + c0);
    LastWordUnique(v + c, a, s, n + c0, b, w);
  }

  lemma Regroup3(v: string, c: string, a: string, s: string)
    ensures v + (c + a + s) == v + c + a + s
  {}

  /** The clause after a solid name reads in one way only: same keywords, same name. */
  lemma {:induction false} ClauseUnique(v: string, cl: string, kws: seq<string>, n: string, kws0: seq<string>)
    requires EndsSolid(v) && EndsSolid(n)
    requires Proper(kws) && Proper(kws0)
    requires Lang(ClauseRe(kws), cl)
    requires v + cl == n + ClauseText(kws0)
    ensures kws == kws0 && v == n
    decreases |kws|
  {
    hide Lang, Upper;
    var c := ClauseStep(v, cl, kws, n, kws0);
    UpperLastWord(kws);
    UpperLastWord(kws0);
    if kws == [] {
      TrimEndSpaces(v, c);
      TrimEndSpaces(n, " ");
    } else {
      var i, i0 := |kws| - 1, |kws0| - 1;
      ClauseUnique(v, c, kws[..i], n, kws0[..i0]);
      assert kws == kws[..i] + [kws[i]] && kws0 == kws0[..i0] + [kws0[i0]];
    }
  }

  /** Two readings of a text as something, a last word and white space. */
  lemma LastWordUnique(x: string, a: string, s: string, y: string, b: string, w: string)
    requires x + a + s == y + b + " "
    requires EndsSpace(x) && EndsSpace(y)
    requires a != "" && b != "" && NoSpace(a) && NoSpace(b) && AllSpace(s)
    requires Upper(a) == w && Upper(b) == b
    ensures x == y && a == b && w == b
  {
    TrimEndSpaces(x + a, s);
    TrimEndSpaces(y + b, " ");
    TrimSolid(x + a);
    TrimSolid(y + b);
    LastTokenIs(x, a);
    LastTokenIs(y, b);
    assert x == (x + a)[..|x|] && y == (y + b)[..|y|];
  }

  // ---------------------------------------------------------------- options

  function WithOption(w: string): string {
    " WITH " + w + " OPTION"
  }

  predicate IsToken(w: string) {
    w != "" && NoSpace(w)
  }

  lemma TokenOf(a: string, w: string)
    requires Upper(a) == w && IsToken(w)
    ensures IsToken(a)
  {
    UpperKeeps(a);
  }

  /** Three words read from the right: the last, the middle one, then the text before them. */
  lemma ThreeWordsPeel(y: string, o: string, v: string, w: string, x: string)
    requires EndsSolid(y) && IsToken(v) && IsToken(w) && IsToken(x)
    requires o != "" && Lang(ThreeWords(v, w, x), o)
    ensures Upper(LastToken(y + o)) == x
    ensures Upper(LastToken(Peel(y + o))) == w
    ensures Peel(Peel(Peel(y + o))) == y
    ensures EndsSolid(y + o)
  {
    var s1, a, s2, b, s3, c := ThreeWordsElim(v, w, x, o);
    TokenOf(a, v);
    TokenOf(b, w);
    TokenOf(c, x);
    Regroup(y, s1, a, s2, b, s3, c);
    PeelSolid(y, s1, a);
    PeelSolid(y + s1 + a, s2, b);
    PeelSolid(y + s1 + a + s2 + b, s3, c);
  }

  lemma Regroup(y: string, s1: string, a: string, s2: string, b: string, s3: string, c: string)
    ensures y + (s1 + a + s2 + b + s3 + c) == y + s1 + a + s2 + b + s3 + c
  {}

  lemma OptionPeel(y: string, o: string, w: string)
    requires EndsSolid(y) && IsToken(w)
    requires o != "" && Lang(OptionRe(w), o)
    ensures Upper(LastToken(y + o)) == "OPTION"
    ensures Upper(LastToken(Peel(y + o))) == w
    ensures Peel(Peel(Peel(y + o))) == y
    ensures EndsSolid(y + o)
  {
    ThreeWordsPeel(y, o, "WITH", w, "OPTION");
  }

  lemma OptionIntro(w: string)
    requires Upper(w) == w
    ensures Lang(OptionRe(w), "") && Lang(OptionRe(w), WithOption(w)) && WithOption(w) != ""
  {
    hide Lang, Upper;
    UpperId("WITH");
    UpperId("OPTION");
    ThreeWordsIntro("WITH", w, "OPTION");
    assert " " + "WITH" + " " + w + " " + "OPTION" == WithOption(w);
  }

  /** Text, option and trailing white space: when both readings have an option, or both have none, they agree. */
  lemma EndUnique(y: string, o1: string, sp: string, x: string, o: string, w: string)
    requires y + o1 + sp == x + o
    requires EndsSolid(y) && EndsSolid(x) && AllSpace(sp)
    requires IsToken(w) && Upper(w) == w
    requires Lang(OptionRe(w), o1)
    requires o == "" || o == WithOption(w)
    ensures sp == "" && y + o1 == x + o
    ensures (o1 == "") == (o == "") ==> y == x && o1 == o
  {
    hide Lang, Upper, LastToken, Peel, TrimEnd, WithOption;
    OptionIntro(w);
    if o1 != "" {
      OptionPeel(y, o1, w);
    }
    if o != "" {
      OptionPeel(x, o, w);
    }
    TrimEndSpaces(y + o1, sp);
    TrimSolid(y + o1);
    TrimSolid(x + o);
    assert y + o1 == x + o;
    assert y + "" == y && x + "" == x;
    if o1 != "" && o != "" {
      assert o1 == (y + o1)[|y|..] && o == (x + o)[|x|..];
    }
  }

  // ---------------------------------------------------------------- identifier and option

  /** Where the identifier starts: a head without quotes that ends in white space, then an identifier. */
  lemma StartUnique(u: string, g: string, h: string, q: string)
    requires u + g == h + q
    requires EndsSpace(u) && EndsSpace(h) && QUOTE !in u && QUOTE !in h
    requires IdentShape(g) && q != ""
    requires q[0] == QUOTE || NoSpace(q)
    ensures u == h && g == q
  {
    var t := h + q;
    assert forall i | 0 <= i < |h| :: t[i] == h[i];
    assert forall i | 0 <= i < |q| :: t[|h| + i] == q[i];
    assert forall i | 0 <= i < |u| :: t[i] == u[i];
    assert forall i | 0 <= i < |g| :: t[|u| + i] == g[i];
    assert |u| == |h|;
    assert u == t[..|u|] && h == t[..|h|];
    assert g == t[|u|..] && q == t[|h|..];
  }

  /** The last word before trailing white space. */
  function HeadWord(h: string): string {
    LastToken(TrimEnd(h))
  }

  /** Head, identifier, option and trailing white space of a text that ends in `q` and `o` read in one way only.
      The heads must not end in the word of the option. */
  lemma TailUnique(u: string, g: string, o1: string, sp: string, h: string, q: string, o: string, w: string)
    requires u + g + o1 + sp == h + q + o
    requires EndsSpace(u) && EndsSpace(h) && QUOTE !in u && QUOTE !in h
    requires IdentShape(g) && q != "" && EndsSolid(q)
    requires q[0] == QUOTE == q[|q| - 1] || NoSpace(q)
    requires Lang(OptionRe(w), o1) && AllSpace(sp)
    requires IsToken(w) && Upper(w) == w && QUOTE !in w
    requires o == "" || o == WithOption(w)
    requires Upper(HeadWord(u)) != w && Upper(HeadWord(h)) != w
    ensures u == h && g == q && o1 == o && sp == ""
  {
    hide Lang, Upper, LastToken, Peel, TrimEnd, WithOption;
    assert EndsSolid(g) by { if IsQuoted(g) {} }
    EndUnique(u + g, o1, sp, h + q, o, w);
    if o1 != "" && o == "" {
      assert h + q + o == h + q;
      OptionNotHere(u + g, o1, h, q, w);
      assert false;
    }
    if o1 == "" && o != "" {
      assert u + g + o1 == u + g;
      OptionNotIdent(u, g, h + q, o, w);
      assert false;
    }
    StartUnique(u, g, h, q);
  }

  /** A text that ends in an identifier is read as ending in an option only if the word before is the option's. */
  lemma OptionNotHere(y: string, o: string, h: string, q: string, w: string)
    requires y + o == h + q
    requires EndsSolid(y) && o != "" && Lang(OptionRe(w), o) && IsToken(w)
    requires EndsSpace(h) && q != ""
    ensures q[|q| - 1] != QUOTE
    ensures NoSpace(q) ==> Upper(HeadWord(h)) == w
  {
    hide Lang;
    OptionPeel(y, o, w);
    var t := LastToken(y + o);
    UpperKeeps(t);
    assert t[|t| - 1] == q[|q| - 1];
    if NoSpace(q) {
      LastTokenIs(h, q);
      assert (h + q)[..|h + q| - |q|] == h;
    }
  }

  /** A text that ends in an option is read as ending in an identifier only if the word before is the option's. */
  lemma OptionNotIdent(u: string, g: string, x: string, o: string, w: string)
    requires u + g == x + o
    requires EndsSpace(u) && IdentShape(g) && EndsSolid(x)
    requires IsToken(w) && Upper(w) == w
    requires o == WithOption(w)
    ensures Upper(HeadWord(u)) == w
  {
    hide Lang;
    OptionIntro(w);
    OptionPeel(x, o, w);
    assert o[|o| - 1] == 'N';
    assert g[|g| - 1] == (u + g)[|u + g| - 1] == o[|o| - 1];
    LastTokenIs(u, g);
    assert (u + g)[..|u + g| - |g|] == u;
  }
}
