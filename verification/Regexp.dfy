/** The fragment of Go's regexp package that the privilege language uses, with its leftmost-first
    meaning: `Prefixes` lists, in order of preference, every prefix length an expression can consume,
    and `Match` takes the first way through a list of expressions that reaches the end of the text.
    A capture of the original is one of the top-level expressions, so a match is the list of segments. */
module Regexp {
  import opened Strings

  datatype Class = Space | NonSpace | NonQuote | Letter | LetterOrSpace | Word | WordOrSpace | Exactly(c: char)

  predicate In(x: char, c: Class) {
    match c
    case Space => IsSpace(x)
    case NonSpace => !IsSpace(x)
    case NonQuote => x != QUOTE
    case Letter => IsLetter(x)
    case LetterOrSpace => IsLetter(x) || IsSpace(x)
    case Word => IsWord(x)
    case WordOrSpace => IsWord(x) || IsSpace(x)
    case Exactly(u) => x == u
  }

  /** `AnyCase(w)` is the upper-case text `w` in any case; `Alt(a, Eps)` is the greedy `a?`. */
  datatype Regex =
    Eps | One(cls: Class) | AnyCase(text: string) | Cat(first: Regex, second: Regex) |
    Alt(left: Regex, right: Regex) | Star(body: Regex, lazy: bool)

  function Shift(k: nat, ks: seq<nat>): (r: seq<nat>)
    ensures |r| == |ks|
    ensures forall i | 0 <= i < |ks| :: r[i] == k + ks[i]
  {
    seq(|ks|, i requires 0 <= i < |ks| => k + ks[i])
  }

  predicate Within(ks: seq<nat>, n: nat) {
    forall i | 0 <= i < |ks| :: ks[i] <= n
  }

  /** Lengths of the prefixes of `s` that `re` matches, most preferred first. */
  function Prefixes(re: Regex, s: string): (ks: seq<nat>)
    ensures Within(ks, |s|)
    decreases re, |s|, 2, 0
  {
    match re
    case Eps => [0]
    case One(c) => if s != "" && In(s[0], c) then [1] else []
    case AnyCase(w) => if |w| <= |s| && Upper(s[..|w|]) == w then [|w|] else []
    case Cat(a, b) => Then(Prefixes(a, s), b, s)
    case Alt(a, b) => Prefixes(a, s) + Prefixes(b, s)
    case Star(a, lazy) =>
      var more := Again(Prefixes(a, s), re, s);
      if lazy then [0] + more else more + [0]
  }

  /** Each of `ks` in turn, followed by `re`. */
  function Then(ks: seq<nat>, re: Regex, s: string): (r: seq<nat>)
    requires Within(ks, |s|)
    ensures Within(r, |s|)
    decreases re, |s|, 3, |ks|
  {
    if ks == [] then []
    else Shift(ks[0], Prefixes(re, s[ks[0]..])) + Then(ks[1..], re, s)
  }

  /** Each non-empty one of `ks` in turn, followed by another round of the star `re`. */
  function Again(ks: seq<nat>, re: Regex, s: string): (r: seq<nat>)
    requires re.Star?
    requires Within(ks, |s|)
    ensures Within(r, |s|)
    decreases re, |s|, 1, |ks|
  {
    if ks == [] then []
    else
      (if ks[0] == 0 then [] else Shift(ks[0], Prefixes(re, s[ks[0]..]))) + Again(ks[1..], re, s)
  }

  /** The language of an expression, independent of preference. */
  ghost predicate Lang(re: Regex, t: string)
    decreases re, |t|
  {
    match re
    case Eps => t == ""
    case One(c) => |t| == 1 && In(t[0], c)
    case AnyCase(w) => Upper(t) == w
    case Cat(a, b) => exists k | 0 <= k <= |t| :: Lang(a, t[..k]) && Lang(b, t[k..])
    case Alt(a, b) => Lang(a, t) || Lang(b, t)
    case Star(a, _) => t == "" || exists k | 0 < k <= |t| :: Lang(a, t[..k]) && Lang(re, t[k..])
  }

  lemma CatIntro(a: Regex, b: Regex, x: string, y: string)
    requires Lang(a, x) && Lang(b, y)
    ensures Lang(Cat(a, b), x + y)
  {
    var t := x + y;
    assert t[..|x|] == x && t[|x|..] == y;
  }

  lemma CatElim(a: Regex, b: Regex, t: string) returns (x: string, y: string)
    requires Lang(Cat(a, b), t)
    ensures t == x + y && Lang(a, x) && Lang(b, y)
  {
    var k :| 0 <= k <= |t| && Lang(a, t[..k]) && Lang(b, t[k..]);
    x, y := t[..k], t[k..];
  }

  lemma Cat3Intro(a: Regex, b: Regex, c: Regex, x: string, y: string, z: string)
    requires Lang(a, x) && Lang(b, y) && Lang(c, z)
    ensures Lang(Cat(a, Cat(b, c)), x + y + z)
  {
    hide Lang;
    CatIntro(b, c, y, z);
    CatIntro(a, Cat(b, c), x, y + z);
    assert x + y + z == x + (y + z);
  }

  lemma Cat3Elim(a: Regex, b: Regex, c: Regex, t: string) returns (x: string, y: string, z: string)
    requires Lang(Cat(a, Cat(b, c)), t)
    ensures t == x + y + z && Lang(a, x) && Lang(b, y) && Lang(c, z)
  {
    hide Lang;
    var u;
    x, u := CatElim(a, Cat(b, c), t);
    y, z := CatElim(b, c, u);
    assert t == x + (y + z);
  }

  lemma Cat6Intro(a: Regex, b: Regex, c: Regex, d: Regex, e: Regex, f: Regex,
                  x: string, y: string, z: string, u: string, v: string, w: string)
    requires Lang(a, x) && Lang(b, y) && Lang(c, z) && Lang(d, u) && Lang(e, v) && Lang(f, w)
    ensures Lang(Cat(a, Cat(b, Cat(c, Cat(d, Cat(e, f))))), x + y + z + u + v + w)
  {
    hide Lang;
    Cat3Intro(d, e, f, u, v, w);
    var r := Cat(d, Cat(e, f));
    CatIntro(c, r, z, u + v + w);
    Cat3Intro(a, b, Cat(c, r), x, y, z + (u + v + w));
    assert x + y + z + u + v + w == x + y + (z + (u + v + w));
  }

  lemma Cat6Elim(a: Regex, b: Regex, c: Regex, d: Regex, e: Regex, f: Regex, t: string)
      returns (x: string, y: string, z: string, u: string, v: string, w: string)
    requires Lang(Cat(a, Cat(b, Cat(c, Cat(d, Cat(e, f))))), t)
    ensures t == x + y + z + u + v + w
    ensures Lang(a, x) && Lang(b, y) && Lang(c, z) && Lang(d, u) && Lang(e, v) && Lang(f, w)
  {
    hide Lang;
    var r := Cat(d, Cat(e, f));
    var t1, t2;
    x, y, t1 := Cat3Elim(a, b, Cat(c, r), t);
    z, t2 := CatElim(c, r, t1);
    u, v, w := Cat3Elim(d, e, f, t2);
    assert t == x + y + (z + (u + v + w));
  }

  lemma StarIntro(a: Regex, lazy: bool, x: string, y: string)
    requires x != "" && Lang(a, x) && Lang(Star(a, lazy), y)
    ensures Lang(Star(a, lazy), x + y)
  {
    var t := x + y;
    assert t[..|x|] == x && t[|x|..] == y;
  }

  lemma StarElim(a: Regex, lazy: bool, t: string) returns (x: string, y: string)
    requires t != "" && Lang(Star(a, lazy), t)
    ensures t == x + y && x != "" && Lang(a, x) && Lang(Star(a, lazy), y)
  {
    var k :| 0 < k <= |t| && Lang(a, t[..k]) && Lang(Star(a, lazy), t[k..]);
    x, y := t[..k], t[k..];
  }

  lemma Cut(s: string, k: nat, m: nat)
    requires k <= m <= |s|
    ensures s[..m][..k] == s[..k] && s[..m][k..] == s[k..][..m - k]
    ensures s[..m] == s[..m][..k] + s[..m][k..]
  {}

  /** The matcher finds exactly the prefixes that belong to the language. */
  lemma {:induction false} PrefixesAreLang(re: Regex, s: string, m: nat)
    ensures m in Prefixes(re, s) <==> m <= |s| && Lang(re, s[..m])
    decreases re, |s|, 2
  {
    match re
    case Eps =>
    case One(c) =>
    case AnyCase(w) =>
    case Cat(a, b) =>
      if m in Prefixes(re, s) {
        CatSound(a, b, s, m);
      } else if m <= |s| && Lang(re, s[..m]) {
        CatComplete(a, b, s, m);
      }
    case Alt(a, b) =>
      PrefixesAreLang(a, s, m);
      PrefixesAreLang(b, s, m);
    case Star(a, lazy) =>
      if m in Prefixes(re, s) {
        StarSound(a, lazy, s, m);
      } else if m <= |s| && Lang(re, s[..m]) {
        StarComplete(a, lazy, s, m);
      }
  }

  lemma {:induction false} CatSound(a: Regex, b: Regex, s: string, m: nat)
    requires m in Prefixes(Cat(a, b), s)
    ensures m <= |s| && Lang(Cat(a, b), s[..m])
    decreases Cat(a, b), |s|, 1
  {
    hide Lang;
    var k := ThenFrom(Prefixes(a, s), b, s, m);
    PrefixesAreLang(a, s, k);
    PrefixesAreLang(b, s[k..], m - k);
    Cut(s, k, m);
    CatIntro(a, b, s[..m][..k], s[..m][k..]);
  }

  lemma {:induction false} CatComplete(a: Regex, b: Regex, s: string, m: nat)
    requires m <= |s| && Lang(Cat(a, b), s[..m])
    ensures m in Prefixes(Cat(a, b), s)
    decreases Cat(a, b), |s|, 1
  {
    hide Lang, Prefixes;
    var x, y := CatElim(a, b, s[..m]);
    var k := |x|;
    Cut(s, k, m);
    assert s[..m][..k] == x && s[..m][k..] == y;
    PrefixesAreLang(a, s, k);
    PrefixesAreLang(b, s[k..], m - k);
    ThenHas(Prefixes(a, s), b, s, m, k);
    InCat(a, b, s);
  }

  lemma InCat(a: Regex, b: Regex, s: string)
    ensures Prefixes(Cat(a, b), s) == Then(Prefixes(a, s), b, s)
  {}

  lemma InStar(a: Regex, lazy: bool, s: string, m: nat)
    ensures m in Prefixes(Star(a, lazy), s) <==> m == 0 || m in Again(Prefixes(a, s), Star(a, lazy), s)
  {}

  lemma {:induction false} StarSound(a: Regex, lazy: bool, s: string, m: nat)
    requires m in Prefixes(Star(a, lazy), s)
    ensures m <= |s| && Lang(Star(a, lazy), s[..m])
    decreases Star(a, lazy), |s|, 1
  {
    var re := Star(a, lazy);
    if m != 0 {
      InStar(a, lazy, s, m);
      var k := AgainFrom(Prefixes(a, s), re, s, m);
      PrefixesAreLang(a, s, k);
      PrefixesAreLang(re, s[k..], m - k);
      Cut(s, k, m);
      StarIntro(a, lazy, s[..m][..k], s[..m][k..]);
    }
  }

  lemma {:induction false} StarComplete(a: Regex, lazy: bool, s: string, m: nat)
    requires m <= |s| && Lang(Star(a, lazy), s[..m])
    ensures m in Prefixes(Star(a, lazy), s)
    decreases Star(a, lazy), |s|, 1
  {
    hide Lang, Prefixes, Again;
    var re := Star(a, lazy);
    InStar(a, lazy, s, m);
    if m != 0 {
      var x, y := StarElim(a, lazy, s[..m]);
      var k := |x|;
      Cut(s, k, m);
      assert s[..m][..k] == x && s[..m][k..] == y;
      PrefixesAreLang(a, s, k);
      PrefixesAreLang(re, s[k..], m - k);
      AgainHas(Prefixes(a, s), re, s, m, k);
    }
  }

  lemma {:induction false} ThenFrom(ks: seq<nat>, re: Regex, s: string, m: nat) returns (k: nat)
    requires Within(ks, |s|)
    requires m in Then(ks, re, s)
    ensures k in ks && k <= |s| && k <= m && m - k in Prefixes(re, s[k..])
    decreases |ks|
  {
    InShift(ks[0], Prefixes(re, s[ks[0]..]), m);
    if m in Shift(ks[0], Prefixes(re, s[ks[0]..])) {
      k := ks[0];
    } else {
      k := ThenFrom(ks[1..], re, s, m);
    }
  }

  lemma {:induction false} ThenHas(ks: seq<nat>, re: Regex, s: string, m: nat, k: nat)
    requires Within(ks, |s|)
    requires k in ks && k <= |s| && k <= m && m - k in Prefixes(re, s[k..])
    ensures m in Then(ks, re, s)
    decreases |ks|
  {
    if k == ks[0] {
      InShift(k, Prefixes(re, s[k..]), m);
    } else {
      ThenHas(ks[1..], re, s, m, k);
    }
  }

  lemma AgainCons(ks: seq<nat>, re: Regex, s: string)
    requires re.Star? && Within(ks, |s|)
    ensures ks == [] ==> Again(ks, re, s) == []
    ensures ks != [] ==>
            Again(ks, re, s) ==
            (if ks[0] == 0 then [] else Shift(ks[0], Prefixes(re, s[ks[0]..]))) + Again(ks[1..], re, s)
  {
    hide Prefixes;
  }

  lemma {:induction false} AgainFrom(ks: seq<nat>, re: Regex, s: string, m: nat) returns (k: nat)
    requires re.Star? && Within(ks, |s|)
    requires m in Again(ks, re, s)
    ensures k in ks && k <= |s| && 0 < k <= m && m - k in Prefixes(re, s[k..])
    decreases |ks|
  {
    hide Again, Prefixes;
    AgainCons(ks, re, s);
    InShift(ks[0], Prefixes(re, s[ks[0]..]), m);
    if ks[0] != 0 && m in Shift(ks[0], Prefixes(re, s[ks[0]..])) {
      k := ks[0];
    } else {
      k := AgainFrom(ks[1..], re, s, m);
    }
  }

  lemma {:induction false} AgainHas(ks: seq<nat>, re: Regex, s: string, m: nat, k: nat)
    requires re.Star? && Within(ks, |s|)
    requires k in ks && k <= |s| && 0 < k <= m && m - k in Prefixes(re, s[k..])
    ensures m in Again(ks, re, s)
    decreases |ks|
  {
    if k == ks[0] {
      InShift(k, Prefixes(re, s[k..]), m);
    } else {
      AgainHas(ks[1..], re, s, m, k);
    }
  }

  lemma InShift(k: nat, ks: seq<nat>, m: nat)
    ensures m in Shift(k, ks) <==> k <= m && m - k in ks
  {
    if k <= m && m - k in ks {
      var i :| 0 <= i < |ks| && ks[i] == m - k;
      assert Shift(k, ks)[i] == m;
    }
  }

  /** FindStringSubmatch for `^rs[0] rs[1] ...$`: the segments of the preferred match. */
  function Match(rs: seq<Regex>, s: string): (m: Option<seq<string>>)
    ensures m.Some? ==> |m.value| == |rs|
    decreases |rs|, 1, 0
  {
    if rs == [] then (if s == "" then Some([]) else None)
    else FirstOf(Prefixes(rs[0], s), rs, s)
  }

  function FirstOf(ks: seq<nat>, rs: seq<Regex>, s: string): (m: Option<seq<string>>)
    requires rs != []
    requires Within(ks, |s|)
    ensures m.Some? ==> |m.value| == |rs|
    decreases |rs|, 0, |ks|
  {
    if ks == [] then None
    else
      match Match(rs[1..], s[ks[0]..])
      case Some(segs) => Some([s[..ks[0]]] + segs)
      case None => FirstOf(ks[1..], rs, s)
  }

  function Flat(segs: seq<string>): string {
    if segs == [] then "" else segs[0] + Flat(segs[1..])
  }

  /** `segs` is one way for `rs` to consume all of `s`. */
  ghost predicate Splits(rs: seq<Regex>, segs: seq<string>, s: string) {
    && |segs| == |rs|
    && Flat(segs) == s
    && forall i | 0 <= i < |rs| :: Lang(rs[i], segs[i])
  }

  /** What the first choice is: everything more preferred leads to no match. */
  lemma {:induction false} FirstOfPicks(ks: seq<nat>, rs: seq<Regex>, s: string) returns (i: nat)
    requires rs != []
    requires Within(ks, |s|)
    requires FirstOf(ks, rs, s).Some?
    ensures i < |ks|
    ensures Match(rs[1..], s[ks[i]..]).Some?
    ensures FirstOf(ks, rs, s).value == [s[..ks[i]]] + Match(rs[1..], s[ks[i]..]).value
    ensures forall j | 0 <= j < i :: Match(rs[1..], s[ks[j]..]).None?
    decreases |ks|
  {
    if Match(rs[1..], s[ks[0]..]).Some? {
      i := 0;
    } else {
      var rest := ks[1..];
      i := FirstOfPicks(rest, rs, s);
      i := i + 1;
    }
  }

  lemma {:induction false} FirstOfFinds(ks: seq<nat>, rs: seq<Regex>, s: string, k: nat)
    requires rs != []
    requires Within(ks, |s|)
    requires k in ks && Match(rs[1..], s[k..]).Some?
    ensures FirstOf(ks, rs, s).Some?
    decreases |ks|
  {
    if Match(rs[1..], s[ks[0]..]).None? {
      FirstOfFinds(ks[1..], rs, s, k);
    }
  }

  /** A match splits the text as the expressions allow, and its tail is the preferred match of the rest. */
  lemma {:induction false} MatchSound(rs: seq<Regex>, s: string)
    requires Match(rs, s).Some?
    ensures Splits(rs, Match(rs, s).value, s)
    ensures rs != [] ==>
              var segs := Match(rs, s).value;
              |segs[0]| <= |s| && s[..|segs[0]|] == segs[0] && Match(rs[1..], s[|segs[0]|..]) == Some(segs[1..])
    decreases |rs|
  {
    hide Lang;
    if rs != [] {
      var i := FirstOfPicks(Prefixes(rs[0], s), rs, s);
      var k := Prefixes(rs[0], s)[i];
      PrefixesAreLang(rs[0], s, k);
      MatchSound(rs[1..], s[k..]);
      var segs := Match(rs, s).value;
      assert segs[1..] == Match(rs[1..], s[k..]).value;
      assert s == s[..k] + s[k..];
    }
  }

  /** No text that can be split is missed. */
  lemma {:induction false} MatchComplete(rs: seq<Regex>, segs: seq<string>, s: string)
    requires Splits(rs, segs, s)
    ensures Match(rs, s).Some?
    decreases |rs|
  {
    hide Lang;
    if rs != [] {
      var k := |segs[0]|;
      assert s[..k] == segs[0] && s[k..] == Flat(segs[1..]);
      MatchComplete(rs[1..], segs[1..], s[k..]);
      PrefixesAreLang(rs[0], s, k);
      FirstOfFinds(Prefixes(rs[0], s), rs, s, k);
    }
  }

  /** `Match` decides membership: it succeeds exactly on the texts that can be split. */
  lemma MatchIff(rs: seq<Regex>, s: string)
    ensures Match(rs, s).Some? <==> exists segs :: Splits(rs, segs, s)
  {
    if Match(rs, s).Some? {
      MatchSound(rs, s);
    }
    if segs :| Splits(rs, segs, s) {
      MatchComplete(rs, segs, s);
    }
  }
}
