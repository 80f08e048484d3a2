/** internal/utils/utils.go: the cleaning of privilege strings that come wrapped in quotes or with backslashes, and why
    it does no harm to canonical strings. */
module Preprocess {
  import opened Strings
  import opened Quoting
  import opened Regexp
  import opened Privileges
  import opened Grammar
  import opened RoundTrip
  import opened Language

  const BACKSLASH: char := '\\'

  predicate Wrapped(t: string) {
    |t| >= 2 && t[0] == QUOTE && t[|t| - 1] == QUOTE
  }

  /** TrimOuterDoubleQuotes: all its branches trim space and strip one layer of quotes. */
  function TrimOuterDoubleQuotes(input: string): (r: string)
    ensures r == var t := TrimSpace(input); if Wrapped(t) then t[1..|t| - 1] else t
  {
    var t := TrimSpace(input);
    if |t| < 2 || t[0] != QUOTE || t[|t| - 1] != QUOTE then t
    else if |t| == 2 then ""
    else
      var inner := t[1..|t| - 1];
      if Wrapped(inner) then
        (if Count(inner, QUOTE) == 2 then inner else inner)
      else inner
  }

  /** How many characters come before the first quote. */
  function Run(s: string): (n: nat)
    ensures n <= |s|
    ensures forall i | 0 <= i < n :: s[i] != QUOTE
    ensures n < |s| ==> s[n] == QUOTE
  {
    if s == "" || s[0] == QUOTE then 0 else 1 + Run(s[1..])
  }

  predicate TwoQuotes(s: string) {
    |s| >= 2 && s[0] == QUOTE && s[1] == QUOTE
  }

  /** The text starts with a non-empty content between two doubled quotes. */
  predicate DoubleWrapped(s: string) {
    TwoQuotes(s) && Run(s[2..]) > 0 && TwoQuotes(s[2 + Run(s[2..])..])
  }

  /** Replaces every doubly quoted content by the content in single quotes, from left to right. */
  function Unwrap(s: string): string
    decreases |s|
  {
    if s == "" then ""
    else if DoubleWrapped(s) then
      var n := Run(s[2..]);
      [QUOTE] + s[2..2 + n] + [QUOTE] + Unwrap(s[n + 4..])
    else [s[0]] + Unwrap(s[1..])
  }

  /** strings.ReplaceAll of a backslash and a quote by a quote. */
  function Unbackslash(s: string): string {
    if s == "" then ""
    else if |s| >= 2 && s[0] == BACKSLASH && s[1] == QUOTE then [QUOTE] + Unbackslash(s[2..])
    else [s[0]] + Unbackslash(s[1..])
  }

  /** ConvertBackslashEscapesToHanaEscapes. */
  function Convert(s: string): string {
    Unbackslash(Unwrap(s))
  }

  function Preprocessed(s: string): string {
    Convert(TrimOuterDoubleQuotes(s))
  }

  function PreprocessedAll(texts: seq<string>): (r: seq<string>)
    ensures |r| == |texts| && forall i | 0 <= i < |texts| :: r[i] == Preprocessed(texts[i])
  {
    seq(|texts|, i requires 0 <= i < |texts| => Preprocessed(texts[i]))
  }

  /** PreprocessPrivilegeStrings. */
  method PreprocessPrivilegeStrings(texts: seq<string>) returns (processed: seq<string>)
    ensures processed == PreprocessedAll(texts)
  {
    processed := [];
    for i := 0 to |texts|
      invariant |processed| == i && forall k | 0 <= k < i :: processed[k] == Preprocessed(texts[k])
    {
      var trimmed := TrimOuterDoubleQuotes(texts[i]);
      processed := processed + [Convert(trimmed)];
    }
  }

  // ---------------------------------------------------------------- identity

  /** Neither quote nor backslash. */
  predicate Plain(s: string) {
    QUOTE !in s && BACKSLASH !in s
  }

  lemma {:induction false} UnwrapSkips(a: string, rest: string)
    requires QUOTE !in a
    ensures Unwrap(a + rest) == a + Unwrap(rest)
    decreases |a|
  {
    if a == "" {
      assert a + rest == rest;
    } else {
      assert (a + rest)[1..] == a[1..] + rest;
      UnwrapSkips(a[1..], rest);
    }
  }

  lemma UnwrapPlain(a: string)
    requires QUOTE !in a
    ensures Unwrap(a) == a
  {
    UnwrapSkips(a, "");
    assert a + "" == a;
  }

  lemma RunIs(a: string, rest: string)
    requires QUOTE !in a && (rest == "" || rest[0] == QUOTE)
    ensures Run(a + rest) == |a|
  {
    var t := a + rest;
    assert forall i | 0 <= i < |a| :: t[i] == a[i];
    assert rest != "" ==> t[|a|] == rest[0];
  }

  /** One quote that does not open a doubled pair is kept. */
  lemma UnwrapQuote(rest: string)
    requires !StartsWith(rest, QUOTE)
    ensures Unwrap([QUOTE] + rest) == [QUOTE] + Unwrap(rest)
  {
    var s := [QUOTE] + rest;
    assert s[1..] == rest;
  }

  /** A text between quotes, then `b`, then more. */
  function Between(x: string, b: string, rest: string): string {
    [QUOTE] + (x + ([QUOTE] + (b + rest)))
  }

  /** An empty quoted text is kept unless what follows is a doubled quote. */
  lemma UnwrapEmpty(b: string, rest: string)
    requires QUOTE !in b && (b != "" || rest == "")
    requires rest == "" || (rest[0] == QUOTE && !TwoQuotes(rest))
    ensures Unwrap([QUOTE] + ([QUOTE] + (b + rest))) == [QUOTE] + Unwrap([QUOTE] + (b + rest))
  {
    var s := [QUOTE] + ([QUOTE] + (b + rest));
    assert s[2..] == b + rest && s[1..] == [QUOTE] + (b + rest);
    RunIs(b, rest);
    assert (b + rest)[|b|..] == rest;
    assert s[2 + |b|..] == rest;
    assert !DoubleWrapped(s);
  }

  lemma UnwrapBetween(x: string, b: string, rest: string)
    requires QUOTE !in x && QUOTE !in b && (b != "" || rest == "")
    requires rest == "" || (rest[0] == QUOTE && !TwoQuotes(rest))
    ensures Unwrap(Between(x, b, rest)) == Between(x, b, Unwrap(rest))
  {
    hide Unwrap;
    var tail := b + rest;
    UnwrapSkips(b, rest);
    assert !StartsWith(tail, QUOTE);
    UnwrapQuote(tail);
    if x == "" {
      assert x + ([QUOTE] + tail) == [QUOTE] + tail;
      assert x + ([QUOTE] + (b + Unwrap(rest))) == [QUOTE] + (b + Unwrap(rest));
      UnwrapEmpty(b, rest);
    } else {
      UnwrapSkips(x, [QUOTE] + tail);
      UnwrapQuote(x + ([QUOTE] + tail));
    }
  }

  lemma {:induction false} UnbackslashId(s: string)
    requires BACKSLASH !in s
    ensures Unbackslash(s) == s
  {
    if s != "" {
      UnbackslashId(s[1..]);
    }
  }

  lemma Nested(a: string, x: string, b: string)
    requires QUOTE !in x
    ensures a + Quoted(x) + b == a + Between(x, b, "")
  {
    EscapeId(x, QUOTE);
    assert b + "" == b;
  }

  lemma NestedDotted(a: string, x: string, y: string, b: string)
    requires QUOTE !in x && QUOTE !in y
    ensures a + Quoted(x) + "." + Quoted(y) + b == a + Between(x, ".", Between(y, b, ""))
  {
    hide Between, Quoted;
    var rest := "." + Quoted(y) + b;
    assert a + Quoted(x) + "." + Quoted(y) + b == a + Quoted(x) + rest;
    Nested(a, x, rest);
    Nested(".", y, b);
    BetweenShift(x, Between(y, b, ""));
  }

  lemma BetweenShift(x: string, rest: string)
    ensures Between(x, "." + rest, "") == Between(x, ".", rest)
  {
    assert ("." + rest) + "" == "." + rest;
  }

  lemma NoBackslash(a: string, x: string, b: string)
    requires Plain(a) && Plain(x) && Plain(b)
    ensures BACKSLASH !in a + Between(x, b, "")
  {}

  /** Texts with a quoted identifier. */
  lemma ConvertQuoted(a: string, x: string, b: string)
    requires Plain(a) && Plain(x) && Plain(b)
    ensures Convert(a + Quoted(x) + b) == a + Quoted(x) + b
  {
    hide Unwrap, Unbackslash, Between, Quoted;
    Nested(a, x, b);
    var t := a + Between(x, b, "");
    UnwrapSkips(a, Between(x, b, ""));
    UnwrapBetween(x, b, "");
    UnwrapPlain("");
    NoBackslash(a, x, b);
    UnbackslashId(t);
  }

  lemma ConvertDotted(a: string, x: string, y: string, b: string)
    requires Plain(a) && Plain(x) && Plain(y) && Plain(b) && y != ""
    ensures Convert(a + Quoted(x) + "." + Quoted(y) + b) == a + Quoted(x) + "." + Quoted(y) + b
  {
    hide Unwrap, Unbackslash, Between, Quoted;
    NestedDotted(a, x, y, b);
    var rest := Between(y, b, "");
    var t := a + Between(x, ".", rest);
    UnwrapSkips(a, Between(x, ".", rest));
    OpensOnce(y, b);
    UnwrapBetween(x, ".", rest);
    UnwrapBetween(y, b, "");
    UnwrapPlain("");
    NoBackslash(".", y, b);
    NoBackslashDotted(a, x, rest);
    UnbackslashId(t);
  }

  lemma OpensOnce(y: string, b: string)
    requires QUOTE !in y && y != ""
    ensures var rest := Between(y, b, ""); rest != "" && rest[0] == QUOTE && !TwoQuotes(rest)
  {
    assert Between(y, b, "")[1] == y[0];
  }

  lemma NoBackslashDotted(a: string, x: string, rest: string)
    requires Plain(a) && Plain(x) && BACKSLASH !in "." + rest
    ensures BACKSLASH !in a + Between(x, ".", rest)
  {
    assert BACKSLASH !in rest by { assert ("." + rest)[1..] == rest; }
  }

  lemma ConvertPlain(a: string)
    requires Plain(a)
    ensures Convert(a) == a
  {
    UnwrapPlain(a);
    UnbackslashId(a);
  }

  // ---------------------------------------------------------------- canonical strings

  lemma {:induction false} UnwrapShrinks(s: string)
    ensures |Unwrap(s)| <= |s|
    decreases |s|
  {
    if s == "" {
    } else if DoubleWrapped(s) {
      UnwrapShrinks(s[Run(s[2..]) + 4..]);
    } else {
      UnwrapShrinks(s[1..]);
    }
  }

  lemma {:induction false} UnbackslashShrinks(s: string)
    ensures |Unbackslash(s)| <= |s|
    decreases |s|
  {
    if s == "" {
    } else if |s| >= 2 && s[0] == BACKSLASH && s[1] == QUOTE {
      UnbackslashShrinks(s[2..]);
    } else {
      UnbackslashShrinks(s[1..]);
    }
  }

  lemma ConvertShrinks(s: string)
    ensures |Convert(s)| <= |s|
  {
    UnwrapShrinks(s);
    UnbackslashShrinks(Unwrap(s));
  }

  lemma WordIsPlain(c: char)
    requires In(c, WordOrSpace) || In(c, LetterOrSpace) || IsWord(c) || c == '.'
    ensures c != QUOTE && c != BACKSLASH
  {}

  lemma NameIsPlain(n: string)
    requires NameShape(n)
    ensures n != "" && IsLetter(n[0]) && Plain(n)
  {
    hide In, IsLetter;
    forall i | 0 <= i < |n|
      ensures n[i] != QUOTE && n[i] != BACKSLASH
    {
      WordIsPlain(n[i]);
    }
  }

  lemma SystemIsPlain(n: string)
    requires SystemShape(n)
    ensures n != "" && IsLetter(n[0]) && Plain(n)
  {
    hide In, IsLetter, IsWord;
    if SystemStem(n) {
      forall i | 0 <= i < |n| ensures n[i] != QUOTE && n[i] != BACKSLASH { WordIsPlain(n[i]); }
    } else {
      var k :| 0 < k < |n| && SystemStem(n[..k]) && SystemSuffix(n[k..]);
      forall i | 0 <= i < |n|
        ensures n[i] != QUOTE && n[i] != BACKSLASH
      {
        assert n[i] == if i < k then n[..k][i] else n[k..][i - k];
        WordIsPlain(n[i]);
      }
    }
  }

  lemma PlainSum(a: string, b: string)
    requires Plain(a) && Plain(b)
    ensures Plain(a + b)
  {}

  lemma PlainTail(s: string, k: nat)
    requires Plain(s) && k <= |s|
    ensures Plain(s[k..])
  {}

  /** The identifiers contain neither quote nor backslash. */
  predicate PlainIdentifiers(p: Privilege) {
    Plain(p.identifier) && Plain(p.subIdentifier)
  }

  /** A name, the words before a quoted identifier, and an option. */
  lemma QuotedText(n: string, words: string, x: string, o: string)
    requires Plain(n) && Plain(words) && Plain(x) && Plain(o)
    ensures Convert(n + (words + Quoted(x)) + o) == n + (words + Quoted(x)) + o
  {
    hide Convert, Quoted;
    PlainSum(n, words);
    ConvertQuoted(n + words, x, o);
    assert n + (words + Quoted(x)) + o == (n + words) + Quoted(x) + o;
  }

  lemma DottedText(n: string, words: string, x: string, y: string, o: string)
    requires Plain(n) && Plain(words) && Plain(x) && Plain(y) && y != "" && Plain(o)
    ensures Convert(n + (words + Quoted(x) + "." + Quoted(y)) + o) == n + (words + Quoted(x) + "." + Quoted(y)) + o
  {
    hide Convert, Quoted, Plain;
    PlainSum(n, words);
    ConvertDotted(n + words, x, y, o);
    assert n + (words + Quoted(x) + "." + Quoted(y)) + o == (n + words) + Quoted(x) + "." + Quoted(y) + o;
  }

  lemma BareText(n: string, words: string, x: string, o: string)
    requires Plain(n) && Plain(words) && Plain(x) && Plain(o)
    ensures Convert(n + (words + x) + o) == n + (words + x) + o
  {
    hide Convert, Plain;
    PlainSum(words, x);
    PlainSum(n, words + x);
    PlainSum(n + (words + x), o);
    ConvertPlain(n + (words + x) + o);
  }

  lemma SpecialTail(x: string)
    requires SpecialPrefix(x).Some? && Plain(x)
    ensures var k := SpecialPrefix(x).value; |k| <= |x| && Plain(x[|k|..]) && Plain(" ON " + k)
  {
    hide Plain;
    var k := SpecialPrefix(x).value;
    assert k <= x;
    PlainTail(x, |k|);
    assert x[..|k|] == k;
    PlainHead(x, |k|);
    OnIsPlain();
    PlainSum(" ON ", k);
  }

  lemma PlainHead(s: string, k: nat)
    requires Plain(s) && k <= |s|
    ensures Plain(s[..k])
  {}

  lemma OnIsPlain()
    ensures Plain(" ON ")
  {}

  lemma SourceIsPlain()
    ensures Plain(" ON REMOTE SOURCE ")
  {}

  lemma SchemaIsPlain()
    ensures Plain(" ON SCHEMA ") && Plain(" ON USERGROUP ")
  {}

  lemma KeyIsPlain()
    ensures Plain(" ON CLIENTSIDE ENCRYPTION COLUMN KEY ") && Plain(" ")
  {}

  lemma OptionIsPlain(p: Privilege)
    ensures Plain(OptionText(p))
  {}

  lemma OperatorIsPlain()
    ensures Plain("USERGROUP OPERATOR") && Plain("USAGE") && Plain("STRUCTURED PRIVILEGE")
  {}

  lemma CanonicalName(p: Privilege, d: string)
    requires Canonical(p, d)
    ensures p.name != "" && IsLetter(p.name[0]) && Plain(p.name)
    ensures p.kind == UserGroup ==> p.name == "USERGROUP OPERATOR"
  {
    hide NameShape, SystemShape, Bare, SpecialPrefix, Matches, ToText, Plain;
    OperatorIsPlain();
    match p.kind
    case System => SystemIsPlain(p.name);
    case UserGroup =>
    case ColumnKey =>
    case Structured =>
    case _ => NameIsPlain(p.name);
  }

  /** The conversion leaves canonical texts alone. */
  lemma ConvertText(p: Privilege, d: string)
    requires Canonical(p, d) && PlainIdentifiers(p)
    ensures Convert(ToText(p)) == ToText(p)
    ensures ToText(p) != "" && IsLetter(ToText(p)[0])
  {
    hide Canonical, Convert, Quoted, Plain, SpecialPrefix, OptionText;
    CanonicalName(p, d);
    OptionIsPlain(p);
    OnIsPlain();
    var n, x, o := p.name, p.identifier, OptionText(p);
    match p.kind
    case System =>
      PlainSum(n, o);
      ConvertPlain(n + o);
      assert n + "" == n;
    case Source =>
      SourceIsPlain();
      QuotedText(n, " ON REMOTE SOURCE ", x, o);
    case Schema =>
      SchemaIsPlain();
      QuotedText(n, " ON SCHEMA ", x, o);
    case UserGroup =>
      SchemaIsPlain();
      QuotedText(n, " ON USERGROUP ", x, o);
    case ColumnKey =>
      KeyIsPlain();
      BareText(n, " ON CLIENTSIDE ENCRYPTION COLUMN KEY ", x, o);
    case Structured =>
      KeyIsPlain();
      BareText(n, " ", x, o);
    case Object => ConvertObject(p);
    assert ToText(p)[0] == n[0];
  }

  lemma ConvertObject(p: Privilege)
    requires p.kind == Object && Plain(p.name) && PlainIdentifiers(p)
    ensures Convert(ToText(p)) == ToText(p)
  {
    hide Convert, Quoted, Plain, SpecialPrefix, OptionText;
    OptionIsPlain(p);
    OnIsPlain();
    var n, x, o := p.name, p.identifier, OptionText(p);
    if p.subIdentifier != "" {
      DottedText(n, " ON ", x, p.subIdentifier, o);
    } else if SpecialPrefix(x).Some? {
      var k := SpecialPrefix(x).value;
      SpecialTail(x);
      BareText(n, " ON " + k, x[|k|..], o);
    } else {
      QuotedText(n, " ON ", x, o);
    }
  }

  /** Preprocessing leaves a canonical string alone exactly when it does not end in a space that only Unicode knows. */
  lemma PreprocessIdIff(p: Privilege, d: string)
    requires Canonical(p, d) && PlainIdentifiers(p)
    ensures Preprocessed(ToText(p)) == ToText(p) <==> !IsUnicodeSpace(ToText(p)[|ToText(p)| - 1])
  {
    hide Canonical, PlainIdentifiers, Convert, ToText;
    ConvertText(p, d);
    var t := ToText(p);
    TrimSpaceIff(t);
    assert !IsUnicodeSpace(t[0]);
    var r := TrimOuterDoubleQuotes(t);
    ConvertShrinks(r);
  }

  /** Wrapping a canonical string in quotes and preprocessing restores it. */
  lemma WrappingIsUndone(p: Privilege, d: string)
    requires Canonical(p, d) && PlainIdentifiers(p)
    ensures Preprocessed([QUOTE] + ToText(p) + [QUOTE]) == ToText(p)
  {
    hide Canonical, PlainIdentifiers, Convert, ToText;
    ConvertText(p, d);
    var t := ToText(p);
    var w := [QUOTE] + t + [QUOTE];
    TrimSpaceIff(w);
    assert w[1..|w| - 1] == t;
  }

  // ---------------------------------------------------------------- backslashes and doubled quotes

  /** Every quote written with a backslash. */
  function Slashed(t: string): string {
    if t == "" then "" else (if t[0] == QUOTE then [BACKSLASH, QUOTE] else [t[0]]) + Slashed(t[1..])
  }

  lemma {:induction false} UnwrapSlashed(t: string)
    ensures Unwrap(Slashed(t)) == Slashed(t) && !StartsWith(Slashed(t), QUOTE)
    decreases |t|
  {
    if t != "" {
      var rest := Slashed(t[1..]);
      UnwrapSlashed(t[1..]);
      if t[0] == QUOTE {
        var s := [BACKSLASH] + ([QUOTE] + rest);
        assert Slashed(t) == s && s[1..] == [QUOTE] + rest;
        UnwrapQuote(rest);
      } else {
        assert Slashed(t)[1..] == rest;
      }
    }
  }

  lemma {:induction false} UnbackslashSlashed(t: string)
    requires BACKSLASH !in t
    ensures Unbackslash(Slashed(t)) == t
    decreases |t|
  {
    if t != "" {
      UnbackslashSlashed(t[1..]);
      var s, rest := Slashed(t), Slashed(t[1..]);
      if t[0] == QUOTE {
        assert s[2..] == rest;
      } else {
        assert s[1..] == rest;
      }
    }
  }

  /** A text whose quotes are each written with a backslash converts to the text itself, whatever it is, also when the
      whole is wrapped in quotes. */
  lemma SlashesAreUndone(t: string)
    requires BACKSLASH !in t
    ensures Convert(Slashed(t)) == t && Preprocessed([QUOTE] + Slashed(t) + [QUOTE]) == t
  {
    hide Slashed, Unwrap, Unbackslash;
    UnwrapSlashed(t);
    UnbackslashSlashed(t);
    var w := [QUOTE] + Slashed(t) + [QUOTE];
    TrimSpaceIff(w);
    assert w[1..|w| - 1] == Slashed(t);
  }

  /** An identifier in doubled quotes converts to the identifier in single ones. */
  lemma DoublingIsUndone(a: string, x: string, b: string)
    requires Plain(a) && Plain(x) && x != "" && Plain(b)
    ensures Convert(a + ([QUOTE, QUOTE] + x + [QUOTE, QUOTE] + b)) == a + Quoted(x) + b
  {
    hide Unwrap, Unbackslash, Quoted;
    var rest := [QUOTE, QUOTE] + x + [QUOTE, QUOTE] + b;
    UnwrapSkips(a, rest);
    UnwrapDoubled(x, b);
    UnwrapPlain(b);
    Nested(a, x, b);
    assert a + Between(x, b, "") == a + ([QUOTE] + x + [QUOTE] + b);
    NoBackslash(a, x, b);
    UnbackslashId(a + Between(x, b, ""));
  }

  lemma UnwrapDoubled(x: string, b: string)
    requires QUOTE !in x && x != ""
    ensures Unwrap([QUOTE, QUOTE] + x + [QUOTE, QUOTE] + b) == [QUOTE] + x + [QUOTE] + Unwrap(b)
  {
    var s := [QUOTE, QUOTE] + x + [QUOTE, QUOTE] + b;
    var tail := [QUOTE, QUOTE] + b;
    assert s[2..] == x + tail;
    RunIs(x, tail);
    assert s[2 + |x|..] == tail && s[|x| + 4..] == b && s[2..2 + |x|] == x;
  }

  function WrapAll(texts: seq<string>): (r: seq<string>)
    ensures |r| == |texts| && forall i | 0 <= i < |texts| :: r[i] == [QUOTE] + texts[i] + [QUOTE]
  {
    seq(|texts|, i requires 0 <= i < |texts| => [QUOTE] + texts[i] + [QUOTE])
  }

  /** FormatPrivilegeStringsWithPreprocessing gives wrapped canonical strings back without their wrapping. */
  lemma WrappedListFormats(ps: seq<Privilege>, d: string)
    requires forall i | 0 <= i < |ps| :: Canonical(ps[i], d) && PlainIdentifiers(ps[i])
    ensures Format(PreprocessedAll(WrapAll(Texts(ps))), d) == Ok(Texts(ps))
  {
    hide Canonical, PlainIdentifiers, Preprocessed, ToText, Format;
    var texts := Texts(ps);
    forall i | 0 <= i < |ps|
      ensures PreprocessedAll(WrapAll(texts))[i] == texts[i]
    {
      WrappingIsUndone(ps[i], d);
    }
    assert PreprocessedAll(WrapAll(texts)) == texts;
    FormatKeepsCanonical(ps, d);
  }
}
