/** Delimited identifiers: a text between quotes in which every quote is doubled, as in section 5.2 of
    ISO/IEC 9075-2. `q` is the double quote for identifiers and the single quote for string literals. */
module Quoting {
  import opened Strings

  /** utils.EscapeDoubleQuotes and utils.EscapeSingleQuotes. */
  function Escape(s: string, q: char): string {
    if s == "" then "" else (if s[0] == q then [q, q] else [s[0]]) + Escape(s[1..], q)
  }

  /** strings.ReplaceAll(s, qq, q), from left to right. */
  function Unescape(s: string, q: char): string {
    if s == "" then ""
    else if |s| >= 2 && s[0] == q && s[1] == q then [q] + Unescape(s[2..], q)
    else [s[0]] + Unescape(s[1..], q)
  }

  function Delimited(s: string, q: char): string {
    [q] + Escape(s, q) + [q]
  }

  /** Role.quotedName and the quoted identifiers of Privilege.baseString. */
  function Quoted(s: string): string {
    Delimited(s, QUOTE)
  }

  /** What may stand between the quotes. */
  predicate IsBody(t: string, q: char) {
    t == "" || (if t[0] != q then IsBody(t[1..], q) else |t| >= 2 && t[1] == q && IsBody(t[2..], q))
  }

  predicate IsQuoted(t: string) {
    |t| >= 2 && t[0] == QUOTE && t[|t| - 1] == QUOTE && IsBody(t[1..|t| - 1], QUOTE)
  }

  predicate StartsWith(s: string, q: char) {
    s != "" && s[0] == q
  }

  /** cleanIdentifier. */
  function Clean(identifier: string): string {
    if |identifier| >= 2 && identifier[0] == QUOTE && identifier[|identifier| - 1] == QUOTE
    then Unescape(identifier[1..|identifier| - 1], QUOTE)
    else identifier
  }

  lemma {:induction false} EscapeIsBody(s: string, q: char)
    ensures IsBody(Escape(s, q), q)
    ensures |Escape(s, q)| >= |s|
  {
    if s != "" {
      EscapeIsBody(s[1..], q);
      var rest := Escape(s[1..], q);
      if s[0] == q {
        assert Escape(s, q)[2..] == rest;
      } else {
        assert Escape(s, q)[1..] == rest;
      }
    }
  }

  lemma {:induction false} UnescapeEscape(s: string, q: char)
    ensures Unescape(Escape(s, q), q) == s
  {
    if s != "" {
      UnescapeEscape(s[1..], q);
      var rest := Escape(s[1..], q);
      if s[0] == q {
        assert Escape(s, q)[2..] == rest;
      } else {
        assert Escape(s, q)[1..] == rest;
      }
    }
  }

  lemma {:induction false} UnescapeShrinks(s: string, q: char)
    ensures |Unescape(s, q)| <= |s|
    decreases |s|
  {
    if s == "" {
    } else if |s| >= 2 && s[0] == q && s[1] == q {
      UnescapeShrinks(s[2..], q);
    } else {
      UnescapeShrinks(s[1..], q);
    }
  }

  lemma QuotedIsQuoted(s: string)
    ensures IsQuoted(Quoted(s)) && Clean(Quoted(s)) == s
  {
    var t := Quoted(s);
    assert t[1..|t| - 1] == Escape(s, QUOTE);
    EscapeIsBody(s, QUOTE);
    UnescapeEscape(s, QUOTE);
  }

  lemma {:induction false} BodyIsEscape(b: string, q: char)
    requires IsBody(b, q)
    ensures Escape(Unescape(b, q), q) == b
    decreases |b|
  {
    if b != "" {
      if b[0] == q {
        BodyIsEscape(b[2..], q);
        assert b == [q, q] + b[2..];
        assert Unescape(b, q)[1..] == Unescape(b[2..], q);
      } else {
        BodyIsEscape(b[1..], q);
        assert b == [b[0]] + b[1..];
        assert Unescape(b, q)[1..] == Unescape(b[1..], q);
      }
    }
  }

  /** And every delimited text is the quoting of what cleaning makes of it. */
  lemma QuotedBack(t: string)
    requires IsQuoted(t)
    ensures Quoted(Clean(t)) == t
  {
    BodyIsEscape(t[1..|t| - 1], QUOTE);
    assert t == [QUOTE] + t[1..|t| - 1] + [QUOTE];
  }

  lemma {:induction false} EscapeId(s: string, q: char)
    requires q !in s
    ensures Escape(s, q) == s
  {
    if s != "" {
      EscapeId(s[1..], q);
    }
  }

  lemma {:induction false} EscapeKeeps(s: string, q: char)
    ensures forall c | c != q :: c in Escape(s, q) <==> c in s
    ensures !IsSpace(q) ==> (NoSpace(Escape(s, q)) <==> NoSpace(s))
  {
    if s != "" {
      EscapeKeeps(s[1..], q);
      assert s == [s[0]] + s[1..];
      var e, r := Escape(s, q), Escape(s[1..], q);
      var d := if s[0] == q then 2 else 1;
      assert e[d..] == r && e[0] == s[0] && e[d - 1] == s[0];
      assert forall i | d <= i < |e| :: e[i] == r[i - d];
      assert forall i | 0 <= i < |r| :: r[i] == e[i + d];
      assert forall i | 0 < i < |s| :: s[i] == s[1..][i - 1];
      assert forall i | 0 <= i < |s| - 1 :: s[1..][i] == s[i + 1];
    }
  }

  lemma {:induction false} CountEscape(s: string, q: char, c: char)
    requires c != q
    ensures Count(Escape(s, q), c) == Count(s, c)
  {
    if s != "" {
      CountEscape(s[1..], q, c);
      var head := if s[0] == q then [q, q] else [s[0]];
      CountAppend(head, Escape(s[1..], q), c);
      assert head[1..] == if s[0] == q then [q] else "";
    }
  }

  lemma {:induction false} CountUnescape(s: string, q: char, c: char)
    requires c != q
    ensures Count(Unescape(s, q), c) == Count(s, c)
    decreases |s|
  {
    if s == "" {
    } else if |s| >= 2 && s[0] == q && s[1] == q {
      CountUnescape(s[2..], q, c);
      CountAppend([q], Unescape(s[2..], q), c);
      assert s == [q] + ([q] + s[2..]);
      assert s[1..][1..] == s[2..];
    } else {
      CountUnescape(s[1..], q, c);
      CountAppend([s[0]], Unescape(s[1..], q), c);
      assert s == [s[0]] + s[1..];
    }
  }

  lemma CountClean(g: string, c: char)
    requires c != QUOTE
    ensures Count(Clean(g), c) == Count(g, c)
  {
    if |g| >= 2 && g[0] == QUOTE && g[|g| - 1] == QUOTE {
      var b := g[1..|g| - 1];
      CountUnescape(b, QUOTE, c);
      assert g == [QUOTE] + b + [QUOTE];
      CountAppend([QUOTE] + b, [QUOTE], c);
      CountAppend([QUOTE], b, c);
    }
  }

  lemma CountQuoted(x: string, c: char)
    requires c != QUOTE
    ensures Count(Quoted(x), c) == Count(x, c)
  {
    CountEscape(x, QUOTE, c);
    CountAppend([QUOTE] + Escape(x, QUOTE), [QUOTE], c);
    CountAppend([QUOTE], Escape(x, QUOTE), c);
  }

  /** What may stand between quotes may do so without what comes before one of its other characters. */
  lemma {:induction false} BodySuffix(u: string, d: char, v: string, q: char)
    requires d != q && IsBody(u + [d] + v, q)
    ensures IsBody(v, q)
    decreases |u|
  {
    var t := u + [d] + v;
    if u == "" {
      assert t[1..] == v;
    } else if u[0] != q {
      assert t[0] == u[0] && t[1..] == u[1..] + [d] + v;
      BodySuffix(u[1..], d, v, q);
    } else {
      assert t[0] == q && t[1] == q;
      assert t[1] == if |u| >= 2 then u[1] else d;
      assert t[2..] == u[2..] + [d] + v;
      BodySuffix(u[2..], d, v, q);
    }
  }

  lemma {:induction false} OddQuote(b: string, q: char)
    requires IsBody(b, q)
    ensures !IsBody([q] + b, q)
    decreases |b|
  {
    var t := [q] + b;
    assert t[1..] == b;
    if b != "" && b[0] == q {
      assert t[2..] == b[1..];
      assert b[1..] == [q] + b[2..];
      OddQuote(b[2..], q);
    }
  }

  /** A delimited text cut at a dot is not cut into two delimited texts, nor is either part one. */
  lemma CutNotQuoted(x: string, g1: string, g2: string)
    requires g1 + "." + g2 == Quoted(x)
    ensures !IsQuoted(g1) && !IsQuoted(g2)
  {
    var e := Escape(x, QUOTE);
    EscapeIsBody(x, QUOTE);
    var t := [QUOTE] + e + [QUOTE];
    assert t == g1 + "." + g2;
    if IsQuoted(g1) {
      var b := g1[1..|g1| - 1];
      assert g1 == [QUOTE] + b + [QUOTE];
      assert t[1..] == b + [QUOTE] + ("." + g2) == e + [QUOTE] + "";
      BodyUnique(b, "." + g2, e, "", QUOTE);
    }
    if IsQuoted(g2) {
      SecondNotQuoted(e, g1, g2);
    }
  }

  lemma SecondNotQuoted(e: string, g1: string, g2: string)
    requires IsBody(e, QUOTE) && g1 + "." + g2 == [QUOTE] + e + [QUOTE]
    ensures !IsQuoted(g2)
  {
    var t := [QUOTE] + e + [QUOTE];
    if IsQuoted(g2) {
      var b := g2[1..|g2| - 1];
      assert g2 == [QUOTE] + b + [QUOTE];
      assert t[0] == if g1 == "" then '.' else g1[0];
      assert e == t[1..|t| - 1] == g1[1..] + "." + ([QUOTE] + b);
      BodySuffix(g1[1..], '.', [QUOTE] + b, QUOTE);
      OddQuote(b, QUOTE);
    }
  }

  /** A delimited text ends at exactly one place: two readings that are not followed by another quote agree. */
  lemma {:induction false} BodyUnique(b: string, y: string, c: string, z: string, q: char)
    requires IsBody(b, q) && IsBody(c, q)
    requires b + [q] + y == c + [q] + z
    requires !StartsWith(y, q) && !StartsWith(z, q)
    ensures b == c && y == z
    decreases |b|
  {
    var t := b + [q] + y;
    assert c != "" ==> t[0] == c[0] && (|c| >= 2 ==> t[1] == c[1]);
    assert b != "" ==> t[0] == b[0] && (|b| >= 2 ==> t[1] == b[1]);
    assert c == "" ==> t == [q] + z;
    assert b == "" ==> t == [q] + y;
    if b == "" || c == "" {
      assert b == c;
      assert y == t[1..];
    } else {
      assert b[0] == t[0] == c[0];
      var d := if b[0] == q then 2 else 1;
      assert t[d..] == b[d..] + [q] + y == c[d..] + [q] + z;
      BodyUnique(b[d..], y, c[d..], z, q);
      if d == 2 {
        assert b == [q, q] + b[2..] && c == [q, q] + c[2..];
      } else {
        assert b == [b[0]] + b[1..] && c == [c[0]] + c[1..];
      }
    }
  }

  /** Reference reader: the text after an opening quote, up to the closing one, and what follows. */
  function ReadBody(s: string, q: char): Option<(string, string)>
    decreases |s|
  {
    if s == "" then None
    else if s[0] != q then
      match ReadBody(s[1..], q)
      case Some(r) => Some(([s[0]] + r.0, r.1))
      case None => None
    else if |s| >= 2 && s[1] == q then
      match ReadBody(s[2..], q)
      case Some(r) => Some(([q] + r.0, r.1))
      case None => None
    else Some(("", s[1..]))
  }

  function ReadDelimited(s: string, q: char): Option<(string, string)> {
    if StartsWith(s, q) then ReadBody(s[1..], q) else None
  }

  lemma {:induction false} ReadBodyEscape(x: string, z: string, q: char)
    requires !StartsWith(z, q)
    ensures ReadBody(Escape(x, q) + [q] + z, q) == Some((x, z))
  {
    var t := Escape(x, q) + [q] + z;
    if x == "" {
      assert t == [q] + z;
      assert t[1..] == z;
    } else {
      ReadBodyEscape(x[1..], z, q);
      var rest := Escape(x[1..], q) + [q] + z;
      if x[0] == q {
        assert t == [q, q] + rest;
        assert t[2..] == rest;
        assert x == [q] + x[1..];
      } else {
        assert t == [x[0]] + rest;
        assert t[1..] == rest;
        assert ReadBody(t[1..], q) == Some((x[1..], z));
        assert x == [x[0]] + x[1..];
      }
    }
  }

  /** Reading back what was written, whatever the characters of the name. */
  lemma ReadDelimitedBack(x: string, z: string, q: char)
    requires !StartsWith(z, q)
    ensures ReadDelimited(Delimited(x, q) + z, q) == Some((x, z))
  {
    var t := Delimited(x, q) + z;
    assert t[1..] == Escape(x, q) + [q] + z;
    ReadBodyEscape(x, z, q);
  }

  /** Reference reader of a list of delimited texts separated by `sep`. */
  function ReadList(s: string, q: char, sep: string): Option<(seq<string>, string)>
    decreases |s|
  {
    match ReadDelimited(s, q)
    case None => None
    case Some(r) =>
      if |r.1| < |s| && sep + [q] <= r.1 then
        match ReadList(r.1[|sep|..], q, sep)
        case Some(more) => Some(([r.0] + more.0, more.1))
        case None => None
      else Some(([r.0], r.1))
  }

  function AllDelimited(names: seq<string>, q: char): (r: seq<string>)
    ensures |r| == |names| && forall i | 0 <= i < |r| :: r[i] == Delimited(names[i], q)
  {
    seq(|names|, i requires 0 <= i < |names| => Delimited(names[i], q))
  }

  /** A joined list of delimited names reads back to exactly those names, in order. */
  lemma {:induction false} ReadListBack(names: seq<string>, z: string, q: char, sep: string)
    requires names != []
    requires sep != "" && sep[0] != q
    requires !StartsWith(z, q) && !(sep + [q] <= z)
    ensures ReadList(Join(AllDelimited(names, q), sep) + z, q, sep) == Some((names, z))
    decreases |names|
  {
    var parts := AllDelimited(names, q);
    var t := Join(parts, sep) + z;
    if |names| == 1 {
      ReadDelimitedBack(names[0], z, q);
      assert names == [names[0]];
    } else {
      var rest := Join(AllDelimited(names[1..], q), sep) + z;
      assert parts[1..] == AllDelimited(names[1..], q);
      assert t == parts[0] + (sep + rest);
      ReadDelimitedBack(names[0], sep + rest, q);
      JoinStarts(names[1..], q, sep);
      assert rest[0] == q;
      assert (sep + rest)[..|sep| + 1] == sep + [q];
      assert (sep + rest)[|sep|..] == rest;
      ReadListBack(names[1..], z, q, sep);
      assert names == [names[0]] + names[1..];
    }
  }

  lemma JoinStarts(names: seq<string>, q: char, sep: string)
    requires names != []
    ensures StartsWith(Join(AllDelimited(names, q), sep), q)
  {}
}
