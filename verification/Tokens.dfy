/** Taking a text apart from its end, one white-space separated token at a time. These functions give every
    printed privilege one reading from the right, which is what makes the matches of the patterns unique. */
module Tokens {
  import opened Strings

  predicate EndsSolid(s: string) {
    s != "" && !IsSpace(s[|s| - 1])
  }

  predicate EndsSpace(s: string) {
    s != "" && IsSpace(s[|s| - 1])
  }

  function TrimEnd(s: string): (r: string)
    ensures r <= s
    ensures r == "" || EndsSolid(r)
  {
    if EndsSpace(s) then TrimEnd(s[..|s| - 1]) else s
  }

  function LastToken(s: string): (r: string)
    ensures HasSuffix(s, r) && NoSpace(r)
  {
    if EndsSolid(s) then LastToken(s[..|s| - 1]) + [s[|s| - 1]] else ""
  }

  /** The text without its last token and the white space before it. */
  function Peel(s: string): string {
    TrimEnd(s[..|s| - |LastToken(s)|])
  }

  lemma {:induction false} TrimEndSpaces(x: string, sp: string)
    requires AllSpace(sp)
    ensures TrimEnd(x + sp) == TrimEnd(x)
    decreases |sp|
  {
    if sp == "" {
      assert x + sp == x;
    } else {
      assert (x + sp)[..|x + sp| - 1] == x + sp[..|sp| - 1];
      TrimEndSpaces(x, sp[..|sp| - 1]);
    }
  }

  lemma {:induction false} LastTokenIs(x: string, t: string)
    requires NoSpace(t)
    requires x == "" || EndsSpace(x)
    ensures LastToken(x + t) == t
    decreases |t|
  {
    if t == "" {
      assert x + t == x;
    } else {
      assert (x + t)[..|x + t| - 1] == x + t[..|t| - 1];
      LastTokenIs(x, t[..|t| - 1]);
    }
  }

  /** `x` followed by white space and a word: the word is the last token, and peeling it leaves `x`. */
  lemma PeelWord(x: string, sp: string, w: string)
    requires AllSpace(sp) && sp != ""
    requires NoSpace(w)
    ensures LastToken(x + sp + w) == w
    ensures Peel(x + sp + w) == TrimEnd(x)
  {
    assert EndsSpace(x + sp);
    LastTokenIs(x + sp, w);
    assert (x + sp + w)[..|x + sp + w| - |w|] == x + sp;
    TrimEndSpaces(x, sp);
  }

  lemma TrimSolid(x: string)
    requires EndsSolid(x)
    ensures TrimEnd(x) == x
  {}

  lemma PeelSolid(x: string, sp: string, w: string)
    requires EndsSolid(x)
    requires AllSpace(sp) && sp != ""
    requires NoSpace(w) && w != ""
    ensures LastToken(x + sp + w) == w
    ensures Peel(x + sp + w) == x
    ensures EndsSolid(x + sp + w)
  {
    PeelWord(x, sp, w);
    TrimSolid(x);
  }
}
