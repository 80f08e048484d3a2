/** Strings as users write them, and what becomes of them. */
module Examples {
  import opened Strings
  import opened Quoting
  import opened Privileges
  import opened Grammar
  import opened SystemNames
  import opened RoundTrip
  import opened Spelling
  import opened Readings
  import opened Language
  import R = Roles
  import opened RoleNames

  // ---------------------------------------------------------------- pieces

  lemma UpperIs(s: string, t: string)
    requires |s| == |t| && forall i | 0 <= i < |s| :: UpperChar(s[i]) == t[i]
    ensures Upper(s) == t
  {}

  lemma LowerWords()
    ensures Upper("on") == "ON" && Upper("Schema") == "SCHEMA"
    ensures Upper("with") == "WITH" && Upper("Grant") == "GRANT" && Upper("admin") == "ADMIN" &&
            Upper("OPTION") == "OPTION"
  {
    hide Upper;
    UpperIs("on", "ON");
    UpperIs("Schema", "SCHEMA");
    UpperIs("with", "WITH");
    UpperIs("Grant", "GRANT");
    UpperIs("admin", "ADMIN");
    UpperIs("OPTION", "OPTION");
  }

  /** Every white space that separates words. */
  lemma Gaps()
    ensures Gap(" ") && Gap("  ") && Gap("\t") && Gap("\n") && Gap("\r\n") && Gap([12 as char])
  {}

  lemma OnClause(c: string, a: string, s: string)
    requires Gap(c) && Upper(a) == "ON" && Gap(s)
    ensures ClauseSpelled([], c + a + s)
  {
    hide Upper;
  }

  lemma KeywordClause(c: string, w: string, s: string, kw: string)
    requires ClauseSpelled([], c) && Upper(w) == kw && Gap(s)
    ensures ClauseSpelled([kw], c + w + s)
  {
    hide Upper;
    assert [kw][..0] == [];
  }

  lemma OptionIs(s1: string, a: string, s2: string, b: string, s3: string, c: string, w: string)
    requires Gap(s1) && Upper(a) == "WITH" && Gap(s2) && Upper(b) == w && Gap(s3) && Upper(c) == "OPTION"
    ensures OptionSpelled(w, s1 + a + s2 + b + s3 + c)
  {
    hide Upper;
    assert OptionSplit(w, s1 + a + s2 + b + s3 + c, s1, a, s2, b, s3, c);
  }

  // ---------------------------------------------------------------- examples

  /** Two blanks, a tab and a line break between words, words in any case. */
  lemma SchemaExample(d: string)
    ensures Parse("  Select" + ("  on\t" + "Schema" + "  ") + Quoted("S") +
            (" " + "with" + "\n" + "Grant" + " " + "OPTION") + " ", d)
         == Ok(Privilege(Schema, "Select", "S", "", true))
  {
    hide Parse, Upper, Quoted, ClauseSpelled, OptionSpelled, PrintedIdent, IdentShape, Clean;
    LowerWords();
    Gaps();
    OnClause("  ", "on", "\t");
    assert "  " + "on" + "\t" == "  on\t";
    KeywordClause("  on\t", "Schema", "  ", "SCHEMA");
    OptionIs(" ", "with", "\n", "Grant", " ", "OPTION", "GRANT");
    QuotedPrinted("S");
    var cl, o := "  on\t" + "Schema" + "  ", " " + "with" + "\n" + "Grant" + " " + "OPTION";
    var m := ["  ", "Select", cl, Quoted("S"), o, " "];
    var s := "  Select" + cl + Quoted("S") + o + " ";
    assert "  " + "Select" == "  Select";
    SelectIsName();
    assert TargetSpelled(OnSchema, m, s) by { PrintedShape(Quoted("S")); }
    ReadTarget(7, m, s, d);
    assert o != "" by { assert o[0] == ' '; }
  }

  lemma SelectIsName()
    ensures NameShape("Select") && NameShape("select")
  {}

  lemma PrintedShape(q: string)
    requires PrintedIdent(q)
    ensures IdentShape(q)
  {
    hide IdentShape;
  }

  /** A bare qualified object. */
  lemma ObjectExample(d: string)
    ensures Parse("select" + (" " + "on" + " ") + "S" + "." + "T", d) ==
            Ok(Privilege(Object, "select", "S", "T", false))
  {
    hide Parse, Upper, ClauseSpelled, OptionSpelled, Clean;
    LowerWords();
    Gaps();
    OnClause(" ", "on", " ");
    var cl := " " + "on" + " ";
    var m := ["", "select", cl, "S", ".", "T", "", ""];
    SelectIsName();
    NoOption();
    var s := "select" + cl + "S" + "." + "T";
    assert "" + "select" + cl + "S" + "." + "T" + "" + "" == s;
    assert DottedSpelled(m, s);
    ReadBareQualified(m, s, d);
    assert Clean("S") == "S" && Clean("T") == "T" by { CleanLetters(); }
  }

  lemma NoOption()
    ensures OptionSpelled("GRANT", "")
  {}

  lemma CleanLetters()
    ensures Clean("S") == "S" && Clean("T") == "T"
  {}

  /** A delimited role with a spelled option. */
  lemma RoleExample()
    ensures R.Read(" " + Quoted("R") + ("  " + "with" + " " + "admin" + "\t" + "OPTION")) == Ok(R.Role("R", true))
  {
    hide R.Read, Upper, Quoted, OptionSpelled, IdentShape, PrintedIdent, Clean;
    LowerWords();
    Gaps();
    OptionIs("  ", "with", " ", "admin", "\t", "OPTION", "ADMIN");
    QuotedPrinted("R");
    PrintedShape(Quoted("R"));
    var o := "  " + "with" + " " + "admin" + "\t" + "OPTION";
    var m, s := [" ", Quoted("R"), o, ""], " " + Quoted("R") + o;
    assert s + "" == s;
    assert RoleSpelled(m, s);
    ReadRole(m, s);
    assert o != "" by { assert o[0] == ' '; }
  }

  // ---------------------------------------------------------------- printed forms

  lemma PlainQuoted(x: string)
    requires QUOTE !in x
    ensures Quoted(x) == [QUOTE] + x + [QUOTE]
  {
    EscapeId(x, QUOTE);
  }

  /** The printed form of every kind of privilege, for identifiers without quotes. */
  lemma PrintedForms(n: string, x: string, y: string)
    requires QUOTE !in x && QUOTE !in y && y != ""
    ensures var q, r := [QUOTE] + x + [QUOTE], [QUOTE] + y + [QUOTE];
            && ToText(Privilege(System, n, "", "", true)) == n + "" + " WITH ADMIN OPTION"
            && ToText(Privilege(Source, n, x, "", false)) == n + (" ON REMOTE SOURCE " + q) + ""
            && ToText(Privilege(Schema, n, x, "", true)) == n + (" ON SCHEMA " + q) + " WITH GRANT OPTION"
            && ToText(Privilege(Object, n, x, y, false)) == n + (" ON " + q + "." + r) + ""
            && ToText(Privilege(UserGroup, n, x, "", false)) == "USERGROUP OPERATOR" + (" ON USERGROUP " + q) + ""
            && ToText(Privilege(ColumnKey, n, x, "", true)) ==
               n + (" ON CLIENTSIDE ENCRYPTION COLUMN KEY " + x) + " WITH GRANT OPTION"
            && ToText(Privilege(Structured, n, x, "", false)) == n + (" " + x) + ""
  {
    hide Quoted;
    PlainQuoted(x);
    PlainQuoted(y);
  }

  /** And of special objects, whose names are not quoted. */
  lemma SpecialForms(k: string, n: string, x: string)
    requires IsSpecial(k)
    ensures ToText(Privilege(Object, n, k + x, "", true)) == n + (" ON " + k + x) + " WITH GRANT OPTION"
  {
    PrefixOfSpecial(k, x);
  }
}
