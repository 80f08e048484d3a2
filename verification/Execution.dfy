/** UpdatePrivileges as the database sees it: the privilege strings are parsed and grouped, the grouped GRANT statements
    are executed, then the grouped REVOKE statements, and the first failure ends it. */
module Execution {
  import opened Strings
  import opened Privileges
  import opened Language
  import opened Grouping
  import opened Statements
  import opened Grants
  import opened SetDiff

  /** Grants, then revokes, stopping at the first statement that fails: `ok` means none did. */
  ghost predicate Effect<K(!new)>(db: map<K, bool>, grants: set<Entry<K>>, revokes: set<K>, after: map<K, bool>,
                                  ok: bool) {
    exists es, ks ::
      && es <= grants && ks <= revokes
      && after == Revoke(Grant(db, es), ks)
      && (ok ==> es == grants && ks == revokes)
  }

  // ---------------------------------------------------------------- statements that stop at a failure

  /** Some first statements were executed; all of them if `ok`. */
  ghost predicate ExecSome<K>(db: map<K, bool>, ss: seq<Statement<K>>, after: map<K, bool>, ok: bool) {
    exists n | 0 <= n <= |ss| :: after == ExecAll(db, ss[..n]) && (ok ==> n == |ss|)
  }

  lemma {:induction false} ExecAllAppend<K>(db: map<K, bool>, ss: seq<Statement<K>>, s: Statement<K>)
    ensures ExecAll(db, ss + [s]) == Exec(ExecAll(db, ss), s)
    decreases |ss|
  {
    hide Exec;
    if ss == [] {
      assert ss + [s] == [s] && [s][1..] == [];
      assert ExecAll(Exec(db, s), []) == Exec(db, s);
    } else {
      assert (ss + [s])[1..] == ss[1..] + [s];
      ExecAllAppend(Exec(db, ss[0]), ss[1..], s);
    }
  }

  lemma ExecPrefix<K>(db: map<K, bool>, ss: seq<Statement<K>>, i: nat)
    requires i < |ss|
    ensures ExecAll(db, ss[..i + 1]) == Exec(ExecAll(db, ss[..i]), ss[i])
  {
    ExecAllAppend(db, ss[..i], ss[i]);
    assert ss[..i + 1] == ss[..i] + [ss[i]];
  }

  lemma {:induction false} GrantedPrefix<K>(ss: seq<Statement<K>>, n: nat)
    requires n <= |ss| && forall s | s in ss :: s.GrantTo?
    ensures Granted(ss[..n]) <= Granted(ss)
    decreases |ss|
  {
    if n > 0 {
      GrantedPrefix(ss[1..], n - 1);
      assert ss[..n][1..] == ss[1..][..n - 1];
    }
  }

  lemma {:induction false} RevokedPrefix<K>(ss: seq<Statement<K>>, n: nat)
    requires n <= |ss| && forall s | s in ss :: s.RevokeFrom?
    ensures Revoked(ss[..n]) <= Revoked(ss)
    decreases |ss|
  {
    if n > 0 {
      assert ss[0] in ss;
      RevokedPrefix(ss[1..], n - 1);
      assert ss[..n][1..] == ss[1..][..n - 1];
    }
  }

  lemma SomeGrants<K>(db: map<K, bool>, ss: seq<Statement<K>>, after: map<K, bool>, ok: bool)
      returns (es: set<Entry<K>>)
    requires (forall s | s in ss :: s.GrantTo?) && ExecSome(db, ss, after, ok)
    ensures es <= Granted(ss) && after == Grant(db, es) && (ok ==> es == Granted(ss))
  {
    hide Grant, Granted, ExecAll;
    var n :| 0 <= n <= |ss| && after == ExecAll(db, ss[..n]) && (ok ==> n == |ss|);
    assert ss[..|ss|] == ss;
    GrantsJoin(db, ss[..n]);
    GrantedPrefix(ss, n);
    es := Granted(ss[..n]);
  }

  lemma SomeRevokes<K>(db: map<K, bool>, ss: seq<Statement<K>>, after: map<K, bool>, ok: bool) returns (ks: set<K>)
    requires (forall s | s in ss :: s.RevokeFrom?) && ExecSome(db, ss, after, ok)
    ensures ks <= Revoked(ss) && after == Revoke(db, ks) && (ok ==> ks == Revoked(ss))
  {
    hide Revoke, Revoked, ExecAll;
    var n :| 0 <= n <= |ss| && after == ExecAll(db, ss[..n]) && (ok ==> n == |ss|);
    assert ss[..|ss|] == ss;
    RevokesJoin(db, ss[..n]);
    RevokedPrefix(ss, n);
    ks := Revoked(ss[..n]);
  }

  /** Grants, then revokes unless a grant failed. */
  lemma EffectOf<K(!new)>(db: map<K, bool>, gs: seq<Statement<K>>, mid: map<K, bool>, granted: bool,
                          rs: seq<Statement<K>>, after: map<K, bool>, ok: bool)
    requires (forall s | s in gs :: s.GrantTo?) && (forall s | s in rs :: s.RevokeFrom?)
    requires ExecSome(db, gs, mid, granted)
    requires if granted then ExecSome(mid, rs, after, ok) else after == mid && !ok
    ensures Effect(db, Granted(gs), Revoked(rs), after, ok)
  {
    hide Grant, Granted, Revoked, Revoke, ExecSome;
    var es := SomeGrants(db, gs, mid, granted);
    if granted {
      var ks := SomeRevokes(mid, rs, after, ok);
      assert after == Revoke(Grant(db, es), ks);
    } else {
      StoppedEarly(db, Granted(gs), Revoked(rs), es, after);
    }
  }

  lemma RevokeNone<K>(db: map<K, bool>)
    ensures Revoke(db, {}) == db
  {}

  lemma StoppedEarly<K(!new)>(db: map<K, bool>, grants: set<Entry<K>>, revokes: set<K>, es: set<Entry<K>>,
                              after: map<K, bool>)
    requires es <= grants && after == Grant(db, es)
    ensures Effect(db, grants, revokes, after, false)
  {
    hide Grant, Revoke;
    var none: set<K> := {};
    RevokeNone(after);
    assert none <= revokes && after == Revoke(Grant(db, es), none);
  }

  // ---------------------------------------------------------------- privileges

  /** The statements of some grouping of the privileges are executed, up to a failure; nothing if a text does not
      parse. */
  ghost predicate Granting(db: map<Privilege, bool>, texts: seq<string>, schema: string, after: map<Privilege, bool>,
                           ok: bool) {
    match ParseAll(texts, schema)
    case Err(_) => !ok && after == db
    case Ok(ps) => exists keys, groups :: IsGrouping(ps, keys, groups) && ExecSome(db, GrantsOf(groups), after, ok)
  }

  ghost predicate Revoking(db: map<Privilege, bool>, texts: seq<string>, schema: string, after: map<Privilege, bool>,
                           ok: bool) {
    match ParseAll(texts, schema)
    case Err(_) => !ok && after == db
    case Ok(ps) => exists keys, groups :: IsGrouping(ps, keys, groups) && ExecSome(db, RevokesOf(groups), after, ok)
  }

  /** What UpdatePrivileges may do to the grants of a user. */
  ghost predicate Executing(db: map<Privilege, bool>, toGrant: seq<string>, toRevoke: seq<string>, schema: string,
                            after: map<Privilege, bool>, ok: bool) {
    exists mid, granted ::
      && Granting(db, toGrant, schema, mid, granted)
      && if granted then Revoking(mid, toRevoke, schema, after, ok) else after == mid && !ok
  }

  // ---------------------------------------------------------------- what strings are sent to

  /** Strings that parse give privileges that can stand in a list, a structured one only from its own text. */
  ghost predicate Carried(texts: set<string>, schema: string) {
    forall t | t in texts && Parse(t, schema).Ok? :: CarriedAs(t, Parse(t, schema).value)
  }

  predicate CarriedAs(t: string, p: Privilege) {
    Listable(p) && (p.kind == Structured ==> ToText(p) == t)
  }

  /** What the statements for a set of strings act on. */
  function Sends(texts: set<string>, schema: string): set<Entry<Privilege>> {
    set t | t in texts && Parse(t, schema).Ok? && Reach(Parse(t, schema).value).Some? ::
      Entry(Reach(Parse(t, schema).value).value, Parse(t, schema).value.isGrantable)
  }

  lemma SendsPart(ts: set<string>, us: set<string>, schema: string)
    requires ts <= us
    ensures Sends(ts, schema) <= Sends(us, schema) && KeysOf(Sends(ts, schema)) <= KeysOf(Sends(us, schema))
    ensures Carried(us, schema) ==> Carried(ts, schema)
  {
    hide Parse, Reach, CarriedAs;
  }

  lemma StructuredText(p: Privilege, q: Privilege)
    requires Listable(p) && Listable(q) && p.kind == Structured && KeyOf(p) == KeyOf(q)
    ensures ToText(p) == ToText(q)
  {
    hide PlainName;
  }

  lemma CarriedOnce(texts: seq<string>, ps: seq<Privilege>)
    requires NoDuplicates(texts) && |texts| == |ps|
    requires forall i | 0 <= i < |ps| :: CarriedAs(texts[i], ps[i])
    ensures AllListable(ps)
  {
    hide ToText, Listable, KeyOf;
    forall i, j | 0 <= i < j < |ps| && ps[i].kind == Structured
      ensures KeyOf(ps[i]) != KeyOf(ps[j])
    {
      assert texts[i] != texts[j];
      KindOfKey(ps[i]);
      KindOfKey(ps[j]);
      if KeyOf(ps[i]) == KeyOf(ps[j]) {
        StructuredText(ps[i], ps[j]);
      }
    }
  }

  lemma SendsList(texts: seq<string>, ps: seq<Privilege>, schema: string)
    requires |texts| == |ps| && forall i | 0 <= i < |ps| :: Parse(texts[i], schema) == Ok(ps[i])
    ensures SentEntries(ps) == Sends(Elems(texts), schema)
    ensures SentBases(ps) == KeysOf(Sends(Elems(texts), schema))
  {
    hide Parse, Reach;
    forall e
      ensures e in SentEntries(ps) <==> e in Sends(Elems(texts), schema)
    {
      if e in SentEntries(ps) {
        var p :| p in ps && Reach(p).Some? && Entry(Reach(p).value, p.isGrantable) == e;
        var i :| 0 <= i < |ps| && ps[i] == p;
        assert texts[i] in Elems(texts);
      }
      if e in Sends(Elems(texts), schema) {
        var t :| t in Elems(texts) && Parse(t, schema).Ok? && Reach(Parse(t, schema).value).Some? &&
                 e == Entry(Reach(Parse(t, schema).value).value, Parse(t, schema).value.isGrantable);
        var i :| 0 <= i < |texts| && texts[i] == t;
        assert ps[i] in ps;
      }
    }
    assert SentBases(ps) == KeysOf(SentEntries(ps)) by { BasesAreKeys(ps); }
  }

  lemma BasesAreKeys(ps: seq<Privilege>)
    ensures SentBases(ps) == KeysOf(SentEntries(ps))
  {
    hide Reach;
    forall k | k in SentBases(ps)
      ensures k in KeysOf(SentEntries(ps))
    {
      var p :| p in ps && Reach(p).Some? && Reach(p).value == k;
      assert Entry(Reach(p).value, p.isGrantable) in SentEntries(ps);
    }
  }

  /** A list without duplicates of carried strings that parses can be grouped, and is sent to what its strings are sent
      to. */
  lemma CarriedList(texts: seq<string>, all: set<string>, schema: string)
    requires NoDuplicates(texts) && Elems(texts) <= all && Carried(all, schema)
    ensures ParseAll(texts, schema).Ok? <==> forall t | t in Elems(texts) :: Parse(t, schema).Ok?
    ensures ParseAll(texts, schema).Ok? ==>
              && AllListable(ParseAll(texts, schema).value)
              && SentEntries(ParseAll(texts, schema).value) == Sends(Elems(texts), schema)
              && SentBases(ParseAll(texts, schema).value) == KeysOf(Sends(Elems(texts), schema))
  {
    hide Parse, CarriedAs, SentEntries, SentBases, Sends, KeysOf;
    ParseAllIs(texts, schema);
    assert forall i | 0 <= i < |texts| :: texts[i] in Elems(texts);
    if ParseAll(texts, schema).Ok? {
      var ps := ParseAll(texts, schema).value;
      forall i | 0 <= i < |ps|
        ensures CarriedAs(texts[i], ps[i])
      {
        assert texts[i] in all;
      }
      CarriedOnce(texts, ps);
      SendsList(texts, ps, schema);
    }
  }

  lemma GrantsSent(db: map<Privilege, bool>, texts: seq<string>, all: set<string>, schema: string,
                   after: map<Privilege, bool>, ok: bool)
      returns (es: set<Entry<Privilege>>)
    requires Granting(db, texts, schema, after, ok)
    requires NoDuplicates(texts) && Elems(texts) <= all && Carried(all, schema)
    ensures es <= Sends(Elems(texts), schema) && after == Grant(db, es)
    ensures ok ==> es == Sends(Elems(texts), schema) && forall t | t in Elems(texts) :: Parse(t, schema).Ok?
  {
    hide AllListable, IsGrouping, ExecSome, ParseAll, Granted, Sends, Carried, Parse;
    CarriedList(texts, all, schema);
    if ParseAll(texts, schema).Ok? {
      var ps := ParseAll(texts, schema).value;
      var keys, groups :| IsGrouping(ps, keys, groups) && ExecSome(db, GrantsOf(groups), after, ok);
      GrantedTogether(ps, keys, groups);
      es := SomeGrants(db, GrantsOf(groups), after, ok);
    } else {
      es := {};
      GrantNone(db);
    }
  }

  lemma GrantNone<K>(db: map<K, bool>)
    ensures Grant(db, {}) == db
  {}

  lemma RevokesSent(db: map<Privilege, bool>, texts: seq<string>, all: set<string>, schema: string,
                    after: map<Privilege, bool>, ok: bool)
      returns (ks: set<Privilege>)
    requires Revoking(db, texts, schema, after, ok)
    requires NoDuplicates(texts) && Elems(texts) <= all && Carried(all, schema)
    ensures ks <= KeysOf(Sends(Elems(texts), schema)) && after == Revoke(db, ks)
    ensures ok ==> ks == KeysOf(Sends(Elems(texts), schema))
    ensures (exists t | t in Elems(texts) :: Parse(t, schema).Err?) ==> !ok && ks == {}
  {
    hide AllListable, IsGrouping, ExecSome, ParseAll, Revoked, Sends, Carried, Parse, KeysOf;
    CarriedList(texts, all, schema);
    if ParseAll(texts, schema).Ok? {
      var ps := ParseAll(texts, schema).value;
      var keys, groups :| IsGrouping(ps, keys, groups) && ExecSome(db, RevokesOf(groups), after, ok);
      RevokedTogether(ps, keys, groups);
      ks := SomeRevokes(db, RevokesOf(groups), after, ok);
    } else {
      ks := {};
      RevokeNone(db);
    }
  }

  /** The effect of an update of carried strings: part of what is sent is granted, then part of it revoked, everything
      if it succeeds; it does not succeed, and revokes nothing, if a string to revoke does not parse. */
  lemma ExecutingEffect(db: map<Privilege, bool>, toGrant: seq<string>, toRevoke: seq<string>, all: set<string>,
                        schema: string,
                        after: map<Privilege, bool>, ok: bool)
    requires Executing(db, toGrant, toRevoke, schema, after, ok)
    requires NoDuplicates(toGrant) && NoDuplicates(toRevoke) && Elems(toGrant) + Elems(toRevoke) <= all &&
             Carried(all, schema)
    ensures Effect(db, Sends(Elems(toGrant), schema), KeysOf(Sends(Elems(toRevoke), schema)), after, ok)
    ensures ok ==> forall t | t in Elems(toGrant) :: Parse(t, schema).Ok?
    ensures (exists t | t in Elems(toRevoke) :: Parse(t, schema).Err?) ==>
            !ok && Effect(db, Sends(Elems(toGrant), schema), {}, after, false)
  {
    hide Granting, Revoking, Sends, Carried, Parse, KeysOf, Grant, Revoke;
    var mid, granted :| Granting(db, toGrant, schema, mid, granted) &&
                        if granted then Revoking(mid, toRevoke, schema, after, ok) else after == mid && !ok;
    var es := GrantsSent(db, toGrant, all, schema, mid, granted);
    var ks: set<Privilege> := {};
    if granted {
      ks := RevokesSent(mid, toRevoke, all, schema, after, ok);
    } else {
      RevokeNone(mid);
    }
    assert after == Revoke(Grant(db, es), ks);
    EffectIs(db, Sends(Elems(toGrant), schema), KeysOf(Sends(Elems(toRevoke), schema)), es, ks, after, ok);
    if exists t | t in Elems(toRevoke) :: Parse(t, schema).Err? {
      EffectIs(db, Sends(Elems(toGrant), schema), {}, es, ks, after, false);
    }
  }

  /** Whatever is revoked, an update leaves nothing that was not there or sent. */
  lemma ExecutingKeeps(db: map<Privilege, bool>, toGrant: seq<string>, toRevoke: seq<string>, all: set<string>,
                       schema: string,
                       after: map<Privilege, bool>, ok: bool)
    requires Executing(db, toGrant, toRevoke, schema, after, ok)
    requires NoDuplicates(toGrant) && Elems(toGrant) <= all && Carried(all, schema)
    ensures forall e | e in Entries(after) :: e in Entries(db) || e.key in KeysOf(Sends(Elems(toGrant), schema))
  {
    hide Granting, Revoking, Sends, Carried;
    var mid, granted :| Granting(db, toGrant, schema, mid, granted) &&
                        if granted then Revoking(mid, toRevoke, schema, after, ok) else after == mid && !ok;
    var es := GrantsSent(db, toGrant, all, schema, mid, granted);
    if granted {
      RevokingShrinks(mid, toRevoke, schema, after, ok);
    }
    forall e | e in Entries(after)
      ensures e in Entries(db) || e.key in KeysOf(Sends(Elems(toGrant), schema))
    {
      assert e in Entries(Grant(db, es));
      if e.key !in KeysOf(es) {
        assert Entry(e.key, true) !in es;
      }
    }
  }

  lemma RevokingShrinks(db: map<Privilege, bool>, texts: seq<string>, schema: string, after: map<Privilege, bool>,
                        ok: bool)
    requires Revoking(db, texts, schema, after, ok)
    ensures Entries(after) <= Entries(db)
  {
    hide ParseAll, IsGrouping, ExecSome, Revoked;
    if ParseAll(texts, schema).Ok? {
      var ps := ParseAll(texts, schema).value;
      var keys, groups :| IsGrouping(ps, keys, groups) && ExecSome(db, RevokesOf(groups), after, ok);
      var ks := SomeRevokes(db, RevokesOf(groups), after, ok);
    }
  }

  lemma EffectIs<K(!new)>(db: map<K, bool>, grants: set<Entry<K>>, revokes: set<K>, es: set<Entry<K>>, ks: set<K>,
                          after: map<K, bool>, ok: bool)
    requires es <= grants && ks <= revokes && after == Revoke(Grant(db, es), ks) &&
             (ok ==> es == grants && ks == revokes)
    ensures Effect(db, grants, revokes, after, ok)
  {
    hide Grant, Revoke;
  }

  /** Texts of privileges whose statements can be grouped. */
  ghost predicate GroupableTexts(texts: seq<string>, schema: string) {
    ParseAll(texts, schema).Ok? && AllGroupable(ParseAll(texts, schema).value)
  }

  /** Grouping does not show: some of the privileges are granted, then some revoked, all if no statement fails. */
  lemma UpdateEffect(db: map<Privilege, bool>, toGrant: seq<string>, toRevoke: seq<string>, schema: string,
                     after: map<Privilege, bool>, ok: bool)
    requires GroupableTexts(toGrant, schema) && GroupableTexts(toRevoke, schema)
    requires Executing(db, toGrant, toRevoke, schema, after, ok)
    ensures Effect(db, EntriesOf(ParseAll(toGrant, schema).value), BasesOf(ParseAll(toRevoke, schema).value), after, ok)
  {
    hide AllGroupable, IsGrouping, ExecSome, Effect, ParseAll, Granted, Revoked, AllListable, SentEntries, SentBases;
    var mid, granted :| Granting(db, toGrant, schema, mid, granted) &&
                        if granted then Revoking(mid, toRevoke, schema, after, ok) else after == mid && !ok;
    var ps, qs := ParseAll(toGrant, schema).value, ParseAll(toRevoke, schema).value;
    GroupableListable(ps);
    GroupableListable(qs);
    SentAreOwn(ps);
    SentAreOwn(qs);
    var keys, groups :| IsGrouping(ps, keys, groups) && ExecSome(db, GrantsOf(groups), mid, granted);
    GrantedTogether(ps, keys, groups);
    if granted {
      var keys', groups' :| IsGrouping(qs, keys', groups') && ExecSome(mid, RevokesOf(groups'), after, ok);
      RevokedTogether(qs, keys', groups');
      EffectOf(db, GrantsOf(groups), mid, granted, RevokesOf(groups'), after, ok);
    } else {
      var es := SomeGrants(db, GrantsOf(groups), mid, false);
      StoppedEarly(db, EntriesOf(ps), BasesOf(qs), es, after);
    }
  }

  // ---------------------------------------------------------------- an update that succeeds

  lemma {:induction false} KeyList(keys: set<GroupKey>) returns (l: seq<GroupKey>)
    ensures NoDuplicates(l) && Elems(l) == keys
    decreases |keys|
  {
    if keys == {} {
      l := [];
    } else {
      var k :| k in keys;
      var rest := KeyList(keys - {k});
      l := rest + [k];
      assert Elems(l) == Elems(rest) + {k};
      assert k !in Elems(rest);
    }
  }

  lemma GroupingExists(ps: seq<Privilege>) returns (keys: seq<GroupKey>, groups: seq<Group>)
    ensures IsGrouping(ps, keys, groups)
  {
    hide GroupOf, NamesFor, KeySet;
    keys := KeyList(KeySet(ps));
    var ks := keys;
    groups := seq(|ks|, i requires 0 <= i < |ks| => GroupOf(ks[i], NamesFor(ps, ks[i])));
  }

  /** Strings that all parse can be granted and revoked without a failure. */
  lemma CanExecute(db: map<Privilege, bool>, toGrant: seq<string>, toRevoke: seq<string>, schema: string)
      returns (after: map<Privilege, bool>)
    requires ParseAll(toGrant, schema).Ok? && ParseAll(toRevoke, schema).Ok?
    ensures Executing(db, toGrant, toRevoke, schema, after, true)
  {
    hide ParseAll, IsGrouping, ExecAll;
    var keys, groups := GroupingExists(ParseAll(toGrant, schema).value);
    var mid := ExecAll(db, GrantsOf(groups));
    assert GrantsOf(groups)[..|GrantsOf(groups)|] == GrantsOf(groups);
    assert ExecSome(db, GrantsOf(groups), mid, true);
    assert Granting(db, toGrant, schema, mid, true);
    var keys', groups' := GroupingExists(ParseAll(toRevoke, schema).value);
    after := ExecAll(mid, RevokesOf(groups'));
    assert RevokesOf(groups')[..|RevokesOf(groups')|] == RevokesOf(groups');
    assert ExecSome(mid, RevokesOf(groups'), after, true);
    assert Revoking(mid, toRevoke, schema, after, true);
  }

  /** And strings of which one does not parse cannot. */
  lemma CannotExecute(db: map<Privilege, bool>, toGrant: seq<string>, toRevoke: seq<string>, schema: string,
                      after: map<Privilege, bool>)
    requires Executing(db, toGrant, toRevoke, schema, after, true)
    ensures ParseAll(toGrant, schema).Ok? && ParseAll(toRevoke, schema).Ok?
  {
    hide ParseAll, IsGrouping, ExecSome;
  }

  lemma NothingToExecute(db: map<Privilege, bool>, schema: string)
    ensures Executing(db, [], [], schema, db, true)
  {
    assert IsGrouping([], [], []);
    assert GrantsOf([])[..0] == [] && RevokesOf([])[..0] == [];
    assert ExecSome(db, GrantsOf([]), db, true) && ExecSome(db, RevokesOf([]), db, true);
    assert Granting(db, [], schema, db, true) && Revoking(db, [], schema, db, true);
  }
}
