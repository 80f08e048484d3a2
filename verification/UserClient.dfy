/** internal/clients/hana/user/user_client.go: the statements of an update, executed one after the other on the account
    of one user until one fails. A statement happens as a whole or fails. */
module UserClients {
  import opened Strings
  import opened Privileges
  import L = Language
  import R = Roles
  import opened Grouping
  import opened Grants
  import opened SetDiff
  import opened Execution
  import opened Queries
  import opened UserModel

  // ---------------------------------------------------------------- roles

  function EntriesOfRoles(rs: seq<R.Role>): set<Entry<R.RoleKey>> {
    set r | r in rs :: RoleEntry(r)
  }

  /** The roles without schema of these names. */
  function Unqualified(names: seq<string>): set<R.RoleKey> {
    set n | n in names :: R.RoleKey(None, n)
  }

  /** What the text of a statement over roles does: a list of delimited names, each that of a role without schema, and
      an option. */
  function RoleStatement(text: string, grantee: string): Statement<R.RoleKey> {
    match R.ReadStatement(text, "GRANT ")
    case Some((names, rest)) => GrantTo(Unqualified(names), rest == " TO " + grantee + " WITH ADMIN OPTION")
    case None =>
      match R.ReadStatement(text, "REVOKE ")
      case Some((names, _)) => RevokeFrom(Unqualified(names))
      case None => RevokeFrom({})
  }

  function RoleStatements(texts: seq<string>, grantee: string): (r: seq<Statement<R.RoleKey>>)
    ensures |r| == |texts| && forall i | 0 <= i < |texts| :: r[i] == RoleStatement(texts[i], grantee)
  {
    seq(|texts|, i requires 0 <= i < |texts| => RoleStatement(texts[i], grantee))
  }

  lemma {:induction false} InNamesWith(rs: seq<R.Role>, option: bool, n: string)
    ensures n in R.NamesWith(rs, option) <==> R.Role(n, option) in rs
    decreases |rs|
  {
    if rs != [] {
      InNamesWith(rs[1..], option, n);
    }
  }

  lemma GrantTexts(rs: seq<R.Role>, grantee: string)
    ensures var ss := RoleStatements(R.GrantStatements(rs, grantee), grantee);
            (forall s | s in ss :: s.GrantTo?) && Granted(ss) == EntriesOfRoles(rs)
  {
    hide R.ReadStatement, R.RoleList, EntriesOfRoles, Unqualified;
    var normal, admin := R.NamesWith(rs, false), R.NamesWith(rs, true);
    var plain := "GRANT " + R.RoleList(normal) + " TO " + grantee;
    var option := "GRANT " + R.RoleList(admin) + " TO " + grantee + " WITH ADMIN OPTION";
    var first := if normal == [] then [] else [GrantTo(Unqualified(normal), false)];
    var second := if admin == [] then [] else [GrantTo(Unqualified(admin), true)];
    if normal != [] {
      GrantText(plain, normal, false, grantee);
    }
    if admin != [] {
      GrantText(option, admin, true, grantee);
    }
    var ss := RoleStatements(R.GrantStatements(rs, grantee), grantee);
    assert ss == first + second;
    GrantedPair(rs, first, second);
  }

  lemma GrantText(text: string, names: seq<string>, option: bool, grantee: string)
    requires names != [] &&
             text == "GRANT " + R.RoleList(names) + " TO " + grantee + (if option then " WITH ADMIN OPTION" else "")
    ensures RoleStatement(text, grantee) == GrantTo(Unqualified(names), option)
  {
    hide R.ReadStatement, R.RoleList, Unqualified;
    var rest := " TO " + grantee + (if option then " WITH ADMIN OPTION" else "");
    assert text == "GRANT " + R.RoleList(names) + rest;
    R.StatementReadsBack("GRANT ", names, rest);
    assert |" WITH ADMIN OPTION"| == 18;
  }

  lemma GrantedPair(rs: seq<R.Role>, first: seq<Statement<R.RoleKey>>, second: seq<Statement<R.RoleKey>>)
    requires first == if R.NamesWith(rs, false) == [] then [] else [GrantTo(Unqualified(R.NamesWith(rs, false)), false)]
    requires second == if R.NamesWith(rs, true) == [] then [] else [GrantTo(Unqualified(R.NamesWith(rs, true)), true)]
    ensures (forall s | s in first + second :: s.GrantTo?) && Granted(first + second) == EntriesOfRoles(rs)
  {
    hide R.NamesWith, With, Unqualified;
    forall e
      ensures e in EntriesOfRoles(rs) <==>
              e in With(Unqualified(R.NamesWith(rs, false)), false) + With(Unqualified(R.NamesWith(rs, true)), true)
    {
      NamedWith(rs, e, false);
      NamedWith(rs, e, true);
      assert e.option == false || e.option == true;
      assert e in EntriesOfRoles(rs) <==>
          e.key.schema.None? && R.Role(e.key.name, e.option) in rs by { EntryOfRole(rs, e); }
    }
    NoneNamed();
    GrantedTwo(first, second);
  }

  lemma NoneNamed()
    ensures With(Unqualified([]), false) == {} && With(Unqualified([]), true) == {}
  {}

  lemma NamedWith(rs: seq<R.Role>, e: Entry<R.RoleKey>, option: bool)
    ensures e in With(Unqualified(R.NamesWith(rs, option)), option)
       <==> e.option == option && e.key.schema.None? && R.Role(e.key.name, option) in rs
  {
    hide R.NamesWith;
    InNamesWith(rs, option, e.key.name);
  }

  lemma EntryOfRole(rs: seq<R.Role>, e: Entry<R.RoleKey>)
    ensures e in EntriesOfRoles(rs) <==> e.key.schema.None? && R.Role(e.key.name, e.option) in rs
  {
    if e in EntriesOfRoles(rs) {
      var r :| r in rs && RoleEntry(r) == e;
      assert r == R.Role(e.key.name, e.option);
    }
    if e.key.schema.None? && R.Role(e.key.name, e.option) in rs {
      assert RoleEntry(R.Role(e.key.name, e.option)) == e;
    }
  }

  lemma GrantedTwo<K>(first: seq<Statement<K>>, second: seq<Statement<K>>)
    requires |first| <= 1 && |second| <= 1 && forall s | s in first + second :: s.GrantTo?
    ensures Granted(first + second) == (if first == [] then {} else With(first[0].keys, first[0].option)) +
                                       (if second == [] then {} else With(second[0].keys, second[0].option))
  {
    if first != [] {
      assert first[0] in first + second;
      assert (first + second)[1..] == second;
    } else {
      assert first + second == second;
    }
    if second != [] {
      assert second[0] in first + second;
      assert second[1..] == [];
    }
  }

  lemma RevokeText(rs: seq<R.Role>, grantee: string)
    requires rs != []
    ensures RoleStatement(R.RevokeStatement(rs, grantee), grantee) == RevokeFrom(KeysOf(EntriesOfRoles(rs)))
  {
    hide R.ReadStatement, R.RevokeStatement, Unqualified, EntriesOfRoles, KeysOf;
    R.RevokeReadsBack(rs, grantee);
    NotAGrant(rs, grantee);
    NamedKeys(rs);
  }

  lemma NamedKeys(rs: seq<R.Role>)
    ensures Unqualified(R.Names(rs)) == KeysOf(EntriesOfRoles(rs))
  {
    forall k | k in Unqualified(R.Names(rs))
      ensures k in KeysOf(EntriesOfRoles(rs))
    {
      var i :| 0 <= i < |rs| && R.RoleKey(None, R.Names(rs)[i]) == k;
      assert RoleEntry(rs[i]) in EntriesOfRoles(rs);
    }
    forall k | k in KeysOf(EntriesOfRoles(rs))
      ensures k in Unqualified(R.Names(rs))
    {
      var r :| r in rs && RoleEntry(r).key == k;
      var i :| 0 <= i < |rs| && rs[i] == r;
      assert R.Names(rs)[i] in R.Names(rs);
    }
  }

  lemma NotAGrant(rs: seq<R.Role>, grantee: string)
    ensures R.ReadStatement(R.RevokeStatement(rs, grantee), "GRANT ").None?
  {
    hide R.RoleList;
    assert R.RevokeStatement(rs, grantee)[0] == 'R';
  }

  // ---------------------------------------------------------------- the client

  class UserClient {
    var account: Account
    const username: string

    constructor (username: string, account: Account)
      ensures this.username == username && this.account == account
    {
      this.username, this.account := username, account;
    }

    /** ExecContext of the text of a statement on the privileges of the user. */
    method ExecPrivileges(query: string, grantee: string) returns (ok: bool)
      modifies this
      ensures account == old(account).(privileges :=
                if ok then Exec(old(account).privileges, PrivilegeStatement(query, grantee))
                else old(account).privileges)
    {
      ok := *;
      if ok {
        account := account.(privileges := Exec(account.privileges, PrivilegeStatement(query, grantee)));
      }
    }

    /** ExecContext of a statement on the roles of the user. */
    method ExecRoles(s: Statement<R.RoleKey>) returns (ok: bool)
      modifies this
      ensures account == old(account).(roles := if ok then Exec(old(account).roles, s) else old(account).roles)
    {
      ok := *;
      if ok {
        account := account.(roles := Exec(account.roles, s));
      }
    }

    method GrantPrivileges(grantee: string, texts: seq<string>) returns (ok: bool)
      modifies this
      ensures account == old(account).(privileges := account.privileges)
      ensures PrivilegesGranted(old(account).privileges, texts, username, grantee, account.privileges, ok)
    {
      hide L.ParseAll, IsGrouping, Exec, PrivilegeStatement;
      if |texts| == 0 {
        NothingGranted(texts, account.privileges, username, grantee);
        return true;
      }
      var parsed := L.ParsePrivilegeStrings(texts, username);
      if parsed.Err? {
        return false;
      }
      var groups, keys := GroupPrivileges(parsed.value);
      ghost var ss := PrivilegeStatements(GrantQueries(groups, grantee), grantee);
      ghost var db := account.privileges;
      for i := 0 to |groups|
        invariant account == old(account).(privileges := account.privileges)
        invariant account.privileges == ExecAll(db, ss[..i])
      {
        var query := "GRANT " + groups[i].body + " TO " + grantee;
        AppendNothing(query);
        if groups[i].isGrantable {
          if groups[i].kind == System {
            query := query + " WITH ADMIN OPTION";
          } else {
            query := query + " WITH GRANT OPTION";
          }
        }
        assert query == GrantQuery(groups[i], grantee);
        ok := ExecPrivileges(query, grantee);
        if !ok {
          assert ExecSome(db, ss, account.privileges, false);
          return;
        }
        ExecPrefix(db, ss, i);
      }
      assert ExecSome(db, ss, account.privileges, true);
      return true;
    }

    method RevokePrivileges(grantee: string, texts: seq<string>) returns (ok: bool)
      modifies this
      ensures account == old(account).(privileges := account.privileges)
      ensures PrivilegesRevoked(old(account).privileges, texts, username, grantee, account.privileges, ok)
    {
      hide L.ParseAll, IsGrouping, Exec, PrivilegeStatement;
      var parsed := L.ParsePrivilegeStrings(texts, username);
      if parsed.Err? {
        return false;
      }
      var groups, keys := GroupPrivileges(parsed.value);
      ghost var ss := PrivilegeStatements(RevokeQueries(groups, grantee), grantee);
      ghost var db := account.privileges;
      for i := 0 to |groups|
        invariant account == old(account).(privileges := account.privileges)
        invariant account.privileges == ExecAll(db, ss[..i])
      {
        ok := ExecPrivileges("REVOKE " + groups[i].body + " FROM " + grantee, grantee);
        if !ok {
          assert ExecSome(db, ss, account.privileges, false);
          return;
        }
        ExecPrefix(db, ss, i);
      }
      assert ExecSome(db, ss, account.privileges, true);
      return true;
    }

    /** UpdatePrivileges: grants if there is something to grant, then revokes if there is something to revoke. */
    method UpdatePrivileges(grantee: string, toGrant: seq<string>, toRevoke: seq<string>) returns (ok: bool)
      modifies this
      ensures account == old(account).(privileges := account.privileges)
      ensures exists mid, granted ::
                && PrivilegesGranted(old(account).privileges, toGrant, username, grantee, mid, granted)
                && if granted then PrivilegesRevoked(mid, toRevoke, username, grantee, account.privileges, ok)
                   else account.privileges == mid && !ok
      ensures Executing(old(account).privileges, toGrant, toRevoke, username, account.privileges, ok)
    {
      hide Granting, Revoking, PrivilegesGranted, PrivilegesRevoked;
      ghost var db := account.privileges;
      ok := true;
      if |toGrant| > 0 {
        ok := GrantPrivileges(grantee, toGrant);
      } else {
        NothingGranted(toGrant, db, username, grantee);
      }
      ghost var mid, granted := account.privileges, ok;
      assert PrivilegesGranted(db, toGrant, username, grantee, mid, granted);
      TextsExecute(db, toGrant, username, grantee, mid, granted);
      if ok {
        if |toRevoke| > 0 {
          ok := RevokePrivileges(grantee, toRevoke);
        } else {
          NothingRevoked(toRevoke, mid, username, grantee);
        }
        TextsExecute(mid, toRevoke, username, grantee, account.privileges, ok);
      }
    }

    /** GrantRoles: at most two statements. */
    method GrantRoles(grantee: string, texts: seq<string>) returns (ok: bool)
      modifies this
      ensures account == old(account).(roles := account.roles)
      ensures match R.ReadAll(texts)
              case Err(_) => !ok && account == old(account)
              case Ok(rs) => ExecSome(old(account).roles, RoleStatements(R.GrantStatements(rs, grantee), grantee),
                  account.roles, ok)
    {
      hide R.ReadAll, Exec, R.GrantStatements, RoleStatement;
      var queries := R.GrantRoles(grantee, texts);
      if queries.Err? {
        return false;
      }
      ok := Run(queries.value, grantee);
    }

    method RevokeRoles(grantee: string, texts: seq<string>) returns (ok: bool)
      modifies this
      ensures account == old(account).(roles := account.roles)
      ensures match R.ReadAll(texts)
              case Err(_) => !ok && account == old(account)
              case Ok(rs) => ExecSome(old(account).roles,
                  RoleStatements(if texts == [] then [] else [R.RevokeStatement(rs, grantee)], grantee), account.roles,
                  ok)
    {
      hide R.ReadAll, Exec, R.RevokeStatement, RoleStatement;
      var queries := R.RevokeRoles(grantee, texts);
      if queries.Err? {
        return false;
      }
      ok := Run(queries.value, grantee);
    }

    /** The statements one after the other, until one fails. */
    method Run(queries: seq<string>, grantee: string) returns (ok: bool)
      modifies this
      ensures account == old(account).(roles := account.roles)
      ensures ExecSome(old(account).roles, RoleStatements(queries, grantee), account.roles, ok)
    {
      hide Exec, RoleStatement;
      ghost var ss := RoleStatements(queries, grantee);
      ghost var db := account.roles;
      for i := 0 to |queries|
        invariant account == old(account).(roles := account.roles)
        invariant account.roles == ExecAll(db, ss[..i])
      {
        ok := ExecRoles(RoleStatement(queries[i], grantee));
        if !ok {
          return;
        }
        ExecPrefix(db, ss, i);
      }
      return true;
    }

    method UpdateRoles(grantee: string, toGrant: seq<string>, toRevoke: seq<string>) returns (ok: bool)
      modifies this
      ensures account == old(account).(roles := account.roles)
      ensures RolesRun(old(account).roles, Elems(toGrant), Elems(toRevoke), account.roles, ok)
    {
      hide RolesRun, ExecSome, R.ReadAll, RoleStatements, R.GrantStatements, R.RevokeStatement;
      ghost var db := account.roles;
      ok := true;
      if |toGrant| > 0 {
        ok := GrantRoles(grantee, toGrant);
      } else {
        NoRolesGranted(toGrant, db, grantee);
      }
      ghost var mid, granted := account.roles, ok;
      if ok {
        if |toRevoke| > 0 {
          ok := RevokeRoles(grantee, toRevoke);
        } else {
          NoRolesRevoked(toRevoke, mid, grantee);
        }
      }
      RolesEffect(db, toGrant, mid, granted, toRevoke, account.roles, ok, grantee);
    }

    /** UpdateParameters: the parameters to set, then those to clear, in one statement. */
    method UpdateParameters(toSet: map<string, string>, toClear: map<string, string>) returns (ok: bool)
      modifies this
      ensures account == old(account).(parameters := if ok then (old(account).parameters + toSet) - toClear.Keys
              else old(account).parameters)
    {
      ok := *;
      if ok {
        account := account.(parameters := (account.parameters + toSet) - toClear.Keys);
      }
    }

    method UpdateUsergroup(usergroup: string) returns (ok: bool)
      modifies this
      ensures account == old(account).(usergroup := if ok then usergroup else old(account).usergroup)
    {
      ok := *;
      if ok {
        account := account.(usergroup := usergroup);
      }
    }

    method UpdatePasswordLifetimeCheck(enabled: bool) returns (ok: bool)
      modifies this
      ensures account == old(account).(lifetimeCheck := if ok then enabled else old(account).lifetimeCheck)
    {
      ok := *;
      if ok {
        account := account.(lifetimeCheck := enabled);
      }
    }

    /** TogglePasswordAuthentication: disables what is said to be enabled, and the other way round. */
    method TogglePasswordAuthentication(isPasswordEnabled: bool) returns (ok: bool)
      modifies this
      ensures account == old(account).(passwordEnabled := if ok then !isPasswordEnabled
              else old(account).passwordEnabled)
    {
      ok := *;
      if ok {
        account := account.(passwordEnabled := !isPasswordEnabled);
      }
    }

    method UpdatePassword(password: string) returns (ok: bool)
      modifies this
      ensures account == old(account).(password := if ok then password else old(account).password)
    {
      ok := *;
      if ok {
        account := account.(password := password);
      }
    }

    /** QueryPrivileges: one string per row of the catalogue, in any order. */
    method QueryPrivileges() returns (texts: seq<string>)
      ensures Elems(texts) == PrivilegeTexts(Entries(account.privileges))
    {
      hide ToText, L.RowOf, L.FromRow;
      texts := [];
      var rest := account.privileges.Keys;
      while rest != {}
        invariant rest <= account.privileges.Keys
        invariant Elems(texts) == set k | k in account.privileges.Keys - rest ::
                  RowText(Entry(k, account.privileges[k]))
        decreases |rest|
      {
        var k :| k in rest;
        var row := L.RowOf(PrivilegeOf(Entry(k, account.privileges[k])));
        var text := ToText(L.FromRow(row));
        assert Elems(texts + [text]) == Elems(texts) + {text};
        texts := texts + [text];
        rest := rest - {k};
      }
    }

    /** QueryRoles. */
    method QueryRoles() returns (texts: seq<string>)
      ensures Elems(texts) == RoleTexts(Entries(account.roles))
    {
      hide R.ToText;
      texts := [];
      var rest := account.roles.Keys;
      while rest != {}
        invariant rest <= account.roles.Keys
        invariant Elems(texts) == set e | e in Entries(account.roles) && e.key !in rest :: RoleText(e)
        decreases |rest|
      {
        var k :| k in rest;
        var fullName := k.name;
        if k.schema.Some? {
          fullName := k.schema.value + "." + k.name;
        }
        var text := R.ToText(R.Role(fullName, account.roles[k]));
        assert text == RoleText(Entry(k, account.roles[k]));
        assert Entry(k, account.roles[k]) in Entries(account.roles);
        assert Elems(texts + [text]) == Elems(texts) + {text};
        texts := texts + [text];
        rest := rest - {k};
      }
    }
  }

  lemma AppendNothing(s: string)
    ensures s + "" == s
  {}

  lemma NothingGranted(texts: seq<string>, db: map<Privilege, bool>, schema: string, grantee: string)
    requires texts == []
    ensures PrivilegesGranted(db, texts, schema, grantee, db, true)
  {
    assert IsGrouping([], [], []);
    var ss := PrivilegeStatements(GrantQueries([], grantee), grantee);
    assert ss == [] && ss[..0] == [];
    assert ExecSome(db, ss, db, true);
  }

  lemma NothingRevoked(texts: seq<string>, db: map<Privilege, bool>, schema: string, grantee: string)
    requires texts == []
    ensures PrivilegesRevoked(db, texts, schema, grantee, db, true)
  {
    assert IsGrouping([], [], []);
    var ss := PrivilegeStatements(RevokeQueries([], grantee), grantee);
    assert ss == [] && ss[..0] == [];
    assert ExecSome(db, ss, db, true);
  }

  lemma NoRolesGranted(texts: seq<string>, db: map<R.RoleKey, bool>, grantee: string)
    requires texts == []
    ensures R.ReadAll(texts) == Ok([])
    ensures ExecSome(db, RoleStatements(R.GrantStatements([], grantee), grantee), db, true)
  {
    var ss := RoleStatements(R.GrantStatements([], grantee), grantee);
    assert ss[..0] == [];
    assert ExecAll(db, ss[..0]) == db;
  }

  lemma NoRolesRevoked(texts: seq<string>, db: map<R.RoleKey, bool>, grantee: string)
    requires texts == []
    ensures R.ReadAll(texts) == Ok([])
    ensures ExecSome(db, RoleStatements([], grantee), db, true)
  {
    var ss := RoleStatements([], grantee);
    assert ss[..0] == [];
    assert ExecAll(db, ss[..0]) == db;
  }

  lemma {:induction false} ReadAllIs(texts: seq<string>)
    ensures R.ReadAll(texts).Ok? <==> forall t | t in Elems(texts) :: R.Read(t).Ok?
    ensures R.ReadAll(texts).Ok? ==> EntriesOfRoles(R.ReadAll(texts).value) == ReadEntries(Elems(texts))
    decreases |texts|
  {
    hide R.Read;
    if texts != [] {
      ReadAllIs(texts[1..]);
      assert Elems(texts) == {texts[0]} + Elems(texts[1..]);
      if R.ReadAll(texts).Ok? {
        var r, rs := R.Read(texts[0]).value, R.ReadAll(texts[1..]).value;
        assert EntriesOfRoles([r] + rs) == {RoleEntry(r)} + EntriesOfRoles(rs);
        assert ReadEntries(Elems(texts)) == ReadEntries({texts[0]}) + ReadEntries(Elems(texts[1..]));
        assert ReadEntries({texts[0]}) == {RoleEntry(r)};
      }
    }
  }

  /** The roles granted, up to a failure; none if one of them cannot be read. */
  ghost predicate RolesGranted(db: map<R.RoleKey, bool>, texts: seq<string>, grantee: string,
                               after: map<R.RoleKey, bool>, ok: bool) {
    match R.ReadAll(texts)
    case Err(_) => !ok && after == db
    case Ok(rs) => ExecSome(db, RoleStatements(R.GrantStatements(rs, grantee), grantee), after, ok)
  }

  ghost predicate RolesRevoked(db: map<R.RoleKey, bool>, texts: seq<string>, grantee: string,
                               after: map<R.RoleKey, bool>, ok: bool) {
    match R.ReadAll(texts)
    case Err(_) => !ok && after == db
    case Ok(rs) => ExecSome(db, RoleStatements(if texts == [] then [] else [R.RevokeStatement(rs, grantee)], grantee),
        after, ok)
  }

  lemma RolesEffect(db: map<R.RoleKey, bool>, toGrant: seq<string>, mid: map<R.RoleKey, bool>, granted: bool,
                    toRevoke: seq<string>, after: map<R.RoleKey, bool>, ok: bool, grantee: string)
    requires RolesGranted(db, toGrant, grantee, mid, granted)
    requires if granted then RolesRevoked(mid, toRevoke, grantee, after, ok) else after == mid && !ok
    ensures RolesRun(db, Elems(toGrant), Elems(toRevoke), after, ok)
  {
    hide RolesGranted, RolesRevoked, R.Read, ReadEntries, KeysOf, Grant, Revoke;
    var es := GrantedRoles(db, toGrant, mid, granted, grantee);
    var ks: set<R.RoleKey> := {};
    if granted {
      ks := RevokedRoles(mid, toRevoke, after, ok, grantee);
    } else {
      RevokeNone(mid);
    }
    assert after == Revoke(Grant(db, es), ks);
    EffectIs(db, ReadEntries(Elems(toGrant)), KeysOf(ReadEntries(Elems(toRevoke))), es, ks, after, ok);
    if exists t | t in Elems(toRevoke) :: R.Read(t).Err? {
      EffectIs(db, ReadEntries(Elems(toGrant)), {}, es, ks, after, false);
    }
  }

  lemma GrantedRoles(db: map<R.RoleKey, bool>, texts: seq<string>, after: map<R.RoleKey, bool>, ok: bool,
                     grantee: string) returns (es: set<Entry<R.RoleKey>>)
    requires RolesGranted(db, texts, grantee, after, ok)
    ensures es <= ReadEntries(Elems(texts)) && after == Grant(db, es) && (ok ==> es == ReadEntries(Elems(texts)))
    ensures (exists t | t in Elems(texts) :: R.Read(t).Err?) ==> !ok && after == db
  {
    hide R.Read, R.ReadAll, ExecSome, RoleStatement, R.GrantStatements, EntriesOfRoles, ReadEntries, Granted, Grant;
    ReadAllIs(texts);
    if R.ReadAll(texts).Ok? {
      var rs := R.ReadAll(texts).value;
      GrantTexts(rs, grantee);
      es := SomeGrants(db, RoleStatements(R.GrantStatements(rs, grantee), grantee), after, ok);
    } else {
      es := {};
      GrantNone(db);
    }
  }

  lemma RevokedRoles(db: map<R.RoleKey, bool>, texts: seq<string>, after: map<R.RoleKey, bool>, ok: bool,
                     grantee: string) returns (ks: set<R.RoleKey>)
    requires RolesRevoked(db, texts, grantee, after, ok)
    ensures ks <= KeysOf(ReadEntries(Elems(texts))) && after == Revoke(db, ks) &&
            (ok ==> ks == KeysOf(ReadEntries(Elems(texts))))
    ensures (exists t | t in Elems(texts) :: R.Read(t).Err?) ==> !ok && ks == {}
  {
    hide R.Read, ExecSome, RoleStatement, R.RevokeStatement, EntriesOfRoles, ReadEntries, Revoke;
    ReadAllIs(texts);
    if R.ReadAll(texts).Ok? {
      var rs := R.ReadAll(texts).value;
      var revokes := RoleStatements(if texts == [] then [] else [R.RevokeStatement(rs, grantee)], grantee);
      if texts == [] {
        NoEntries();
        assert Revoked(revokes) == {};
      } else {
        RevokeText(rs, grantee);
        RevokedOne(revokes, KeysOf(EntriesOfRoles(rs)));
      }
      ks := SomeRevokes(db, revokes, after, ok);
    } else {
      ks := {};
      RevokeNone(db);
    }
  }

  lemma NoEntries()
    ensures KeysOf(EntriesOfRoles([])) == {}
  {}

  lemma RevokedOne<K>(ss: seq<Statement<K>>, ks: set<K>)
    requires |ss| == 1 && ss[0] == RevokeFrom(ks)
    ensures (forall s | s in ss :: s.RevokeFrom?) && Revoked(ss) == ks
  {
    assert ss[1..] == [];
  }
}
