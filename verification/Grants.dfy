/** What is granted to one grantee: a map from a grant without its option to whether it carries the option.
    GRANT adds grants and joins options; REVOKE carries no option and removes the grant. The same catalogue serves
    privileges and roles. */
module Grants {

  datatype Entry<K> = Entry(key: K, option: bool)

  datatype Statement<K> = GrantTo(keys: set<K>, option: bool) | RevokeFrom(keys: set<K>)

  function Entries<K>(db: map<K, bool>): set<Entry<K>> {
    set k | k in db :: Entry(k, db[k])
  }

  function KeysOf<K>(es: set<Entry<K>>): set<K> {
    set e | e in es :: e.key
  }

  function With<K>(ks: set<K>, option: bool): set<Entry<K>> {
    set k | k in ks :: Entry(k, option)
  }

  /** The catalogue after granting every entry of `es`, in any order. */
  function Grant<K>(db: map<K, bool>, es: set<Entry<K>>): map<K, bool> {
    map k | k in db.Keys + KeysOf(es) :: (k in db && db[k]) || Entry(k, true) in es
  }

  function Revoke<K>(db: map<K, bool>, ks: set<K>): map<K, bool> {
    db - ks
  }

  function Exec<K>(db: map<K, bool>, s: Statement<K>): map<K, bool> {
    match s
    case GrantTo(ks, option) => Grant(db, With(ks, option))
    case RevokeFrom(ks) => Revoke(db, ks)
  }

  function ExecAll<K>(db: map<K, bool>, ss: seq<Statement<K>>): map<K, bool>
    decreases |ss|
  {
    if ss == [] then db else ExecAll(Exec(db, ss[0]), ss[1..])
  }

  function Granted<K>(ss: seq<Statement<K>>): set<Entry<K>>
    requires forall s | s in ss :: s.GrantTo?
  {
    if ss == [] then {} else With(ss[0].keys, ss[0].option) + Granted(ss[1..])
  }

  function Revoked<K>(ss: seq<Statement<K>>): set<K>
    requires forall s | s in ss :: s.RevokeFrom?
  {
    if ss == [] then {} else ss[0].keys + Revoked(ss[1..])
  }

  lemma GrantTwice<K>(db: map<K, bool>, es: set<Entry<K>>, fs: set<Entry<K>>)
    ensures Grant(Grant(db, es), fs) == Grant(db, es + fs)
  {
    assert KeysOf(es + fs) == KeysOf(es) + KeysOf(fs);
  }

  /** Any sequence of GRANT statements, in any order and however grouped, has the effect of what they grant together. */
  lemma {:induction false} GrantsJoin<K>(db: map<K, bool>, ss: seq<Statement<K>>)
    requires forall s | s in ss :: s.GrantTo?
    ensures ExecAll(db, ss) == Grant(db, Granted(ss))
    decreases |ss|
  {
    if ss == [] {
      assert Grant(db, {}) == db;
    } else {
      GrantsJoin(Exec(db, ss[0]), ss[1..]);
      GrantTwice(db, With(ss[0].keys, ss[0].option), Granted(ss[1..]));
    }
  }

  lemma RevokeTwice<K>(db: map<K, bool>, ks: set<K>, ls: set<K>)
    ensures Revoke(Revoke(db, ks), ls) == Revoke(db, ks + ls)
  {}

  lemma {:induction false} RevokesJoin<K>(db: map<K, bool>, ss: seq<Statement<K>>)
    requires forall s | s in ss :: s.RevokeFrom?
    ensures ExecAll(db, ss) == Revoke(db, Revoked(ss))
    decreases |ss|
  {
    if ss == [] {
      assert db - {} == db;
    } else {
      assert ss[0] in ss;
      RevokesJoin(Exec(db, ss[0]), ss[1..]);
      RevokeTwice(db, ss[0].keys, Revoked(ss[1..]));
    }
  }

  // ---------------------------------------------------------------- one reconciliation pass

  /** Grant what is missing, then revoke what is too much, as UpdatePrivileges and UpdateRoles do. */
  function Pass<K>(db: map<K, bool>, desired: set<Entry<K>>): map<K, bool> {
    Revoke(Grant(db, desired - Entries(db)), KeysOf(Entries(db) - desired))
  }

  /** No grant is desired both with and without its option. */
  ghost predicate Consistent<K(!new)>(desired: set<Entry<K>>) {
    forall k :: !(Entry(k, true) in desired && Entry(k, false) in desired)
  }

  /** The grant is there and desired, with the other option. */
  ghost predicate OptionDiffers<K>(db: map<K, bool>, desired: set<Entry<K>>, k: K) {
    k in db && Entry(k, !db[k]) in desired
  }

  lemma InKeysOf<K>(es: set<Entry<K>>, k: K)
    ensures k in KeysOf(es) <==> Entry(k, true) in es || Entry(k, false) in es
  {
    if k in KeysOf(es) {
      var e :| e in es && e.key == k;
      assert e == Entry(k, e.option);
    }
  }

  /** What one pass does to one grant. */
  lemma PassAt<K>(db: map<K, bool>, desired: set<Entry<K>>, k: K, g: bool)
    requires Entry(k, !g) !in desired
    ensures k in Pass(db, desired) <==> Entry(k, g) in desired && !(k in db && db[k] != g)
    ensures k in Pass(db, desired) ==> Pass(db, desired)[k] == g
  {
    var missing, extra := desired - Entries(db), Entries(db) - desired;
    InKeysOf(missing, k);
    InKeysOf(extra, k);
    assert Entry(k, true) in Entries(db) <==> k in db && db[k];
    assert Entry(k, false) in Entries(db) <==> k in db && !db[k];
    assert g == true || g == false;
  }

  /** One pass reaches the desired grants exactly when no grant differs only in its option. */
  lemma OnePassIff<K(!new)>(db: map<K, bool>, desired: set<Entry<K>>)
    requires Consistent(desired)
    ensures Entries(Pass(db, desired)) == desired <==> forall k :: !OptionDiffers(db, desired, k)
  {
    PassEntries(db, desired);
    forall k | OptionDiffers(db, desired, k)
      ensures Entry(k, !db[k]) in desired && Entry(k, !db[k]) !in Entries(Pass(db, desired))
    {}
    if forall k :: !OptionDiffers(db, desired, k) {
      SameEntries(Entries(Pass(db, desired)), desired);
    }
  }

  lemma SameEntries<K(!new)>(es: set<Entry<K>>, fs: set<Entry<K>>)
    requires forall k, g :: Entry(k, g) in es <==> Entry(k, g) in fs
    ensures es == fs
  {
    forall e: Entry<K>
      ensures e in es <==> e in fs
    {
      assert e == Entry(e.key, e.option);
    }
  }

  /** After one pass exactly the desired grants that did not differ in their option are there. */
  lemma PassEntries<K(!new)>(db: map<K, bool>, desired: set<Entry<K>>)
    requires Consistent(desired)
    ensures forall k, g ::
            Entry(k, g) in Entries(Pass(db, desired)) <==> Entry(k, g) in desired && !OptionDiffers(db, desired, k)
  {
    forall k, g
      ensures Entry(k, g) in Entries(Pass(db, desired)) <==> Entry(k, g) in desired && !OptionDiffers(db, desired, k)
    {
      var h := if Entry(k, true) in desired then true else false;
      PassAt(db, desired, k, h);
    }
  }

  /** From every catalogue two passes reach the desired grants, and the second one revokes nothing. */
  lemma TwoPasses<K(!new)>(db: map<K, bool>, desired: set<Entry<K>>)
    requires Consistent(desired)
    ensures var once := Pass(db, desired);
            && Entries(once) - desired == {}
            && Entries(Pass(once, desired)) == desired
  {
    var once := Pass(db, desired);
    PassEntries(db, desired);
    forall e | e in Entries(once)
      ensures e in desired
    {
      assert Entry(e.key, e.option) in Entries(once);
    }
    forall k
      ensures !OptionDiffers(once, desired, k)
    {
      assert k in once ==> Entry(k, once[k]) in Entries(once);
    }
    OnePassIff(once, desired);
  }

  /** A grant desired both with and without option is never reached, whatever the catalogue. */
  lemma InconsistentNever<K(!new)>(db: map<K, bool>, desired: set<Entry<K>>)
    requires Entries(db) == desired
    ensures Consistent(desired)
  {
    forall k
      ensures !(Entry(k, true) in desired && Entry(k, false) in desired)
    {}
  }

  // ---------------------------------------------------------------- passes over what looks like something else

  /** One pass where, besides what is granted, `shadow` is seen: grants that no statement moves, under the name of
      others. What is seen is not granted, and what is seen and not desired is revoked. */
  function ShadowPass<K>(db: map<K, bool>, shadow: set<Entry<K>>, desired: set<Entry<K>>): map<K, bool> {
    Revoke(Grant(db, desired - (Entries(db) + shadow)), KeysOf((Entries(db) + shadow) - desired))
  }

  predicate Has<K(==)>(db: map<K, bool>, k: K, g: bool) {
    k in db && db[k] == g
  }

  lemma HasIff<K>(db: map<K, bool>, k: K, g: bool)
    ensures Entry(k, g) in Entries(db) <==> Has(db, k, g)
  {}

  /** The grant is seen and desired, or neither, with and without option. */
  predicate SettledAt<K(==)>(db: map<K, bool>, shadow: set<Entry<K>>, desired: set<Entry<K>>, k: K) {
    && (Has(db, k, true) || Entry(k, true) in shadow <==> Entry(k, true) in desired)
    && (Has(db, k, false) || Entry(k, false) in shadow <==> Entry(k, false) in desired)
  }

  /** Passes can settle the grant: what is seen of it is desired, and if it is desired both with and without option then
      one of the two is seen and does not keep the other from being granted. */
  predicate CanSettleAt<K(==)>(db: map<K, bool>, shadow: set<Entry<K>>, desired: set<Entry<K>>, k: K) {
    && (Entry(k, true) in shadow ==> Entry(k, true) in desired)
    && (Entry(k, false) in shadow ==> Entry(k, false) in desired)
    && (Entry(k, true) in desired && Entry(k, false) in desired ==>
          Entry(k, false) in shadow || (Entry(k, true) in shadow && !Has(db, k, true)))
  }

  /** The grant is there with the wrong option, and the right one is not seen. */
  predicate OptionOff<K(==)>(db: map<K, bool>, shadow: set<Entry<K>>, desired: set<Entry<K>>, k: K) {
    k in db && Entry(k, db[k]) !in desired && Entry(k, !db[k]) in desired && Entry(k, !db[k]) !in shadow
  }

  lemma MovedAt<K>(db: map<K, bool>, es: set<Entry<K>>, ks: set<K>, k: K)
    ensures var r := Revoke(Grant(db, es), ks);
            && (k in r <==> k !in ks && (k in db || Entry(k, true) in es || Entry(k, false) in es))
            && (k in r ==> r[k] == (Has(db, k, true) || Entry(k, true) in es))
  {
    InKeysOf(es, k);
  }

  lemma ShadowPassAt<K>(db: map<K, bool>, shadow: set<Entry<K>>, desired: set<Entry<K>>, k: K)
    ensures var p := ShadowPass(db, shadow, desired);
            var seen := (g: bool) => Has(db, k, g) || Entry(k, g) in shadow;
            var extra := (seen(true) && Entry(k, true) !in desired) || (seen(false) && Entry(k, false) !in desired);
            var granted := Entry(k, true) in desired && !seen(true);
            && (k in p <==> !extra && (k in db || granted || (Entry(k, false) in desired && !seen(false))))
            && (k in p ==> p[k] == (Has(db, k, true) || granted))
  {
    var missing, extra := desired - (Entries(db) + shadow), (Entries(db) + shadow) - desired;
    HasIff(db, k, true);
    HasIff(db, k, false);
    InKeysOf(missing, k);
    InKeysOf(extra, k);
  }

  lemma PassesAt<K>(db: map<K, bool>, shadow: set<Entry<K>>, desired: set<Entry<K>>, k: K)
    ensures var once := ShadowPass(db, shadow, desired);
            var twice := ShadowPass(once, shadow, desired);
            && (SettledAt(twice, shadow, desired, k) <==> CanSettleAt(db, shadow, desired, k))
            && (CanSettleAt(once, shadow, desired, k) <==> CanSettleAt(db, shadow, desired, k))
            && (SettledAt(once, shadow, desired, k) <==>
               CanSettleAt(db, shadow, desired, k) && !OptionOff(db, shadow, desired, k))
            && (SettledAt(db, shadow, desired, k) ==>
               CanSettleAt(db, shadow, desired, k) && !OptionOff(db, shadow, desired, k))
  {
    hide ShadowPass;
    var once := ShadowPass(db, shadow, desired);
    ShadowPassAt(db, shadow, desired, k);
    ShadowPassAt(once, shadow, desired, k);
  }

  ghost predicate Settled<K(!new)>(db: map<K, bool>, shadow: set<Entry<K>>, desired: set<Entry<K>>) {
    Entries(db) + shadow == desired
  }

  ghost predicate CanSettle<K(!new)>(db: map<K, bool>, shadow: set<Entry<K>>, desired: set<Entry<K>>) {
    forall k :: CanSettleAt(db, shadow, desired, k)
  }

  lemma SettledIff<K(!new)>(db: map<K, bool>, shadow: set<Entry<K>>, desired: set<Entry<K>>)
    ensures Settled(db, shadow, desired) <==> forall k :: SettledAt(db, shadow, desired, k)
  {
    forall k, g
      ensures Entry(k, g) in Entries(db) <==> Has(db, k, g)
    {
      HasIff(db, k, g);
    }
    if forall k :: SettledAt(db, shadow, desired, k) {
      forall k, g
        ensures Entry(k, g) in Entries(db) + shadow <==> Entry(k, g) in desired
      {
        assert SettledAt(db, shadow, desired, k);
      }
      SameEntries(Entries(db) + shadow, desired);
    }
    if Settled(db, shadow, desired) {
      forall k
        ensures SettledAt(db, shadow, desired, k)
      {
        assert Has(db, k, true) <==> Entry(k, true) in Entries(db);
        assert Has(db, k, false) <==> Entry(k, false) in Entries(db);
      }
    }
  }

  /** From every catalogue two passes settle exactly what passes can settle; one pass does so exactly when moreover no
      grant is there with the wrong option only; and what is settled was settleable. */
  lemma ShadowPasses<K(!new)>(db: map<K, bool>, shadow: set<Entry<K>>, desired: set<Entry<K>>)
    ensures var once := ShadowPass(db, shadow, desired);
            var twice := ShadowPass(once, shadow, desired);
            && (Settled(twice, shadow, desired) <==> CanSettle(db, shadow, desired))
            && (CanSettle(once, shadow, desired) <==> CanSettle(db, shadow, desired))
            && (Settled(once, shadow, desired) <==>
               CanSettle(db, shadow, desired) && forall k :: !OptionOff(db, shadow, desired, k))
            && (Settled(db, shadow, desired) ==>
               CanSettle(db, shadow, desired) && forall k :: !OptionOff(db, shadow, desired, k))
  {
    hide ShadowPass, SettledAt, CanSettleAt, OptionOff, Settled;
    var once := ShadowPass(db, shadow, desired);
    var twice := ShadowPass(once, shadow, desired);
    SettledIff(db, shadow, desired);
    SettledIff(once, shadow, desired);
    SettledIff(twice, shadow, desired);
    forall k
      ensures SettledAt(twice, shadow, desired, k) <==> CanSettleAt(db, shadow, desired, k)
      ensures CanSettleAt(once, shadow, desired, k) <==> CanSettleAt(db, shadow, desired, k)
      ensures SettledAt(once, shadow, desired, k) <==>
              CanSettleAt(db, shadow, desired, k) && !OptionOff(db, shadow, desired, k)
      ensures SettledAt(db, shadow, desired, k) ==>
              CanSettleAt(db, shadow, desired, k) && !OptionOff(db, shadow, desired, k)
    {
      PassesAt(db, shadow, desired, k);
    }
  }

  /** What is settled is left alone. */
  lemma SettledStays<K(!new)>(db: map<K, bool>, shadow: set<Entry<K>>, desired: set<Entry<K>>)
    requires Settled(db, shadow, desired)
    ensures ShadowPass(db, shadow, desired) == db
  {
    var none: set<Entry<K>> := {};
    assert desired - (Entries(db) + shadow) == none && (Entries(db) + shadow) - desired == none;
    assert KeysOf(none) == {};
    assert Grant(db, none) == db;
  }

  /** Without anything else to be seen, a pass is a plain pass, and a list can be settled exactly when it is
      consistent. */
  lemma NoShadow<K(!new)>(db: map<K, bool>, desired: set<Entry<K>>)
    ensures ShadowPass(db, {}, desired) == Pass(db, desired)
    ensures CanSettle(db, {}, desired) <==> Consistent(desired)
  {
    assert Entries(db) + {} == Entries(db);
    if Consistent(desired) {
      forall k
        ensures CanSettleAt(db, {}, desired, k)
      {}
    }
    if CanSettle(db, {}, desired) {
      forall k
        ensures !(Entry(k, true) in desired && Entry(k, false) in desired)
      {
        assert CanSettleAt(db, {}, desired, k);
      }
    }
  }

  // ---------------------------------------------------------------- passes that revoke only what is given up

  /** One pass of the lax policy: what is desired and not seen is granted, and only what was given up is revoked. */
  function LaxPass<K>(db: map<K, bool>, shadow: set<Entry<K>>, desired: set<Entry<K>>, dropped: set<K>): map<K, bool> {
    Revoke(Grant(db, desired - (Entries(db) + shadow)), dropped)
  }

  /** The grant is desired without its option and cannot come to be seen so: it is desired with the option as well, or
      there with it and not given up. */
  predicate StuckAt<K(==)>(db: map<K, bool>, shadow: set<Entry<K>>, desired: set<Entry<K>>, dropped: set<K>, k: K) {
    && Entry(k, false) in desired && Entry(k, false) !in shadow
    && ((Entry(k, true) in desired && Entry(k, true) !in shadow) || (Has(db, k, true) && k !in dropped))
  }

  predicate ReachedAt<K(==)>(db: map<K, bool>, shadow: set<Entry<K>>, desired: set<Entry<K>>, k: K) {
    && (Entry(k, true) in desired ==> Has(db, k, true) || Entry(k, true) in shadow)
    && (Entry(k, false) in desired ==> Has(db, k, false) || Entry(k, false) in shadow)
  }

  lemma LaxPassAt<K>(db: map<K, bool>, shadow: set<Entry<K>>, desired: set<Entry<K>>, dropped: set<K>, k: K)
    ensures var p := LaxPass(db, shadow, desired, dropped);
            var granted := (g: bool) => Entry(k, g) in desired && !Has(db, k, g) && Entry(k, g) !in shadow;
            && (k in p <==> k !in dropped && (k in db || granted(true) || granted(false)))
            && (k in p ==> p[k] == (Has(db, k, true) || granted(true)))
  {
    hide Grant, Revoke;
    HasIff(db, k, true);
    HasIff(db, k, false);
    MovedAt(db, desired - (Entries(db) + shadow), dropped, k);
  }

  lemma LaxPassesAt<K>(db: map<K, bool>, shadow: set<Entry<K>>, desired: set<Entry<K>>, dropped: set<K>, k: K)
    ensures var once := LaxPass(db, shadow, desired, dropped);
            var twice := LaxPass(once, shadow, desired, {});
            && (ReachedAt(twice, shadow, desired, k) <==> !StuckAt(db, shadow, desired, dropped, k))
            && (StuckAt(once, shadow, desired, {}, k) <==> StuckAt(db, shadow, desired, dropped, k))
  {
    hide LaxPass;
    var once := LaxPass(db, shadow, desired, dropped);
    LaxPassAt(db, shadow, desired, dropped, k);
    LaxPassAt(once, shadow, desired, {}, k);
  }

  lemma ReachedIff<K(!new)>(db: map<K, bool>, shadow: set<Entry<K>>, desired: set<Entry<K>>)
    ensures desired <= Entries(db) + shadow <==> forall k :: ReachedAt(db, shadow, desired, k)
  {
    forall k, g
      ensures Entry(k, g) in Entries(db) <==> Has(db, k, g)
    {
      HasIff(db, k, g);
    }
    if desired <= Entries(db) + shadow {
      forall k
        ensures ReachedAt(db, shadow, desired, k)
      {
        assert Has(db, k, true) <==> Entry(k, true) in Entries(db);
        assert Has(db, k, false) <==> Entry(k, false) in Entries(db);
      }
    }
    if forall k :: ReachedAt(db, shadow, desired, k) {
      forall e | e in desired
        ensures e in Entries(db) + shadow
      {
        assert ReachedAt(db, shadow, desired, e.key);
        assert e == Entry(e.key, e.option);
        assert Has(db, e.key, e.option) <==> Entry(e.key, e.option) in Entries(db);
      }
    }
  }

  /** From every catalogue two passes of the lax policy reach all that is desired exactly when nothing is stuck, and
      nothing becomes or ceases to be stuck on the way. */
  lemma LaxPasses<K(!new)>(db: map<K, bool>, shadow: set<Entry<K>>, desired: set<Entry<K>>, dropped: set<K>)
    ensures var once := LaxPass(db, shadow, desired, dropped);
            var twice := LaxPass(once, shadow, desired, {});
            && (desired <= Entries(twice) + shadow <==> forall k :: !StuckAt(db, shadow, desired, dropped, k))
            && ((forall k :: !StuckAt(once, shadow, desired, {}, k)) <==>
               forall k :: !StuckAt(db, shadow, desired, dropped, k))
  {
    hide LaxPass, ReachedAt, StuckAt, Entries;
    var once := LaxPass(db, shadow, desired, dropped);
    var twice := LaxPass(once, shadow, desired, {});
    ReachedIff(twice, shadow, desired);
    forall k
      ensures ReachedAt(twice, shadow, desired, k) <==> !StuckAt(db, shadow, desired, dropped, k)
      ensures StuckAt(once, shadow, desired, {}, k) <==> StuckAt(db, shadow, desired, dropped, k)
    {
      LaxPassesAt(db, shadow, desired, dropped, k);
    }
  }
}
