/** groupPrivilegesByTypeAndIdentifier: many privileges become few statements, and the statements mean the same.
    The group key joins schema and object with a dot and the statement is built after splitting it again. */
module Grouping {
  import opened Strings
  import opened Privileges
  import opened Grammar
  import opened RoundTrip
  import opened Language
  import opened SetDiff

  datatype GroupKey = GroupKey(kind: Kind, identifier: string, isGrantable: bool)

  datatype Group = Group(body: string, isGrantable: bool, kind: Kind)

  function KeyOf(p: Privilege): GroupKey {
    GroupKey(p.kind,
             if p.kind == Object && p.subIdentifier != "" then p.identifier + "." + p.subIdentifier else p.identifier,
             p.isGrantable)
  }

  /** strings.SplitN(s, ".", 2) of a text with a dot. */
  function SplitDot(s: string): (r: (string, string))
    requires '.' in s
    ensures s == r.0 + "." + r.1 && '.' !in r.0
  {
    if s[0] == '.' then
      assert s == "" + "." + s[1..];
      ("", s[1..])
    else
      var r := SplitDot(s[1..]);
      assert s == [s[0]] + s[1..];
      ([s[0]] + r.0, r.1)
  }

  /** The record the statement of a group is printed from. */
  function GroupTarget(key: GroupKey, names: seq<string>): Privilege {
    if key.kind == Object && '.' in key.identifier then
      var parts := SplitDot(key.identifier);
      Privilege(key.kind, Join(names, ", "), parts.0, parts.1, false)
    else
      Privilege(key.kind, Join(names, ", "), key.identifier, "", false)
  }

  function GroupOf(key: GroupKey, names: seq<string>): Group {
    Group(BaseString(GroupTarget(key, names)), key.isGrantable, key.kind)
  }

  /** The names collected under a key, in order. */
  function NamesFor(ps: seq<Privilege>, key: GroupKey): seq<string> {
    if ps == [] then []
    else NamesFor(ps[..|ps| - 1], key) + (if KeyOf(ps[|ps| - 1]) == key then [ps[|ps| - 1].name] else [])
  }

  function KeySet(ps: seq<Privilege>): set<GroupKey> {
    if ps == [] then {} else KeySet(ps[..|ps| - 1]) + {KeyOf(ps[|ps| - 1])}
  }

  /** One group per key, in some order. */
  ghost predicate IsGrouping(ps: seq<Privilege>, keys: seq<GroupKey>, groups: seq<Group>) {
    && NoDuplicates(keys) && Elems(keys) == KeySet(ps)
    && |groups| == |keys|
    && forall i | 0 <= i < |keys| :: groups[i] == GroupOf(keys[i], NamesFor(ps, keys[i]))
  }

  lemma Collect(ps: seq<Privilege>, i: nat, key: GroupKey)
    requires i < |ps|
    ensures KeySet(ps[..i + 1]) == KeySet(ps[..i]) + {KeyOf(ps[i])}
    ensures NamesFor(ps[..i + 1], key) == NamesFor(ps[..i], key) + (if KeyOf(ps[i]) == key then [ps[i].name] else [])
  {
    assert ps[..i + 1][..i] == ps[..i];
  }

  lemma {:induction false} NoNames(ps: seq<Privilege>, key: GroupKey)
    requires key !in KeySet(ps)
    ensures NamesFor(ps, key) == []
  {
    if ps != [] {
      NoNames(ps[..|ps| - 1], key);
    }
  }

  /** The first loop of groupPrivilegesByTypeAndIdentifier. */
  method CollectNames(ps: seq<Privilege>) returns (groupsMap: map<GroupKey, seq<string>>)
    ensures groupsMap.Keys == KeySet(ps)
    ensures forall key | key in groupsMap :: groupsMap[key] == NamesFor(ps, key)
  {
    hide KeyOf, KeySet, NamesFor;
    groupsMap := map[];
    assert KeySet(ps[..0]) == {} by { NothingCollected(); assert ps[..0] == []; }
    for i := 0 to |ps|
      invariant groupsMap.Keys == KeySet(ps[..i])
      invariant forall key | key in groupsMap :: groupsMap[key] == NamesFor(ps[..i], key)
    {
      var key := KeyOf(ps[i]);
      if key !in groupsMap {
        NoNames(ps[..i], key);
      }
      forall k
        ensures NamesFor(ps[..i + 1], k) == NamesFor(ps[..i], k) + (if key == k then [ps[i].name] else [])
      {
        Collect(ps, i, k);
      }
      Collect(ps, i, key);
      groupsMap := groupsMap[key := (if key in groupsMap then groupsMap[key] else []) + [ps[i].name]];
    }
    assert ps[..|ps|] == ps;
  }

  lemma NothingCollected()
    ensures KeySet([]) == {}
  {}

  /** groupPrivilegesByTypeAndIdentifier; its second loop takes the keys in any order. */
  method GroupPrivileges(ps: seq<Privilege>) returns (groups: seq<Group>, ghost keys: seq<GroupKey>)
    ensures IsGrouping(ps, keys, groups)
  {
    hide KeySet, NamesFor, GroupOf;
    var groupsMap := CollectNames(ps);
    groups, keys := [], [];
    var rest := groupsMap.Keys;
    while rest != {}
      invariant rest <= groupsMap.Keys && Elems(keys) == groupsMap.Keys - rest
      invariant NoDuplicates(keys) && |groups| == |keys|
      invariant forall i | 0 <= i < |keys| :: groups[i] == GroupOf(keys[i], NamesFor(ps, keys[i]))
      decreases |rest|
    {
      var key :| key in rest;
      assert Elems(keys + [key]) == Elems(keys) + {key};
      groups := groups + [GroupOf(key, groupsMap[key])];
      keys := keys + [key];
      rest := rest - {key};
    }
  }

  lemma {:induction false} KeyIn(ps: seq<Privilege>, p: Privilege)
    requires p in ps
    ensures KeyOf(p) in KeySet(ps) && p.name in NamesFor(ps, KeyOf(p))
  {
    hide KeyOf;
    var n := |ps| - 1;
    if p != ps[n] {
      assert p in ps[..n];
      KeyIn(ps[..n], p);
    }
  }

  lemma {:induction false} KeyFrom(ps: seq<Privilege>, key: GroupKey) returns (p: Privilege)
    requires key in KeySet(ps)
    ensures p in ps && KeyOf(p) == key
  {
    hide KeyOf;
    var n := |ps| - 1;
    if KeyOf(ps[n]) == key {
      p := ps[n];
    } else {
      p := KeyFrom(ps[..n], key);
    }
  }

  lemma {:induction false} NameFrom(ps: seq<Privilege>, key: GroupKey, name: string) returns (p: Privilege)
    requires name in NamesFor(ps, key)
    ensures p in ps && KeyOf(p) == key && p.name == name
  {
    hide KeyOf;
    var n := |ps| - 1;
    if name in NamesFor(ps[..n], key) {
      p := NameFrom(ps[..n], key, name);
    } else {
      p := ps[n];
    }
  }

  // ---------------------------------------------------------------- the key

  /** The privilege that the statement for `p` names: its key, split again. */
  function Sent(p: Privilege): Privilege {
    GroupTarget(KeyOf(p), [p.name])
  }

  /** Neither a schema name nor a special name with a dot. */
  predicate Direct(p: Privilege) {
    !(p.kind == Object && '.' in p.identifier)
  }

  /** Splitting the joined key gives the object back exactly when its schema, or its whole special name, has no dot. */
  lemma KeyFaithfulIff(p: Privilege)
    requires p.subIdentifier == "" || p.kind == Object
    ensures Sent(p) == p.(isGrantable := false) <==> Direct(p)
  {
    if p.kind == Object && '.' in KeyOf(p).identifier {
      var parts := SplitDot(KeyOf(p).identifier);
      if p.subIdentifier != "" && '.' !in p.identifier {
        FirstDot(parts.0, parts.1, p.identifier, p.subIdentifier);
      }
    }
  }

  lemma FirstDot(a: string, b: string, c: string, d: string)
    requires a + "." + b == c + "." + d && '.' !in a && '.' !in c
    ensures a == c && b == d
  {
    var t := a + "." + b;
    assert t[|a|] == '.' && t[|c|] == '.';
    assert forall i | 0 <= i < |a| :: t[i] == a[i];
    assert forall i | 0 <= i < |c| :: t[i] == c[i];
    assert |a| == |c|;
    assert a == t[..|a|] && c == t[..|c|];
    assert b == t[|a| + 1..] && d == t[|c| + 1..];
  }

  /** With a dot in the schema name, the statement names another object: what is executed for the privilege on
      object `sub` of schema `a.b` is a privilege on object `b.sub` of schema `a`. */
  lemma DottedSchemaGoesElsewhere(p: Privilege, d: string)
    requires p.kind == Object && p.subIdentifier != "" && '.' in p.identifier && NameShape(p.name)
    ensures var t := GroupTarget(KeyOf(p), [p.name]);
            && GroupOf(KeyOf(p), [p.name]).body == BaseString(t) != BaseString(p)
            && Canonical(t, d)
  {
    hide NameShape, BaseString;
    var t := GroupTarget(KeyOf(p), [p.name]);
    var id := KeyOf(p).identifier;
    var i :| 0 <= i < |p.identifier| && p.identifier[i] == '.';
    assert id[i] == '.';
    var parts := SplitDot(id);
    assert t == Privilege(Object, p.name, parts.0, parts.1, false);
    assert |parts.0| + 1 + |parts.1| == |p.identifier| + 1 + |p.subIdentifier|;
    assert forall j | 0 <= j < |parts.0| :: parts.0[j] == id[j];
    assert |parts.0| <= i;
    var q := p.(isGrantable := false);
    assert ToText(t) == BaseString(t) && ToText(q) == BaseString(q) by {
      assert BaseString(t) + "" == BaseString(t) && BaseString(q) + "" == BaseString(q);
    }
    assert BaseString(q) == BaseString(p) by { SameBase(p, q); }
    if BaseString(t) == BaseString(p) {
      TextInjective(t, q, d);
    }
  }

  lemma SameBase(p: Privilege, q: Privilege)
    requires q == p.(isGrantable := q.isGrantable)
    ensures BaseString(q) == BaseString(p)
  {}
}
