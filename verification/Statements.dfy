/** The meaning of a grouped GRANT or REVOKE: a list of privilege names, then the target they all apply to. */
module Statements {
  import opened Strings
  import opened Quoting
  import opened Privileges
  import opened Grammar
  import opened RoundTrip
  import opened Grants
  import opened SetDiff
  import opened Grouping

  // ---------------------------------------------------------------- reading a statement body

  /** The word ON between spaces, in any case. */
  predicate OnAt(s: string, i: int) {
    0 <= i && i + 4 <= |s| && s[i] == ' ' && UpperChar(s[i + 1]) == 'O' && UpperChar(s[i + 2]) == 'N' && s[i + 3] == ' '
  }

  /** Where the target starts: at the first ON, or at the end. */
  function OnIndex(s: string): (k: nat)
    ensures k <= |s|
  {
    if s == "" || OnAt(s, 0) then 0 else 1 + OnIndex(s[1..])
  }

  /** The parts of a list separated by comma and space. */
  function SplitList(t: string): (r: seq<string>)
    ensures r != []
  {
    if t == "" then [""]
    else if ", " <= t then [""] + SplitList(t[2..])
    else
      var r := SplitList(t[1..]);
      [[t[0]] + r[0]] + r[1..]
  }

  /** The single-privilege texts a body stands for: every name of its list with the common target. */
  function Reading(body: string): set<string> {
    var k := OnIndex(body);
    set n | n in SplitList(body[..k]) :: n + body[k..]
  }

  /** A name that can stand in a list: no comma, and no word ON, not even at its ends. */
  predicate PlainName(n: string) {
    n != "" && ',' !in n && forall i | 0 <= i < |n| :: !OnAt(" " + n + " ", i)
  }

  lemma {:induction false} OnIndexIs(s: string, k: nat)
    requires k <= |s| && (k == |s| || OnAt(s, k))
    requires forall i | 0 <= i < k :: !OnAt(s, i)
    ensures OnIndex(s) == k
    decreases k
  {
    if k > 0 {
      forall i | 0 <= i < k - 1
        ensures !OnAt(s[1..], i)
      {
        assert !OnAt(s, i + 1);
      }
      assert k == |s| || OnAt(s[1..], k - 1);
      assert !OnAt(s, 0);
      OnIndexIs(s[1..], k - 1);
    }
  }

  lemma {:induction false} SplitOne(t: string)
    requires forall i | 0 <= i < |t| - 1 :: !(t[i] == ',' && t[i + 1] == ' ')
    ensures SplitList(t) == [t]
    decreases |t|
  {
    if t != "" {
      SplitOne(t[1..]);
      assert t == [t[0]] + t[1..];
    }
  }

  lemma {:induction false} SplitFirst(n: string, rest: string)
    requires ',' !in n
    ensures SplitList(n + ", " + rest) == [n] + SplitList(rest)
    decreases |n|
  {
    var t := n + ", " + rest;
    if n == "" {
      assert t[2..] == rest;
    } else {
      assert t[1..] == n[1..] + ", " + rest;
      SplitFirst(n[1..], rest);
      assert n == [n[0]] + n[1..];
    }
  }

  lemma {:induction false} SplitJoin(names: seq<string>)
    requires names != [] && forall n | n in names :: ',' !in n
    ensures SplitList(Join(names, ", ")) == names
    decreases |names|
  {
    assert names[0] in names;
    if |names| == 1 {
      SplitOne(names[0]);
      assert names == [names[0]];
    } else {
      SplitFirst(names[0], Join(names[1..], ", "));
      SplitJoin(names[1..]);
      assert names == [names[0]] + names[1..];
    }
  }

  /** No ON in the list itself, nor where it meets the target. */
  lemma {:induction false} JoinHasNoOn(names: seq<string>, i: int)
    requires names != [] && forall n | n in names :: PlainName(n)
    requires 0 <= i < |Join(names, ", ")|
    ensures !OnAt(" " + Join(names, ", ") + " ", i)
    decreases |names|
  {
    if |names| == 1 {
      assert names[0] in names;
    } else {
      var n, rest := names[0], Join(names[1..], ", ");
      assert n in names;
      var s := " " + (n + ", " + rest) + " ";
      if i < |n| {
        var t := " " + n + " ";
        assert !OnAt(t, i);
        assert forall j | 0 <= j <= |n| :: s[j] == t[j];
        assert s[|n| + 1] == ',';
      } else if i >= |n| + 2 {
        var t := " " + rest + " ";
        assert s == " " + n + "," + t;
        assert forall j | 0 <= j < |t| :: s[j + |n| + 2] == t[j];
        JoinHasNoOn(names[1..], i - |n| - 2);
      } else {
        assert s[|n| + 1] == ',';
      }
    }
  }

  /** A list of plain names followed by a target stands for each name with that target. */
  lemma ReadNames(names: seq<string>, target: string)
    requires names != [] && forall n | n in names :: PlainName(n)
    requires target == "" || OnAt(target, 0)
    ensures Reading(Join(names, ", ") + target) == set n | n in names :: n + target
  {
    hide PlainName;
    var j := Join(names, ", ");
    var body := j + target;
    forall i | 0 <= i < |j|
      ensures !OnAt(body, i)
    {
      ListThenTarget(names, target, i);
    }
    assert target != "" ==> OnAt(body, |j|);
    OnIndexIs(body, |j|);
    assert body[..|j|] == j && body[|j|..] == target;
    NoCommas(names);
    SplitJoin(names);
  }

  lemma NoCommas(names: seq<string>)
    requires forall n | n in names :: PlainName(n)
    ensures forall n | n in names :: ',' !in n
  {}

  lemma ListThenTarget(names: seq<string>, target: string, i: int)
    requires names != [] && forall n | n in names :: PlainName(n)
    requires target == "" || OnAt(target, 0)
    requires 0 <= i < |Join(names, ", ")|
    ensures !OnAt(Join(names, ", ") + target, i)
  {
    hide PlainName;
    var j := Join(names, ", ");
    var body, padded := j + target, " " + j + " ";
    if i + 1 < |j| {
      JoinHasNoOn(names, i + 1);
    }
    assert forall m | 0 <= m < |j| :: body[m] == j[m] == padded[m + 1];
    assert padded[|j| + 1] == ' ' && (target != "" ==> body[|j|] == ' ');
  }

  // ---------------------------------------------------------------- what a group stands for

  /** A privilege without its option. */
  function BaseOf(p: Privilege): Privilege {
    p.(isGrantable := false)
  }

  /** A privilege that can stand in a list: names without comma and ON, and one word for a structured privilege. */
  predicate Listable(p: Privilege) {
    match p.kind
    case UserGroup => true
    case Structured => p.name == "STRUCTURED PRIVILEGE" && p.identifier != "" && NoSpace(p.identifier)
    case _ => PlainName(p.name)
  }

  /** Privileges whose statements are executed for themselves: they can stand in a list, their text is canonical and
      their key can be split again. */
  ghost predicate Groupable(p: Privilege) {
    Listable(p) && Canonical(BaseOf(p), "") && Direct(p)
  }

  /** A structured privilege occurs once: two equal ones would be printed with two names before one identifier. */
  ghost predicate StructuredOnce(ps: seq<Privilege>) {
    forall i, j | 0 <= i < j < |ps| && ps[i].kind == Structured :: KeyOf(ps[i]) != KeyOf(ps[j])
  }

  ghost predicate AllListable(ps: seq<Privilege>) {
    StructuredOnce(ps) && forall p | p in ps :: Listable(p)
  }

  ghost predicate AllGroupable(ps: seq<Privilege>) {
    StructuredOnce(ps) && forall p | p in ps :: Groupable(p)
  }

  lemma GroupableListable(ps: seq<Privilege>)
    requires AllGroupable(ps)
    ensures AllListable(ps)
  {
    hide Listable, Canonical;
    forall p | p in ps
      ensures Listable(p)
    {
      assert Groupable(p);
    }
  }

  lemma BaseStringIs(p: Privilege)
    ensures ToText(BaseOf(p)) == BaseString(p)
  {
    assert BaseString(BaseOf(p)) == BaseString(p) by { SameBase(p, BaseOf(p)); }
    assert BaseString(p) + "" == BaseString(p);
  }

  /** All privileges of a group are sent with the same target. */
  lemma TargetOfGroup(p: Privilege, names: seq<string>)
    ensures Target(GroupTarget(KeyOf(p), names)) == Target(Sent(p))
  {
    hide Quoted;
    assert GroupTarget(KeyOf(p), names) == Sent(p).(name := Join(names, ", "));
  }

  lemma SentName(p: Privilege)
    ensures Sent(p).name == p.name && Sent(p).kind == p.kind && !Sent(p).isGrantable
  {}

  lemma TargetStarts(p: Privilege)
    requires p.kind != Structured
    ensures Target(p) == "" || OnAt(Target(p), 0)
  {
    hide Quoted;
    if p.kind == Object && p.subIdentifier == "" && SpecialPrefix(p.identifier).Some? {
      var k := SpecialPrefix(p.identifier).value;
      assert Target(p) == " ON " + k + p.identifier[|k|..];
    }
  }

  lemma ListGroup(ps: seq<Privilege>, key: GroupKey)
    requires forall p | p in ps :: Listable(p)
    requires key in KeySet(ps) && key.kind != UserGroup && key.kind != Structured
    ensures Reading(GroupOf(key, NamesFor(ps, key)).body) == set p | p in ps && KeyOf(p) == key :: BaseString(Sent(p))
  {
    hide Listable, Reading, KeyOf, KeySet, NamesFor, Target, GroupTarget, Join, Sent;
    var names := NamesFor(ps, key);
    var q := KeyFrom(ps, key);
    KeyIn(ps, q);
    GroupKindIs(key, names);
    TargetOfGroup(q, names);
    KindOfKey(q);
    SentName(q);
    TargetStarts(Sent(q));
    var target := Target(Sent(q));
    forall n | n in names
      ensures PlainName(n)
    {
      var p := NameFrom(ps, key, n);
      PlainOf(p);
      KindOfKey(p);
    }
    ReadNames(names, target);
    forall p | p in ps && KeyOf(p) == key
      ensures p.name in names && BaseString(Sent(p)) == p.name + target
    {
      KeyIn(ps, p);
      TargetOfGroup(p, names);
      KindOfKey(p);
      SentName(p);
    }
    forall n | n in names
      ensures exists p :: p in ps && KeyOf(p) == key && BaseString(Sent(p)) == n + target
    {
      var p := NameFrom(ps, key, n);
      TargetOfGroup(p, names);
      KindOfKey(p);
      SentName(p);
    }
  }

  lemma KindOfKey(p: Privilege)
    ensures KeyOf(p).kind == p.kind && KeyOf(p).isGrantable == p.isGrantable
  {}

  lemma PlainOf(p: Privilege)
    requires Listable(p)
    ensures p.kind != UserGroup && p.kind != Structured ==> PlainName(p.name)
  {}

  lemma GroupKindIs(key: GroupKey, names: seq<string>)
    ensures GroupTarget(key, names).kind == key.kind && GroupTarget(key, names).name == Join(names, ", ")
    ensures !GroupTarget(key, names).isGrantable
  {}

  lemma UserGroupReads(x: string)
    ensures Reading("USERGROUP OPERATOR" + (" ON USERGROUP " + x)) == {"USERGROUP OPERATOR" + (" ON USERGROUP " + x)}
  {
    hide Reading;
    var n, target := "USERGROUP OPERATOR", " ON USERGROUP " + x;
    assert PlainName(n);
    assert Join([n], ", ") == n;
    ReadNames([n], target);
  }

  lemma UserGroupGroup(ps: seq<Privilege>, key: GroupKey)
    requires key in KeySet(ps) && key.kind == UserGroup
    ensures Reading(GroupOf(key, NamesFor(ps, key)).body) == set p | p in ps && KeyOf(p) == key :: BaseString(Sent(p))
  {
    hide Reading, KeySet, NamesFor, Quoted, Join;
    var q := KeyFrom(ps, key);
    UserGroupReads(Quoted(key.identifier));
    forall p | p in ps && KeyOf(p) == key
      ensures BaseString(Sent(p)) == "USERGROUP OPERATOR" + (" ON USERGROUP " + Quoted(key.identifier))
    {}
  }

  lemma {:induction false} OnceInGroup(ps: seq<Privilege>, p: Privilege)
    requires StructuredOnce(ps) && p in ps && p.kind == Structured
    ensures NamesFor(ps, KeyOf(p)) == [p.name]
    ensures forall q | q in ps && KeyOf(q) == KeyOf(p) :: q == p
    decreases |ps|
  {
    hide KeyOf;
    var n := |ps| - 1;
    var init := ps[..n];
    assert ps == init + [ps[n]];
    if ps[n] == p {
      forall q | q in init
        ensures KeyOf(q) != KeyOf(p)
      {
        var i :| 0 <= i < n && init[i] == q;
        assert ps[i] == q;
        KindOfKey(q);
        KindOfKey(p);
      }
      if KeyOf(p) in KeySet(init) {
        var q := KeyFrom(init, KeyOf(p));
        assert false;
      }
      NoNames(init, KeyOf(p));
    } else {
      assert p in init;
      var i :| 0 <= i < n && init[i] == p;
      assert ps[i] == p;
      assert KeyOf(ps[n]) != KeyOf(p);
      OnceInGroup(init, p);
    }
  }

  lemma StructuredReads(x: string)
    requires NoSpace(x) && x != ""
    ensures Reading("STRUCTURED PRIVILEGE" + (" " + x)) == {"STRUCTURED PRIVILEGE" + (" " + x)}
  {
    var s := "STRUCTURED PRIVILEGE" + (" " + x);
    assert forall i | 21 <= i < |s| :: s[i] == x[i - 21];
    OnIndexIs(s, |s|);
    SplitOne(s);
    assert s[..|s|] == s && s[|s|..] == "" && s + "" == s;
  }

  lemma StructuredGroup(ps: seq<Privilege>, key: GroupKey)
    requires AllListable(ps)
    requires key in KeySet(ps) && key.kind == Structured
    ensures Reading(GroupOf(key, NamesFor(ps, key)).body) == set p | p in ps && KeyOf(p) == key :: BaseString(Sent(p))
  {
    hide Reading, KeySet, NamesFor, PlainName;
    var q := KeyFrom(ps, key);
    OnceInGroup(ps, q);
    assert Listable(q);
    assert Join([q.name], ", ") == q.name;
    StructuredReads(q.identifier);
  }

  /** The statement of a group stands for the texts of exactly the privileges under its key, with the key split
      again. */
  lemma GroupReads(ps: seq<Privilege>, key: GroupKey)
    requires AllListable(ps) && key in KeySet(ps)
    ensures Reading(GroupOf(key, NamesFor(ps, key)).body) == set p | p in ps && KeyOf(p) == key :: BaseString(Sent(p))
  {
    hide Listable, Reading, GroupOf, NamesFor, KeySet, KeyOf, BaseString, Sent;
    match key.kind
    case UserGroup => UserGroupGroup(ps, key);
    case Structured => StructuredGroup(ps, key);
    case _ => ListGroup(ps, key);
  }

  // ---------------------------------------------------------------- effect on the catalogue

  /** The grants a statement body names: each of its texts, read as a privilege. */
  function Denoted(body: string): set<Privilege> {
    set t | t in Reading(body) && Parse(t, "").Ok? :: Parse(t, "").value
  }

  function GrantOf(g: Group): Statement<Privilege> {
    GrantTo(Denoted(g.body), g.isGrantable)
  }

  function RevokeOf(g: Group): Statement<Privilege> {
    RevokeFrom(Denoted(g.body))
  }

  function GrantsOf(gs: seq<Group>): (r: seq<Statement<Privilege>>)
    ensures |r| == |gs| && forall i | 0 <= i < |gs| :: r[i] == GrantOf(gs[i])
  {
    seq(|gs|, i requires 0 <= i < |gs| => GrantOf(gs[i]))
  }

  function RevokesOf(gs: seq<Group>): (r: seq<Statement<Privilege>>)
    ensures |r| == |gs| && forall i | 0 <= i < |gs| :: r[i] == RevokeOf(gs[i])
  {
    seq(|gs|, i requires 0 <= i < |gs| => RevokeOf(gs[i]))
  }

  function EntryOf(p: Privilege): Entry<Privilege> {
    Entry(BaseOf(p), p.isGrantable)
  }

  function EntriesOf(ps: seq<Privilege>): set<Entry<Privilege>> {
    set p | p in ps :: EntryOf(p)
  }

  function BasesOf(ps: seq<Privilege>): set<Privilege> {
    set p | p in ps :: BaseOf(p)
  }

  /** What the statement of a privilege acts on: its text with the key split again, as the database reads it. */
  function Reach(p: Privilege): Option<Privilege> {
    match Parse(BaseString(Sent(p)), "")
    case Ok(k) => Some(k)
    case Err(_) => None
  }

  function SentEntries(ps: seq<Privilege>): set<Entry<Privilege>> {
    set p | p in ps && Reach(p).Some? :: Entry(Reach(p).value, p.isGrantable)
  }

  function SentBases(ps: seq<Privilege>): set<Privilege> {
    set p | p in ps && Reach(p).Some? :: Reach(p).value
  }

  lemma GroupDenotes(ps: seq<Privilege>, key: GroupKey)
    requires AllListable(ps) && key in KeySet(ps)
    ensures Denoted(GroupOf(key, NamesFor(ps, key)).body) ==
            set p | p in ps && KeyOf(p) == key && Reach(p).Some? :: Reach(p).value
  {
    hide Listable, Reading, GroupOf, NamesFor, KeySet, KeyOf, BaseString, Parse, Sent;
    GroupReads(ps, key);
  }

  lemma SentSelf(p: Privilege)
    requires Direct(p) && Canonical(BaseOf(p), "")
    ensures Sent(p) == BaseOf(p)
  {
    hide NameShape, Bare, Matches, HasOn, HasOption;
    KeyFaithfulIff(p);
  }

  /** The statement of a groupable privilege acts on this privilege. */
  lemma ReachSelf(p: Privilege)
    requires Direct(p) && Canonical(BaseOf(p), "")
    ensures Reach(p) == Some(BaseOf(p))
  {
    hide Parse, Canonical, BaseString, ToText, Sent, Direct;
    SentSelf(p);
    BaseStringIs(BaseOf(p));
    CanonicalParses(BaseOf(p), "");
  }

  /** With a dot in the schema or special name, and something after it, the statement acts on another object. */
  lemma ReachElsewhere(p: Privilege)
    requires !Direct(p) && NameShape(p.name) && Sent(p).subIdentifier != ""
    ensures Reach(p) == Some(Sent(p)) && Direct(Sent(p)) && Sent(p) != BaseOf(p)
  {
    hide Parse, BaseString, ToText, NameShape;
    var t := Sent(p);
    assert t == Privilege(Object, p.name, t.identifier, t.subIdentifier, false) && '.' !in t.identifier
        by { SplitAgain(p); }
    BaseStringIs(t);
    CanonicalParses(t, "");
  }

  lemma SplitAgain(p: Privilege)
    requires !Direct(p)
    ensures var t := Sent(p);
            t == Privilege(Object, p.name, t.identifier, t.subIdentifier, false) && '.' !in t.identifier
  {
    var i :| 0 <= i < |p.identifier| && p.identifier[i] == '.';
    assert KeyOf(p).identifier[i] == '.';
    assert Join([p.name], ", ") == p.name;
  }

  lemma SentAreOwn(ps: seq<Privilege>)
    requires AllGroupable(ps)
    ensures SentEntries(ps) == EntriesOf(ps) && SentBases(ps) == BasesOf(ps)
  {
    hide Reach, Canonical, Listable, Direct, BaseOf;
    forall p | p in ps
      ensures Reach(p) == Some(BaseOf(p))
    {
      assert Groupable(p);
      ReachSelf(p);
    }
  }

  lemma {:induction false} InGranted(ss: seq<Statement<Privilege>>, e: Entry<Privilege>)
    requires forall s | s in ss :: s.GrantTo?
    ensures e in Granted(ss) <==> exists i | 0 <= i < |ss| :: ss[i].option == e.option && e.key in ss[i].keys
    decreases |ss|
  {
    if ss != [] {
      InGranted(ss[1..], e);
      assert e in With(ss[0].keys, ss[0].option) <==> ss[0].option == e.option && e.key in ss[0].keys;
      if i :| 0 <= i < |ss| && ss[i].option == e.option && e.key in ss[i].keys {
        assert i > 0 ==> ss[1..][i - 1] == ss[i];
      }
      if i :| 0 <= i < |ss[1..]| && ss[1..][i].option == e.option && e.key in ss[1..][i].keys {
        assert ss[i + 1] == ss[1..][i];
      }
    }
  }

  lemma {:induction false} InRevoked(ss: seq<Statement<Privilege>>, k: Privilege)
    requires forall s | s in ss :: s.RevokeFrom?
    ensures k in Revoked(ss) <==> exists i | 0 <= i < |ss| :: k in ss[i].keys
    decreases |ss|
  {
    if ss != [] {
      assert ss[0] in ss;
      InRevoked(ss[1..], k);
      if i :| 0 <= i < |ss| && k in ss[i].keys {
        assert i > 0 ==> ss[1..][i - 1] == ss[i];
      }
      if i :| 0 <= i < |ss[1..]| && k in ss[1..][i].keys {
        assert ss[i + 1] == ss[1..][i];
      }
    }
  }

  /** The i-th statement acts on exactly what the privileges under the i-th key are sent to. */
  lemma StatementAt(ps: seq<Privilege>, keys: seq<GroupKey>, groups: seq<Group>, i: nat)
    requires AllListable(ps) && IsGrouping(ps, keys, groups) && i < |keys|
    ensures Denoted(groups[i].body) == set p | p in ps && KeyOf(p) == keys[i] && Reach(p).Some? :: Reach(p).value
    ensures groups[i].isGrantable == keys[i].isGrantable
  {
    hide Listable, NamesFor, KeySet, KeyOf, Reach, Denoted;
    assert keys[i] in Elems(keys);
    GroupDenotes(ps, keys[i]);
  }

  lemma KeyIndex(ps: seq<Privilege>, keys: seq<GroupKey>, groups: seq<Group>, p: Privilege) returns (i: nat)
    requires IsGrouping(ps, keys, groups) && p in ps
    ensures i < |keys| && keys[i] == KeyOf(p)
  {
    hide KeyOf, NamesFor, GroupOf;
    KeyIn(ps, p);
    assert KeyOf(p) in Elems(keys);
    i :| 0 <= i < |keys| && keys[i] == KeyOf(p);
  }

  /** Together the groups grant exactly what the privileges are sent to, with their options. */
  lemma GrantedTogether(ps: seq<Privilege>, keys: seq<GroupKey>, groups: seq<Group>)
    requires AllListable(ps) && IsGrouping(ps, keys, groups)
    ensures (forall s | s in GrantsOf(groups) :: s.GrantTo?) && Granted(GrantsOf(groups)) == SentEntries(ps)
  {
    hide AllListable, IsGrouping, Denoted, Granted, Reach;
    var ss := GrantsOf(groups);
    forall e
      ensures e in Granted(ss) <==> e in SentEntries(ps)
    {
      InGranted(ss, e);
      GrantedEntry(ps, keys, groups, e);
    }
  }

  lemma GrantedEntry(ps: seq<Privilege>, keys: seq<GroupKey>, groups: seq<Group>, e: Entry<Privilege>)
    requires AllListable(ps) && IsGrouping(ps, keys, groups)
    ensures e in SentEntries(ps) <==>
            exists i | 0 <= i < |groups| :: GrantsOf(groups)[i].option == e.option && e.key in GrantsOf(groups)[i].keys
  {
    hide Listable, NamesFor, KeySet, KeyOf, Reach, Denoted, AllListable;
    var ss := GrantsOf(groups);
    if i :| 0 <= i < |groups| && ss[i].option == e.option && e.key in ss[i].keys {
      StatementAt(ps, keys, groups, i);
      var p :| p in ps && KeyOf(p) == keys[i] && Reach(p).Some? && Reach(p).value == e.key;
      KindOfKey(p);
      assert Entry(Reach(p).value, p.isGrantable) == e;
    }
    if e in SentEntries(ps) {
      var p :| p in ps && Reach(p).Some? && Entry(Reach(p).value, p.isGrantable) == e;
      var i := KeyIndex(ps, keys, groups, p);
      StatementAt(ps, keys, groups, i);
      KindOfKey(p);
      assert ss[i].option == e.option && e.key in ss[i].keys;
    }
  }

  /** Together the groups revoke exactly what the privileges are sent to. */
  lemma RevokedTogether(ps: seq<Privilege>, keys: seq<GroupKey>, groups: seq<Group>)
    requires AllListable(ps) && IsGrouping(ps, keys, groups)
    ensures (forall s | s in RevokesOf(groups) :: s.RevokeFrom?) && Revoked(RevokesOf(groups)) == SentBases(ps)
  {
    hide AllListable, IsGrouping, Denoted, Revoked, Reach;
    var ss := RevokesOf(groups);
    forall k
      ensures k in Revoked(ss) <==> k in SentBases(ps)
    {
      InRevoked(ss, k);
      RevokedBase(ps, keys, groups, k);
    }
  }

  lemma RevokedBase(ps: seq<Privilege>, keys: seq<GroupKey>, groups: seq<Group>, k: Privilege)
    requires AllListable(ps) && IsGrouping(ps, keys, groups)
    ensures (exists i | 0 <= i < |groups| :: k in RevokesOf(groups)[i].keys) <==> k in SentBases(ps)
  {
    hide Listable, NamesFor, KeySet, KeyOf, Reach, Denoted, AllListable;
    var ss := RevokesOf(groups);
    if i :| 0 <= i < |groups| && k in ss[i].keys {
      StatementAt(ps, keys, groups, i);
    }
    if k in SentBases(ps) {
      var p :| p in ps && Reach(p).Some? && Reach(p).value == k;
      var i := KeyIndex(ps, keys, groups, p);
      StatementAt(ps, keys, groups, i);
      assert k in ss[i].keys;
    }
  }

  /** Grouped GRANT statements, executed in any order, have the effect of granting the privileges one by one. */
  lemma GroupedGrants(ps: seq<Privilege>, keys: seq<GroupKey>, groups: seq<Group>, db: map<Privilege, bool>)
    requires AllGroupable(ps) && IsGrouping(ps, keys, groups)
    ensures ExecAll(db, GrantsOf(groups)) == Grant(db, EntriesOf(ps))
  {
    hide Denoted, Grant, Granted, ExecAll, AllGroupable, AllListable, IsGrouping;
    GroupableListable(ps);
    SentAreOwn(ps);
    GrantedTogether(ps, keys, groups);
    GrantsJoin(db, GrantsOf(groups));
  }

  /** Grouped REVOKE statements, executed in any order, remove exactly the grants of the privileges. */
  lemma GroupedRevokes(ps: seq<Privilege>, keys: seq<GroupKey>, groups: seq<Group>, db: map<Privilege, bool>)
    requires AllGroupable(ps) && IsGrouping(ps, keys, groups)
    ensures ExecAll(db, RevokesOf(groups)) == Revoke(db, BasesOf(ps))
  {
    hide Denoted, Revoke, Revoked, ExecAll, AllGroupable, AllListable, IsGrouping;
    GroupableListable(ps);
    SentAreOwn(ps);
    RevokedTogether(ps, keys, groups);
    RevokesJoin(db, RevokesOf(groups));
  }

  /** The privileges granted one statement each, in list order. */
  function OneByOne(ps: seq<Privilege>): (r: seq<Statement<Privilege>>)
    ensures |r| == |ps| && forall i | 0 <= i < |ps| :: r[i] == GrantTo({BaseOf(ps[i])}, ps[i].isGrantable)
  {
    seq(|ps|, i requires 0 <= i < |ps| => GrantTo({BaseOf(ps[i])}, ps[i].isGrantable))
  }

  /** Grouping preserves the meaning of a list of grants, whatever the order in which the groups are executed. */
  lemma GroupingPreservesGrants(ps: seq<Privilege>, keys: seq<GroupKey>, groups: seq<Group>, db: map<Privilege, bool>)
    requires AllGroupable(ps) && IsGrouping(ps, keys, groups)
    ensures ExecAll(db, GrantsOf(groups)) == ExecAll(db, OneByOne(ps))
  {
    hide AllGroupable, IsGrouping, Grant, Granted, ExecAll, BaseOf;
    GroupedGrants(ps, keys, groups, db);
    var ss := OneByOne(ps);
    assert forall s | s in ss :: s.GrantTo?;
    GrantsJoin(db, ss);
    forall e
      ensures e in Granted(ss) <==> e in EntriesOf(ps)
    {
      InGranted(ss, e);
      if e in EntriesOf(ps) {
        var p :| p in ps && EntryOf(p) == e;
        var i :| 0 <= i < |ps| && ps[i] == p;
        assert ss[i].option == e.option && e.key in ss[i].keys;
      }
      if i :| 0 <= i < |ss| && ss[i].option == e.option && e.key in ss[i].keys {
        assert EntryOf(ps[i]) == e;
      }
    }
    assert Granted(ss) == EntriesOf(ps);
  }
}
