/** Personal security environments: the differences between desired and observed certificate references, and the three
    goroutines of an update in every interleaving. */
module Pse {
  import opened Strings
  import opened SetDiff

  // ---------------------------------------------------------------- references

  datatype Ref = Ref(id: Option<int>, name: Option<string>)

  /** certDifferent, which holds when both references mean the same certificate. */
  predicate Same(a: Ref, b: Ref) {
    || (a.id.Some? && b.id.Some? && a.id.value == b.id.value)
    || (a.name.Some? && b.name.Some? && a.name.value != "" && a.name.value == b.name.value)
  }

  predicate Found(r: Ref, b: seq<Ref>) {
    exists i | 0 <= i < |b| :: Same(r, b[i])
  }

  /** The references of `a` that mean none of `b`, in order. */
  function Difference(a: seq<Ref>, b: seq<Ref>): seq<Ref> {
    if a == [] then []
    else Difference(a[..|a| - 1], b) + (if Found(a[|a| - 1], b) then [] else [a[|a| - 1]])
  }

  /** certListDifference. */
  method CertListDifference(a: seq<Ref>, b: seq<Ref>) returns (diff: seq<Ref>)
    ensures diff == Difference(a, b)
  {
    diff := [];
    for i := 0 to |a|
      invariant diff == Difference(a[..i], b)
    {
      var found := false;
      var j := 0;
      while j < |b| && !found
        invariant 0 <= j <= |b|
        invariant found ==> Found(a[i], b)
        invariant !found ==> forall k | 0 <= k < j :: !Same(a[i], b[k])
        decreases |b| - j, !found
      {
        if Same(a[i], b[j]) {
          found := true;
        } else {
          j := j + 1;
        }
      }
      assert a[..i + 1][..i] == a[..i];
      if !found {
        diff := diff + [a[i]];
      }
    }
    assert a[..|a|] == a;
  }

  /** A reference without number and name, or with the empty name, matches nothing, in either order. */
  lemma NamelessMatchesNothing(r: Ref, b: seq<Ref>)
    requires r.id.None? && (r.name.None? || r.name.value == "")
    ensures !Found(r, b) && forall k | 0 <= k < |b| :: !Same(b[k], r)
  {
    forall k | 0 <= k < |b| ensures !Same(r, b[k]) && !Same(b[k], r) {}
  }

  lemma {:induction false} InDifference(a: seq<Ref>, b: seq<Ref>, r: Ref)
    ensures r in Difference(a, b) <==> r in a && !Found(r, b)
    decreases |a|
  {
    hide Found;
    if a != [] {
      InDifference(a[..|a| - 1], b, r);
      assert a == a[..|a| - 1] + [a[|a| - 1]];
    }
  }

  // ---------------------------------------------------------------- the catalogue

  /** Certificates by number, with unique names. */
  ghost predicate OneToOne(cat: map<int, string>) {
    forall i, j | i in cat && j in cat && cat[i] == cat[j] :: i == j
  }

  /** The reference means the i-th certificate: by number, by a name that is not empty, or by both. */
  predicate Denotes(r: Ref, i: int, cat: map<int, string>) {
    && i in cat
    && (r.id.Some? ==> r.id.value == i)
    && (r.name.Some? ==> r.name.value == cat[i])
    && (r.id.Some? || (r.name.Some? && r.name.value != ""))
  }

  ghost predicate Known(refs: seq<Ref>, cat: map<int, string>) {
    forall r | r in refs :: exists i :: Denotes(r, i, cat)
  }

  function Denoted(refs: seq<Ref>, cat: map<int, string>): set<int> {
    set i | i in cat && exists r | r in refs :: Denotes(r, i, cat)
  }

  lemma DenotesOne(r: Ref, i: int, j: int, cat: map<int, string>)
    requires OneToOne(cat) && Denotes(r, i, cat) && Denotes(r, j, cat)
    ensures i == j
  {}

  /** What is read from PSE_CERTIFICATES: number and name of every certificate. */
  function Rows(ids: seq<int>, cat: map<int, string>): (r: seq<Ref>)
    requires Elems(ids) <= cat.Keys
    ensures |r| == |ids| && forall k | 0 <= k < |ids| :: ids[k] in Elems(ids) && r[k] == Row(ids[k], cat)
  {
    seq(|ids|, k requires 0 <= k < |ids| => assert ids[k] in Elems(ids); Row(ids[k], cat))
  }

  function Row(i: int, cat: map<int, string>): Ref
    requires i in cat
  {
    Ref(Some(i), Some(cat[i]))
  }

  ghost predicate Read(ids: seq<int>, certs: set<int>, cat: map<int, string>) {
    NoDuplicates(ids) && Elems(ids) == certs && certs <= cat.Keys
  }

  lemma RowsDenote(ids: seq<int>, certs: set<int>, cat: map<int, string>)
    requires Read(ids, certs, cat)
    ensures Known(Rows(ids, cat), cat) && Denoted(Rows(ids, cat), cat) == certs
  {
    var rows := Rows(ids, cat);
    forall r | r in rows
      ensures exists i :: Denotes(r, i, cat)
    {
      var k :| 0 <= k < |rows| && rows[k] == r;
      assert ids[k] in Elems(ids);
      assert Denotes(r, ids[k], cat);
    }
    forall i | i in cat
      ensures i in Denoted(rows, cat) <==> i in certs
    {
      if i in certs {
        var k :| 0 <= k < |ids| && ids[k] == i;
        assert Denotes(rows[k], i, cat);
      }
      if i in Denoted(rows, cat) {
        var r :| r in rows && Denotes(r, i, cat);
        var k :| 0 <= k < |rows| && rows[k] == r;
        assert ids[k] in Elems(ids);
      }
    }
  }

  /** A known reference matches a row, in either order, exactly when it means the certificate of the row. */
  lemma SameIff(r: Ref, i: int, j: int, cat: map<int, string>)
    requires OneToOne(cat) && Denotes(r, i, cat) && j in cat
    ensures Same(r, Row(j, cat)) <==> i == j
    ensures Same(Row(j, cat), r) <==> i == j
  {}

  lemma FoundIff(r: Ref, i: int, ids: seq<int>, certs: set<int>, cat: map<int, string>)
    requires OneToOne(cat) && Denotes(r, i, cat) && Read(ids, certs, cat)
    ensures Found(r, Rows(ids, cat)) <==> i in certs
  {
    hide Same, Denotes;
    var rows := Rows(ids, cat);
    if k :| 0 <= k < |rows| && Same(r, rows[k]) {
      assert ids[k] in Elems(ids);
      SameIff(r, i, ids[k], cat);
    }
    if i in certs {
      var k :| 0 <= k < |ids| && ids[k] == i;
      SameIff(r, i, i, cat);
      assert Same(r, rows[k]);
    }
  }

  lemma RowFoundIff(j: int, refs: seq<Ref>, cat: map<int, string>)
    requires OneToOne(cat) && Known(refs, cat) && j in cat
    ensures Found(Row(j, cat), refs) <==> j in Denoted(refs, cat)
  {
    hide Same, Denotes;
    var row := Row(j, cat);
    if k :| 0 <= k < |refs| && Same(row, refs[k]) {
      assert refs[k] in refs;
      var i :| Denotes(refs[k], i, cat);
      SameIff(refs[k], i, j, cat);
    }
    if j in Denoted(refs, cat) {
      var r :| r in refs && Denotes(r, j, cat);
      var k :| 0 <= k < |refs| && refs[k] == r;
      SameIff(r, j, j, cat);
      assert Same(row, refs[k]);
    }
  }

  /** The two difference lists mean exactly the missing and the superfluous certificates. */
  lemma DifferencesDenote(refs: seq<Ref>, ids: seq<int>, certs: set<int>, cat: map<int, string>)
    requires OneToOne(cat) && Known(refs, cat) && Read(ids, certs, cat)
    ensures var toAdd, toDrop := Difference(refs, Rows(ids, cat)), Difference(Rows(ids, cat), refs);
            && Known(toAdd, cat) && Denoted(toAdd, cat) == Denoted(refs, cat) - certs
            && Known(toDrop, cat) && Denoted(toDrop, cat) == certs - Denoted(refs, cat)
  {
    AddDenotes(refs, ids, certs, cat);
    DropDenotes(refs, ids, certs, cat);
  }

  lemma AddDenotes(refs: seq<Ref>, ids: seq<int>, certs: set<int>, cat: map<int, string>)
    requires OneToOne(cat) && Known(refs, cat) && Read(ids, certs, cat)
    ensures var toAdd := Difference(refs, Rows(ids, cat));
            Known(toAdd, cat) && Denoted(toAdd, cat) == Denoted(refs, cat) - certs
  {
    hide Denotes, Found;
    RowsDenote(ids, certs, cat);
    var rows := Rows(ids, cat);
    forall r
      ensures r in Difference(refs, rows) <==> r in refs && !Found(r, rows)
    {
      InDifference(refs, rows, r);
    }
    forall r, i | r in refs && Denotes(r, i, cat)
      ensures Found(r, rows) <==> i in certs
    {
      FoundIff(r, i, ids, certs, cat);
    }
  }

  lemma DropDenotes(refs: seq<Ref>, ids: seq<int>, certs: set<int>, cat: map<int, string>)
    requires OneToOne(cat) && Known(refs, cat) && Read(ids, certs, cat)
    ensures var toDrop := Difference(Rows(ids, cat), refs);
            Known(toDrop, cat) && Denoted(toDrop, cat) == certs - Denoted(refs, cat)
  {
    hide Found;
    RowsDenote(ids, certs, cat);
    var rows := Rows(ids, cat);
    forall r
      ensures r in Difference(rows, refs) <==> r in rows && !Found(r, refs)
    {
      InDifference(rows, refs, r);
    }
    forall r, i | r in rows && Denotes(r, i, cat)
      ensures Found(r, refs) <==> i in Denoted(refs, cat)
    {
      var k :| 0 <= k < |rows| && rows[k] == r;
      assert r == Row(i, cat);
      RowFoundIff(i, refs, cat);
    }
  }

  // ---------------------------------------------------------------- the work of the goroutines

  datatype Change = Add(ids: set<int>) | Drop(ids: set<int>) | SetPurpose(provider: string)

  function ChangeOf(add: bool, ids: set<int>): Change {
    if add then Add(ids) else Drop(ids)
  }

  predicate HasKey(r: Ref) {
    r.id.Some? || r.name.Some?
  }

  function IdsOf(refs: seq<Ref>): seq<int> {
    if refs == [] then []
    else IdsOf(refs[..|refs| - 1]) + (match refs[|refs| - 1].id case Some(i) => [i] case None => [])
  }

  function NamesOf(refs: seq<Ref>): seq<string> {
    if refs == [] then []
    else
      var r := refs[|refs| - 1];
      NamesOf(refs[..|refs| - 1]) + (if r.id.None? && r.name.Some? then [r.name.value] else [])
  }

  function Lookup(names: seq<string>, cat: map<int, string>): set<int> {
    set i | i in cat && cat[i] in names
  }

  /** The statements of updateCertificatesForPSE: one for the numbers, one for the names; None if a reference has
      neither. */
  function Work(refs: seq<Ref>, add: bool, cat: map<int, string>): Option<seq<Change>> {
    if exists r | r in refs :: !HasKey(r) then None
    else Some((if IdsOf(refs) == [] then [] else [ChangeOf(add, Elems(IdsOf(refs)))]) +
              (if NamesOf(refs) == [] then [] else [ChangeOf(add, Lookup(NamesOf(refs), cat))]))
  }

  /** The loop of updateCertificatesForPSE, up to the execution of its statements. */
  method CertificateWork(refs: seq<Ref>, add: bool, cat: map<int, string>) returns (work: Option<seq<Change>>)
    ensures work == Work(refs, add, cat)
  {
    var certNames: seq<string>, certIDs: seq<int> := [], [];
    for i := 0 to |refs|
      invariant certIDs == IdsOf(refs[..i]) && certNames == NamesOf(refs[..i])
      invariant forall k | 0 <= k < i :: HasKey(refs[k])
    {
      assert refs[..i + 1][..i] == refs[..i];
      if refs[i].id.Some? {
        certIDs := certIDs + [refs[i].id.value];
      } else if refs[i].name.Some? {
        certNames := certNames + [refs[i].name.value];
      } else {
        assert refs[i] in refs && !HasKey(refs[i]);
        return None;
      }
    }
    assert refs[..|refs|] == refs;
    forall r | r in refs ensures HasKey(r) { var k :| 0 <= k < |refs| && refs[k] == r; }
    var changes: seq<Change> := [];
    if |certIDs| > 0 {
      changes := changes + [ChangeOf(add, Elems(certIDs))];
    }
    if |certNames| > 0 {
      changes := changes + [ChangeOf(add, Lookup(certNames, cat))];
    }
    assert changes == Work(refs, add, cat).value;
    return Some(changes);
  }

  /** The certificates a list of statements adds or drops. */
  function Touched(work: seq<Change>): set<int> {
    if work == [] then {} else (if work[0].SetPurpose? then {} else work[0].ids) + Touched(work[1..])
  }

  lemma {:induction false} InIds(refs: seq<Ref>, i: int)
    ensures i in IdsOf(refs) <==> exists r | r in refs :: r.id == Some(i)
    decreases |refs|
  {
    if refs != [] {
      InIds(refs[..|refs| - 1], i);
      assert refs == refs[..|refs| - 1] + [refs[|refs| - 1]];
    }
  }

  lemma {:induction false} InNames(refs: seq<Ref>, n: string)
    ensures n in NamesOf(refs) <==> exists r | r in refs :: r.id.None? && r.name == Some(n)
    decreases |refs|
  {
    if refs != [] {
      InNames(refs[..|refs| - 1], n);
      assert refs == refs[..|refs| - 1] + [refs[|refs| - 1]];
    }
  }

  lemma KeysCover(refs: seq<Ref>, cat: map<int, string>)
    requires OneToOne(cat) && Known(refs, cat)
    ensures Elems(IdsOf(refs)) + Lookup(NamesOf(refs), cat) == Denoted(refs, cat)
    ensures forall r | r in refs :: HasKey(r)
  {
    forall i
      ensures i in Elems(IdsOf(refs)) + Lookup(NamesOf(refs), cat) <==> i in Denoted(refs, cat)
    {
      InIds(refs, i);
      if i in cat {
        InNames(refs, cat[i]);
        if r :| r in refs && r.id.None? && r.name == Some(cat[i]) {
          var j :| Denotes(r, j, cat);
          assert Denotes(r, i, cat);
        }
      }
      if r :| r in refs && r.id == Some(i) {
        var j :| Denotes(r, j, cat);
        assert Denotes(r, i, cat);
      }
    }
  }

  predicate AllOf(work: seq<Change>, add: bool) {
    forall c | c in work :: if add then c.Add? else c.Drop?
  }

  /** The statements of a goroutine add, or drop, exactly the certificates its references mean. */
  lemma WorkTouches(refs: seq<Ref>, add: bool, cat: map<int, string>)
    requires OneToOne(cat) && Known(refs, cat)
    ensures Work(refs, add, cat).Some?
    ensures var work := Work(refs, add, cat).value; AllOf(work, add) && Touched(work) == Denoted(refs, cat)
  {
    hide Known, Denoted;
    KeysCover(refs, cat);
    var ids, names := Elems(IdsOf(refs)), Lookup(NamesOf(refs), cat);
    var first := if IdsOf(refs) == [] then [] else [ChangeOf(add, ids)];
    var second := if NamesOf(refs) == [] then [] else [ChangeOf(add, names)];
    TouchedTwo(first, second);
  }

  lemma TouchedTwo(first: seq<Change>, second: seq<Change>)
    requires |first| <= 1 && |second| <= 1
    ensures Touched(first + second) == Touched(first) + Touched(second)
  {
    if first == [] {
      assert first + second == second;
    } else {
      assert (first + second)[1..] == second;
      assert first[1..] == [];
    }
  }

  // ---------------------------------------------------------------- interleavings

  datatype Thread = Thread(todo: seq<Change>, failed: bool)

  datatype System = System(certs: set<int>, provider: string, purpose: Thread, adder: Thread, dropper: Thread)

  datatype Who = Purpose | Adder | Dropper

  /** Whose turn it is, and whether the statement succeeds. */
  datatype Turn = Turn(who: Who, ok: bool)

  function ThreadOf(s: System, who: Who): Thread {
    match who case Purpose => s.purpose case Adder => s.adder case Dropper => s.dropper
  }

  function SetThread(s: System, who: Who, t: Thread): System {
    match who case Purpose => s.(purpose := t) case Adder => s.(adder := t) case Dropper => s.(dropper := t)
  }

  function Apply(s: System, c: Change): System {
    match c
    case Add(ids) => s.(certs := s.certs + ids)
    case Drop(ids) => s.(certs := s.certs - ids)
    case SetPurpose(provider) => s.(provider := provider)
  }

  /** One statement of one goroutine; a goroutine stops at its first failure, the others go on. */
  function Next(s: System, turn: Turn): System {
    var t := ThreadOf(s, turn.who);
    if t.failed || t.todo == [] then s
    else if turn.ok then Apply(SetThread(s, turn.who, Thread(t.todo[1..], false)), t.todo[0])
    else SetThread(s, turn.who, Thread(t.todo, true))
  }

  function Play(s: System, schedule: seq<Turn>): System {
    if schedule == [] then s else Next(Play(s, schedule[..|schedule| - 1]), schedule[|schedule| - 1])
  }

  /** Update returns nil: every goroutine has sent nil. */
  predicate Done(s: System) {
    forall who :: ThreadOf(s, who) == Thread([], false)
  }

  function ThreadFor(work: Option<seq<Change>>): Thread {
    match work case Some(todo) => Thread(todo, false) case None => Thread([], true)
  }

  /** The goroutines that Update starts, with the provider left out where it has not changed. */
  function Started(certs: set<int>, provider: string, desired: string, toAdd: seq<Ref>, toDrop: seq<Ref>,
                   cat: map<int, string>): System {
    System(certs, provider,
           Thread(if desired == "" || desired == provider then [] else [SetPurpose(desired)], false),
           ThreadFor(Work(toAdd, true, cat)),
           ThreadFor(Work(toDrop, false, cat)))
  }

  /** What holds at every moment: what is still to be added or dropped is exactly what is missing or superfluous. */
  ghost predicate Invariant(s: System, start: set<int>, target: set<int>, provider: string, desired: string) {
    && AllOf(s.adder.todo, true) && AllOf(s.dropper.todo, false)
    && (s.purpose.todo == [] || s.purpose.todo == [SetPurpose(desired)])
    && Touched(s.adder.todo) <= target - start && Touched(s.dropper.todo) <= start - target
    && target - s.certs <= Touched(s.adder.todo) && s.certs - target <= Touched(s.dropper.todo)
    && start * target <= s.certs <= start + target
    && (s.provider == provider || s.provider == desired)
    && (s.purpose.todo == [] ==> s.provider == if desired == "" then provider else desired)
  }

  lemma TouchedFirst(work: seq<Change>, add: bool)
    requires work != [] && AllOf(work, add)
    ensures work[0] == ChangeOf(add, work[0].ids)
    ensures AllOf(work[1..], add) && Touched(work) == work[0].ids + Touched(work[1..])
  {
    assert work[0] in work;
  }

  lemma Remaining(missing: set<int>, ids: set<int>, rest: set<int>)
    requires missing <= ids + rest
    ensures missing - ids <= rest
  {}

  lemma NextKeeps(s: System, turn: Turn, start: set<int>, target: set<int>, provider: string, desired: string)
    requires Invariant(s, start, target, provider, desired)
    requires desired != "" || s.purpose.todo == []
    ensures Invariant(Next(s, turn), start, target, provider, desired)
    ensures desired != "" || Next(s, turn).purpose.todo == []
  {
    hide Touched, AllOf;
    if s.adder.todo != [] {
      TouchedFirst(s.adder.todo, true);
    }
    if s.dropper.todo != [] {
      TouchedFirst(s.dropper.todo, false);
    }
    match turn.who
    case Purpose =>
    case Adder =>
      if !s.adder.failed && s.adder.todo != [] && turn.ok {
        var ids := s.adder.todo[0].ids;
        var t := Next(s, turn);
        assert t == s.(certs := s.certs + ids, adder := Thread(s.adder.todo[1..], false));
        assert ids <= target - start;
        assert start * target <= t.certs <= start + target;
        assert t.certs - target <= s.certs - target;
        assert target - t.certs == (target - s.certs) - ids;
        Remaining(target - s.certs, ids, Touched(t.adder.todo));
      }
    case Dropper =>
      if !s.dropper.failed && s.dropper.todo != [] && turn.ok {
        var ids := s.dropper.todo[0].ids;
        var t := Next(s, turn);
        assert t == s.(certs := s.certs - ids, dropper := Thread(s.dropper.todo[1..], false));
        assert ids <= start - target;
        assert start * target <= t.certs <= start + target;
        assert target - t.certs <= target - s.certs;
        assert t.certs - target == (s.certs - target) - ids;
        Remaining(s.certs - target, ids, Touched(t.dropper.todo));
      }
  }

  lemma {:induction false} PlayKeeps(s: System, schedule: seq<Turn>, start: set<int>, target: set<int>,
                                     provider: string, desired: string)
    requires Invariant(s, start, target, provider, desired)
    requires desired != "" || s.purpose.todo == []
    ensures Invariant(Play(s, schedule), start, target, provider, desired)
    ensures desired != "" || Play(s, schedule).purpose.todo == []
    decreases |schedule|
  {
    hide Invariant, Next;
    if schedule != [] {
      PlayKeeps(s, schedule[..|schedule| - 1], start, target, provider, desired);
      NextKeeps(Play(s, schedule[..|schedule| - 1]), schedule[|schedule| - 1], start, target, provider, desired);
    }
  }

  /** An update of a security environment whose certificates were just read. */
  ghost predicate Updating(s: System, refs: seq<Ref>, ids: seq<int>, certs: set<int>, provider: string, desired: string,
                           cat: map<int, string>) {
    && OneToOne(cat) && Known(refs, cat) && Read(ids, certs, cat)
    && s == Started(certs, provider, desired, Difference(refs, Rows(ids, cat)), Difference(Rows(ids, cat), refs), cat)
  }

  lemma StartHolds(s: System, refs: seq<Ref>, ids: seq<int>, certs: set<int>, provider: string, desired: string,
                   cat: map<int, string>)
    requires Updating(s, refs, ids, certs, provider, desired, cat)
    ensures Invariant(s, certs, Denoted(refs, cat), provider, desired)
    ensures desired != "" || s.purpose.todo == []
  {
    hide Known, Denoted, Difference, Work, Touched;
    DifferencesDenote(refs, ids, certs, cat);
    WorkTouches(Difference(refs, Rows(ids, cat)), true, cat);
    WorkTouches(Difference(Rows(ids, cat), refs), false, cat);
  }

  lemma WorkEmptyIff(refs: seq<Ref>, add: bool, cat: map<int, string>)
    requires OneToOne(cat) && Known(refs, cat)
    ensures Work(refs, add, cat) == Some([]) <==> Denoted(refs, cat) == {}
  {
    hide Denotes;
    KeysCover(refs, cat);
    if refs == [] {
      assert Denoted(refs, cat) == {};
      assert Work(refs, add, cat).value == [];
    } else {
      var r := refs[0];
      assert r in refs;
      var i :| Denotes(r, i, cat);
      InCatalogue(r, i, cat);
      assert i in Denoted(refs, cat);
      if r.id.Some? {
        InIds(refs, r.id.value);
      } else {
        InNames(refs, r.name.value);
      }
    }
  }

  /** An update sends no statement exactly when the certificates are the desired ones and the provider is the desired
      one or none is asked for. */
  lemma QuietIff(s: System, refs: seq<Ref>, ids: seq<int>, certs: set<int>, provider: string, desired: string,
                 cat: map<int, string>)
    requires Updating(s, refs, ids, certs, provider, desired, cat)
    ensures (forall who :: ThreadOf(s, who) == Thread([], false)) <==>
            certs == Denoted(refs, cat) && (desired == "" || desired == provider)
  {
    hide Known, Denoted, Difference, Work;
    DifferencesDenote(refs, ids, certs, cat);
    WorkEmptyIff(Difference(refs, Rows(ids, cat)), true, cat);
    WorkEmptyIff(Difference(Rows(ids, cat), refs), false, cat);
    WorkTouches(Difference(refs, Rows(ids, cat)), true, cat);
    WorkTouches(Difference(Rows(ids, cat), refs), false, cat);
    assert ThreadOf(s, Adder) == s.adder && ThreadOf(s, Dropper) == s.dropper && ThreadOf(s, Purpose) == s.purpose;
  }

  /** At every moment of every interleaving, whatever fails, no certificate is lost that is both there and desired, and
      none appears that is neither. */
  lemma AtEveryMoment(s: System, schedule: seq<Turn>, refs: seq<Ref>, ids: seq<int>, certs: set<int>, provider: string,
                      desired: string, cat: map<int, string>)
    requires Updating(s, refs, ids, certs, provider, desired, cat)
    ensures var t := Play(s, schedule);
            && certs * Denoted(refs, cat) <= t.certs <= certs + Denoted(refs, cat)
            && (t.provider == provider || t.provider == desired)
  {
    hide Updating, Denoted;
    StartHolds(s, refs, ids, certs, provider, desired, cat);
    PlayKeeps(s, schedule, certs, Denoted(refs, cat), provider, desired);
  }

  /** Every interleaving in which Update returns nil ends with exactly the desired certificates. */
  lemma EveryInterleaving(s: System, schedule: seq<Turn>, refs: seq<Ref>, ids: seq<int>, certs: set<int>,
                          provider: string, desired: string, cat: map<int, string>)
    requires Updating(s, refs, ids, certs, provider, desired, cat) && Done(Play(s, schedule))
    ensures var t := Play(s, schedule);
            t.certs == Denoted(refs, cat) && t.provider == if desired == "" then provider else desired
  {
    hide Updating, Denoted;
    StartHolds(s, refs, ids, certs, provider, desired, cat);
    PlayKeeps(s, schedule, certs, Denoted(refs, cat), provider, desired);
    var t := Play(s, schedule);
    assert ThreadOf(t, Adder).todo == [] && ThreadOf(t, Dropper).todo == [] && ThreadOf(t, Purpose).todo == [];
  }

  lemma {:induction false} PlayFrom(s: System, turn: Turn, schedule: seq<Turn>)
    ensures Play(s, [turn] + schedule) == Play(Next(s, turn), schedule)
    decreases |schedule|
  {
    hide Next;
    var all := [turn] + schedule;
    if schedule == [] {
      assert all[..0] == [];
    } else {
      assert all[..|all| - 1] == [turn] + schedule[..|schedule| - 1];
      PlayFrom(s, turn, schedule[..|schedule| - 1]);
    }
  }

  /** An update of known references can always return nil. */
  lemma {:induction false} CanFinish(s: System) returns (schedule: seq<Turn>)
    requires !s.purpose.failed && !s.adder.failed && !s.dropper.failed
    ensures Done(Play(s, schedule))
    decreases |s.purpose.todo| + |s.adder.todo| + |s.dropper.todo|
  {
    hide Play;
    if who :| ThreadOf(s, who).todo != [] {
      var rest := CanFinish(Next(s, Turn(who, true)));
      schedule := [Turn(who, true)] + rest;
      PlayFrom(s, Turn(who, true), rest);
    } else {
      schedule := [];
      assert ThreadOf(s, Purpose).todo == [] && ThreadOf(s, Adder).todo == [] && ThreadOf(s, Dropper).todo == [];
      PlayNothing(s);
    }
  }

  lemma PlayNothing(s: System)
    ensures Play(s, []) == s
  {}

  // ---------------------------------------------------------------- up to date

  /** isUpToDate; the name read is always the name asked for. */
  predicate IsUpToDate(refs: seq<Ref>, rows: seq<Ref>, desired: string, provider: string) {
    |refs| == |rows| && Difference(refs, rows) == [] && desired == provider
  }

  /** The references mean pairwise different certificates. */
  ghost predicate Distinct(refs: seq<Ref>, cat: map<int, string>) {
    forall a, b, i | 0 <= a < b < |refs| && Denotes(refs[a], i, cat) :: !Denotes(refs[b], i, cat)
  }

  /** Pigeonhole: known references mean as many certificates as there are references exactly when they are distinct. */
  lemma {:induction false} CountIff(refs: seq<Ref>, cat: map<int, string>)
    requires OneToOne(cat) && Known(refs, cat)
    ensures |Denoted(refs, cat)| <= |refs|
    ensures |Denoted(refs, cat)| == |refs| <==> Distinct(refs, cat)
    decreases |refs|
  {
    hide Denotes;
    if refs != [] {
      var n := |refs| - 1;
      var init, r := refs[..n], refs[n];
      assert refs == init + [r];
      assert r in refs;
      var i :| Denotes(r, i, cat);
      assert Known(init, cat) by {
        forall q | q in init
          ensures exists j :: Denotes(q, j, cat)
        {
          assert q in refs;
        }
      }
      CountIff(init, cat);
      LastDenotes(refs, i, cat);
      DistinctInit(refs, i, cat);
    } else {
      assert Denoted(refs, cat) == {};
    }
  }

  lemma LastDenotes(refs: seq<Ref>, i: int, cat: map<int, string>)
    requires OneToOne(cat) && refs != [] && Denotes(refs[|refs| - 1], i, cat)
    ensures Denoted(refs, cat) == Denoted(refs[..|refs| - 1], cat) + {i}
  {
    var init, r := refs[..|refs| - 1], refs[|refs| - 1];
    assert refs == init + [r];
    forall j | j in cat
      ensures j in Denoted(refs, cat) <==> j in Denoted(init, cat) + {i}
    {
      if j in Denoted(refs, cat) {
        var q :| q in refs && Denotes(q, j, cat);
        if q == r {
          DenotesOne(r, i, j, cat);
        }
      }
    }
  }

  lemma DistinctInit(refs: seq<Ref>, i: int, cat: map<int, string>)
    requires OneToOne(cat) && refs != [] && Denotes(refs[|refs| - 1], i, cat)
    ensures Distinct(refs, cat) <==> Distinct(refs[..|refs| - 1], cat) && i !in Denoted(refs[..|refs| - 1], cat)
  {
    hide Denotes;
    var n := |refs| - 1;
    var init := refs[..n];
    InCatalogue(refs[n], i, cat);
    if i in Denoted(init, cat) {
      var q :| q in init && Denotes(q, i, cat);
      var a :| 0 <= a < n && init[a] == q;
      assert Denotes(refs[a], i, cat) && Denotes(refs[n], i, cat);
    }
    if Distinct(init, cat) && i !in Denoted(init, cat) {
      forall a, b, j | 0 <= a < b < |refs| && Denotes(refs[a], j, cat)
        ensures !Denotes(refs[b], j, cat)
      {
        assert refs[a] == init[a] && init[a] in init;
        if b == n {
          if Denotes(refs[n], j, cat) {
            DenotesOne(refs[n], i, j, cat);
          }
        } else {
          assert refs[b] == init[b];
        }
      }
    }
    if Distinct(refs, cat) {
      assert forall a | 0 <= a < n :: refs[a] == init[a];
    }
  }

  lemma InCatalogue(r: Ref, i: int, cat: map<int, string>)
    requires Denotes(r, i, cat)
    ensures i in cat
  {}

  lemma ReadSize(ids: seq<int>, certs: set<int>)
    requires NoDuplicates(ids) && Elems(ids) == certs
    ensures |ids| == |certs|
    decreases |ids|
  {
    if ids != [] {
      var n := |ids| - 1;
      var init := ids[..n];
      assert ids == init + [ids[n]];
      assert Elems(ids) == Elems(init) + {ids[n]};
      assert forall k | 0 <= k < n :: ids[k] == init[k];
      ReadSize(init, certs - {ids[n]});
    }
  }

  lemma NoDifference(refs: seq<Ref>, ids: seq<int>, certs: set<int>, cat: map<int, string>)
    requires OneToOne(cat) && Known(refs, cat) && Read(ids, certs, cat)
    ensures Difference(refs, Rows(ids, cat)) == [] <==> Denoted(refs, cat) <= certs
  {
    hide Denotes;
    AddDenotes(refs, ids, certs, cat);
    var d := Difference(refs, Rows(ids, cat));
    if d == [] {
      assert Denoted(d, cat) == {};
      forall i | i in Denoted(refs, cat) ensures i in certs { assert i !in Denoted(d, cat); }
    } else {
      assert d[0] in d;
      var i :| Denotes(d[0], i, cat);
      InCatalogue(d[0], i, cat);
      assert i in Denoted(d, cat);
    }
  }

  /** The test says: as many references as certificates, and every reference means one of them. */
  lemma UpToDateMeans(refs: seq<Ref>, ids: seq<int>, certs: set<int>, desired: string, provider: string,
                      cat: map<int, string>)
    requires OneToOne(cat) && Known(refs, cat) && Read(ids, certs, cat)
    ensures IsUpToDate(refs, Rows(ids, cat), desired, provider) <==>
            |refs| == |certs| && Denoted(refs, cat) <= certs && desired == provider
  {
    hide Known, Denoted, Difference;
    NoDifference(refs, ids, certs, cat);
    ReadSize(ids, certs);
  }

  /** For references to different certificates the one-sided test decides equality. */
  lemma UpToDateSound(refs: seq<Ref>, ids: seq<int>, certs: set<int>, desired: string, provider: string,
                      cat: map<int, string>)
    requires OneToOne(cat) && Known(refs, cat) && Read(ids, certs, cat)
    ensures Distinct(refs, cat) ==>
            (IsUpToDate(refs, Rows(ids, cat), desired, provider) <==>
            certs == Denoted(refs, cat) && desired == provider)
    ensures !Distinct(refs, cat) && certs == Denoted(refs, cat) ==> !IsUpToDate(refs, Rows(ids, cat), desired, provider)
  {
    hide Known, Denoted, Distinct, IsUpToDate;
    UpToDateMeans(refs, ids, certs, desired, provider, cat);
    CountIff(refs, cat);
    if Denoted(refs, cat) <= certs && |Denoted(refs, cat)| == |certs| {
      SameSizeSubset(Denoted(refs, cat), certs);
    }
  }

  /** After a successful update, in any interleaving, the next Observe reports up to date exactly when the references
      are distinct and there is no provider to be cleared. */
  lemma SettlesIff(s: System, schedule: seq<Turn>, refs: seq<Ref>, ids: seq<int>, certs: set<int>, provider: string,
                   desired: string,
                   cat: map<int, string>, later: seq<int>)
    requires Updating(s, refs, ids, certs, provider, desired, cat) && Done(Play(s, schedule))
    requires Read(later, Play(s, schedule).certs, cat)
    ensures IsUpToDate(refs, Rows(later, cat), desired, Play(s, schedule).provider)
       <==> Distinct(refs, cat) && (desired == "" ==> provider == "")
  {
    hide Known, Denoted, Distinct, IsUpToDate, Done, Play, Difference, Started;
    EveryInterleaving(s, schedule, refs, ids, certs, provider, desired, cat);
    UpToDateSound(refs, later, Play(s, schedule).certs, desired, Play(s, schedule).provider, cat);
  }

  /** Two references to one certificate, by number and by name, hide a certificate that should be dropped. */
  lemma DuplicateHidesDrop(cat: map<int, string>, i: int, j: int)
    requires OneToOne(cat) && i in cat && j in cat && i != j && cat[i] != ""
    ensures var refs := [Ref(Some(i), None), Ref(None, Some(cat[i]))];
            && IsUpToDate(refs, Rows([i, j], cat), "", "") && Denoted(refs, cat) == {i} &&
               Denoted(Rows([i, j], cat), cat) == {i, j}
  {
    var refs := [Ref(Some(i), None), Ref(None, Some(cat[i]))];
    assert Denotes(refs[0], i, cat) && Denotes(refs[1], i, cat);
    assert Known(refs, cat);
    assert Denoted(refs, cat) == {i};
    assert Read([i, j], {i, j}, cat);
    RowsDenote([i, j], {i, j}, cat);
    UpToDateMeans(refs, [i, j], {i, j}, "", "", cat);
  }
}
