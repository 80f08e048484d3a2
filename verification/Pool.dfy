/** internal/clients/hana/hana.go: Connect calls over a shared map of connection handles, in every interleaving of
    their atomic actions, and Disconnect. */
module Pool {

  /** Where a Connect call stands. */
  datatype Phase =
    | Started(key: string)
    | Loaded(key: string, handle: nat)
    | MustOpen(key: string)
    | Opened(key: string, handle: nat)
    | Pinged(key: string, handle: nat)
    | Returned(key: string, handle: nat)
    | Failed

  /** `entries` is the sync.Map, `closing` the goroutines started to close a handle, `closed` the calls of Close that
      have run, and `next` the number of handles opened so far. */
  datatype Pool = Pool(entries: map<string, nat>, closing: multiset<nat>, closed: multiset<nat>, next: nat,
                       calls: map<nat, Phase>)

  datatype Action =
    | Begin(call: nat, key: string)
    | Load(call: nat)
    | Ping(call: nat, ok: bool)
    | Open(call: nat, ok: bool)
    | PingNew(call: nat, ok: bool)
    | Swap(call: nat)
    | RunClose(handle: nat)

  const EMPTY: Pool := Pool(map[], multiset{}, multiset{}, 0, map[])

  /** One atomic action; what is not enabled changes nothing. */
  function Next(s: Pool, a: Action): Pool {
    match a
    case Begin(c, key) => if c in s.calls then s else s.(calls := s.calls[c := Started(key)])
    case RunClose(h) => if h in s.closing then s.(closing := s.closing - multiset{h}, closed := s.closed + multiset{h})
        else s
    case _ => if a.call in s.calls then Advance(s, a, a.call, s.calls[a.call]) else s
  }

  /** The steps of one Connect call. */
  function Advance(s: Pool, a: Action, c: nat, phase: Phase): Pool {
    match (a, phase)
    case (Load(_), Started(key)) =>
      s.(calls := s.calls[c := if key in s.entries then Loaded(key, s.entries[key]) else MustOpen(key)])
    case (Ping(_, ok), Loaded(key, h)) =>
      s.(calls := s.calls[c := if ok then Returned(key, h) else MustOpen(key)])
    case (Open(_, ok), MustOpen(key)) =>
      if ok then s.(next := s.next + 1, calls := s.calls[c := Opened(key, s.next)])
          else s.(calls := s.calls[c := Failed])
    case (PingNew(_, ok), Opened(key, h)) =>
      if ok then s.(calls := s.calls[c := Pinged(key, h)])
      else s.(closing := s.closing + multiset{h}, calls := s.calls[c := Failed])
    case (Swap(_), Pinged(key, h)) =>
      s.(entries := s.entries[key := h],
         closing := if key in s.entries then s.closing + multiset{s.entries[key]} else s.closing,
         calls := s.calls[c := Returned(key, h)])
    case _ => s
  }

  function Play(s: Pool, schedule: seq<Action>): Pool {
    if schedule == [] then s else Next(Play(s, schedule[..|schedule| - 1]), schedule[|schedule| - 1])
  }

  // ---------------------------------------------------------------- the invariant

  /** The call has opened the handle and not yet passed it on. */
  predicate InFlight(s: Pool, c: nat, h: nat) {
    c in s.calls && (s.calls[c].Opened? || s.calls[c].Pinged?) && s.calls[c].handle == h
  }

  predicate Pooled(s: Pool, key: string, h: nat) {
    key in s.entries && s.entries[key] == h
  }

  /** How often Close has been called on the handle, or is about to be. */
  function Closes(s: Pool, h: nat): nat {
    s.closing[h] + s.closed[h]
  }

  ghost predicate Valid(s: Pool) {
    && (forall h: nat :: Closes(s, h) <= 1 && (Closes(s, h) == 1 ==> h < s.next))
    && (forall c: nat, h: nat | InFlight(s, c, h) :: h < s.next && Closes(s, h) == 0)
    && (forall key, h: nat | Pooled(s, key, h) :: h < s.next && Closes(s, h) == 0)
    && (forall c: nat, d: nat, h: nat | InFlight(s, c, h) && InFlight(s, d, h) :: c == d)
    && (forall key, other, h: nat | Pooled(s, key, h) && Pooled(s, other, h) :: key == other)
    && (forall c: nat, key, h: nat | InFlight(s, c, h) && Pooled(s, key, h) :: false)
    && (forall h: nat | h < s.next :: Accounted(s, h))
  }

  ghost predicate Accounted(s: Pool, h: nat) {
    (exists c: nat :: InFlight(s, c, h)) || (exists key :: Pooled(s, key, h)) || Closes(s, h) == 1
  }

  lemma EmptyValid()
    ensures Valid(EMPTY)
  {}

  /** Actions that touch neither the handles nor the map. */
  lemma SameHandles(s: Pool, t: Pool)
    requires Valid(s)
    requires t.entries == s.entries && t.closing == s.closing && t.closed == s.closed && t.next == s.next
    requires forall c: nat, h: nat :: InFlight(t, c, h) <==> InFlight(s, c, h)
    ensures Valid(t)
  {
    hide InFlight;
    assert forall h: nat :: Closes(t, h) == Closes(s, h);
    assert forall key, h: nat :: Pooled(t, key, h) <==> Pooled(s, key, h);
    forall h: nat | h < t.next
      ensures Accounted(t, h)
    {
      assert Accounted(s, h);
    }
  }

  lemma OpenKeeps(s: Pool, c: nat, key: string)
    requires Valid(s) && c in s.calls && s.calls[c] == MustOpen(key)
    ensures Valid(s.(next := s.next + 1, calls := s.calls[c := Opened(key, s.next)]))
  {
    var t := s.(next := s.next + 1, calls := s.calls[c := Opened(key, s.next)]);
    assert forall h: nat :: Closes(t, h) == Closes(s, h);
    assert forall k, h: nat :: Pooled(t, k, h) <==> Pooled(s, k, h);
    assert forall d: nat, h: nat :: InFlight(t, d, h) <==> InFlight(s, d, h) || (d == c && h == s.next);
    forall h: nat | h < t.next
      ensures Accounted(t, h)
    {
      if h == s.next {
        assert InFlight(t, c, h);
      } else {
        assert Accounted(s, h);
      }
    }
  }

  lemma PingFailureKeeps(s: Pool, c: nat, key: string, g: nat)
    requires Valid(s) && c in s.calls && s.calls[c] == Opened(key, g)
    ensures Valid(s.(closing := s.closing + multiset{g}, calls := s.calls[c := Failed]))
  {
    var t := s.(closing := s.closing + multiset{g}, calls := s.calls[c := Failed]);
    assert InFlight(s, c, g);
    assert forall h: nat :: Closes(t, h) == Closes(s, h) + (if h == g then 1 else 0);
    assert forall k, h: nat :: Pooled(t, k, h) <==> Pooled(s, k, h);
    assert forall d: nat, h: nat :: InFlight(t, d, h) <==> InFlight(s, d, h) && d != c;
    forall h: nat | h < t.next
      ensures Accounted(t, h)
    {
      assert Accounted(s, h);
      if d: nat :| InFlight(s, d, h) {
        assert d != c ==> InFlight(t, d, h);
      }
    }
  }

  lemma SwapKeeps(s: Pool, c: nat, key: string, g: nat)
    requires Valid(s) && c in s.calls && s.calls[c] == Pinged(key, g)
    ensures Valid(Advance(s, Swap(c), c, Pinged(key, g)))
  {
    var t := Advance(s, Swap(c), c, Pinged(key, g));
    assert InFlight(s, c, g);
    assert forall h: nat :: Closes(t, h) == Closes(s, h) + (if Pooled(s, key, h) then 1 else 0);
    assert forall k, h: nat :: Pooled(t, k, h) <==> if k == key then h == g else Pooled(s, k, h);
    assert forall d: nat, h: nat :: InFlight(t, d, h) <==> InFlight(s, d, h) && d != c;
    forall h: nat | h < t.next
      ensures Accounted(t, h)
    {
      assert Accounted(s, h);
      if d: nat :| InFlight(s, d, h) {
        if d != c {
          assert InFlight(t, d, h);
        } else {
          assert Pooled(t, key, h);
        }
      } else if k :| Pooled(s, k, h) {
        assert k != key ==> Pooled(t, k, h);
      }
    }
  }

  lemma CloseKeeps(s: Pool, g: nat)
    requires Valid(s) && g in s.closing
    ensures Valid(s.(closing := s.closing - multiset{g}, closed := s.closed + multiset{g}))
  {
    var t := s.(closing := s.closing - multiset{g}, closed := s.closed + multiset{g});
    assert forall h: nat :: Closes(t, h) == Closes(s, h);
    assert forall k, h: nat :: Pooled(t, k, h) <==> Pooled(s, k, h);
    assert forall d: nat, h: nat :: InFlight(t, d, h) <==> InFlight(s, d, h);
    forall h: nat | h < t.next
      ensures Accounted(t, h)
    {
      assert Accounted(s, h);
    }
  }

  lemma AdvanceKeeps(s: Pool, a: Action, c: nat)
    requires Valid(s) && c in s.calls
    ensures Valid(Advance(s, a, c, s.calls[c]))
  {
    hide Valid;
    var phase := s.calls[c];
    var t := Advance(s, a, c, phase);
    if a.Open? && phase.MustOpen? && a.ok {
      OpenKeeps(s, c, phase.key);
    } else if a.PingNew? && phase.Opened? && !a.ok {
      PingFailureKeeps(s, c, phase.key, phase.handle);
    } else if a.Swap? && phase.Pinged? {
      SwapKeeps(s, c, phase.key, phase.handle);
      assert t == Advance(s, Swap(c), c, phase);
    } else {
      assert forall d: nat, h: nat :: InFlight(t, d, h) <==> InFlight(s, d, h);
      SameHandles(s, t);
    }
  }

  lemma NextKeeps(s: Pool, a: Action)
    requires Valid(s)
    ensures Valid(Next(s, a))
  {
    hide Valid, Advance;
    match a
    case Begin(c, key) =>
      if c !in s.calls {
        SameHandles(s, Next(s, a));
      }
    case RunClose(h) =>
      if h in s.closing {
        CloseKeeps(s, h);
      }
    case _ =>
      if a.call in s.calls {
        AdvanceKeeps(s, a, a.call);
      }
  }

  lemma {:induction false} AlwaysValid(schedule: seq<Action>)
    ensures Valid(Play(EMPTY, schedule))
    decreases |schedule|
  {
    hide Valid, Next;
    if schedule == [] {
      EmptyValid();
    } else {
      AlwaysValid(schedule[..|schedule| - 1]);
      NextKeeps(Play(EMPTY, schedule[..|schedule| - 1]), schedule[|schedule| - 1]);
    }
  }

  // ---------------------------------------------------------------- where a handle is

  datatype Place = InCall(call: nat) | InMap(key: string) | ToBeClosed | IsClosed

  predicate At(s: Pool, h: nat, p: Place) {
    match p
    case InCall(c) => InFlight(s, c, h)
    case InMap(key) => Pooled(s, key, h)
    case ToBeClosed => s.closing[h] > 0
    case IsClosed => s.closed[h] > 0
  }

  /** In every interleaving of Connect calls each opened handle is in exactly one place: held by one call, under one
      key, waiting to be closed, or closed; nothing else is anywhere; and no handle is closed twice. */
  lemma ExactlyOnePlace(schedule: seq<Action>, h: nat)
    ensures var s := Play(EMPTY, schedule);
            && (h < s.next <==> exists p :: At(s, h, p))
            && (forall p, q | At(s, h, p) && At(s, h, q) :: p == q)
            && s.closing[h] + s.closed[h] <= 1
  {
    hide Play;
    var s := Play(EMPTY, schedule);
    AlwaysValid(schedule);
    assert Closes(s, h) <= 1;
    if h < s.next {
      assert Accounted(s, h);
      if c: nat :| InFlight(s, c, h) {
        assert At(s, h, InCall(c));
      } else if key :| Pooled(s, key, h) {
        assert At(s, h, InMap(key));
      } else {
        assert At(s, h, ToBeClosed) || At(s, h, IsClosed);
      }
    }
    forall p | At(s, h, p)
      ensures h < s.next
    {}
    forall p, q | At(s, h, p) && At(s, h, q)
      ensures p == q
    {
      OnlyPlace(s, h, p, q);
    }
  }

  lemma OnlyPlace(s: Pool, h: nat, p: Place, q: Place)
    requires Valid(s) && At(s, h, p) && At(s, h, q)
    ensures p == q
  {
    hide InFlight, Pooled;
    assert Closes(s, h) == s.closing[h] + s.closed[h] <= 1;
  }

  // ---------------------------------------------------------------- handles given out

  /** The call has found the handle in the map, or has returned it. */
  predicate Knows(s: Pool, c: nat, h: nat) {
    c in s.calls && (s.calls[c].Loaded? || s.calls[c].Returned?) && s.calls[c].handle == h
  }

  ghost predicate Shared(s: Pool) {
    forall c: nat, h: nat | Knows(s, c, h) :: h < s.next && forall d: nat :: !InFlight(s, d, h)
  }

  lemma FlightAfter(s: Pool, a: Action)
    ensures s.next <= Next(s, a).next
    ensures forall d: nat, h: nat | InFlight(Next(s, a), d, h) ::
            InFlight(s, d, h) || (h == s.next && h < Next(s, a).next)
  {}

  lemma KnownAfter(s: Pool, a: Action, c: nat, h: nat)
    requires Knows(Next(s, a), c, h)
    ensures Knows(s, c, h) || (exists key :: Pooled(s, key, h)) || (InFlight(s, c, h) && !InFlight(Next(s, a), c, h))
  {
    if a.Load? && a.call == c && c in s.calls && s.calls[c].Started? {
      assert Pooled(s, s.calls[c].key, h) || Knows(s, c, h);
    }
  }

  lemma NextShares(s: Pool, a: Action)
    requires Valid(s) && Shared(s)
    ensures Shared(Next(s, a))
  {
    hide Next, InFlight, Pooled, Knows;
    FlightAfter(s, a);
    forall c: nat, h: nat | Knows(Next(s, a), c, h)
      ensures h < Next(s, a).next && forall d: nat :: !InFlight(Next(s, a), d, h)
    {
      KnownAfter(s, a, c, h);
    }
  }

  lemma {:induction false} AlwaysShared(schedule: seq<Action>)
    ensures Shared(Play(EMPTY, schedule))
    decreases |schedule|
  {
    hide Valid, Shared, Next;
    if schedule == [] {
      assert Shared(EMPTY) by { EmptyShared(); }
    } else {
      AlwaysShared(schedule[..|schedule| - 1]);
      AlwaysValid(schedule[..|schedule| - 1]);
      NextShares(Play(EMPTY, schedule[..|schedule| - 1]), schedule[|schedule| - 1]);
    }
  }

  lemma EmptyShared()
    ensures Shared(EMPTY)
  {}

  /** A handle that a call has returned is open, and will not be closed by a pending goroutine, exactly as long as it is
      in the map. */
  lemma ReturnedIsOpenIff(schedule: seq<Action>, c: nat)
    requires c in Play(EMPTY, schedule).calls && Play(EMPTY, schedule).calls[c].Returned?
    ensures var s := Play(EMPTY, schedule);
            var h := s.calls[c].handle;
            s.closing[h] + s.closed[h] == 0 <==> exists key :: Pooled(s, key, h)
  {
    hide Play;
    var s := Play(EMPTY, schedule);
    AlwaysValid(schedule);
    AlwaysShared(schedule);
    var h := s.calls[c].handle;
    assert Knows(s, c, h);
    assert Accounted(s, h);
    assert Closes(s, h) == s.closing[h] + s.closed[h];
  }

  lemma PlayOn(s: Pool, schedule: seq<Action>, a: Action)
    ensures Play(s, schedule + [a]) == Next(Play(s, schedule), a)
  {
    assert (schedule + [a])[..|schedule|] == schedule;
  }

  /** The first call of a key, up to the ping of its new handle. */
  function FirstConnect(key: string): seq<Action> {
    [Begin(0, key), Load(0), Open(0, true), PingNew(0, true)]
  }

  lemma FirstConnected(key: string)
    ensures Play(EMPTY, FirstConnect(key)) == EMPTY.(next := 1, calls := map[0 := Pinged(key, 0)])
  {
    hide Play;
    var a, b, c, d := Begin(0, key), Load(0), Open(0, true), PingNew(0, true);
    PlayOn(EMPTY, [], a);
    PlayOn(EMPTY, [a], b);
    PlayOn(EMPTY, [a, b], c);
    PlayOn(EMPTY, [a, b, c], d);
    assert [] + [a] == [a] && [a] + [b] == [a, b] && [a, b] + [c] == [a, b, c] && [a, b, c] + [d] == FirstConnect(key);
    assert Play(EMPTY, []) == EMPTY by { PlayNone(EMPTY); }
    assert Next(EMPTY, a) == EMPTY.(calls := map[0 := Started(key)]);
    assert Next(Next(EMPTY, a), b) == EMPTY.(calls := map[0 := MustOpen(key)]);
    assert Next(Next(Next(EMPTY, a), b), c) == EMPTY.(next := 1, calls := map[0 := Opened(key, 0)]);
  }

  lemma PlayNone(s: Pool)
    ensures Play(s, []) == s
  {}

  function NextAll(s: Pool, actions: seq<Action>): Pool
    decreases |actions|
  {
    if actions == [] then s else NextAll(Next(s, actions[0]), actions[1..])
  }

  lemma {:induction false} PlayMore(s: Pool, schedule: seq<Action>, more: seq<Action>)
    ensures Play(s, schedule + more) == NextAll(Play(s, schedule), more)
    decreases |more|
  {
    hide Play, Next;
    if more == [] {
      assert schedule + more == schedule;
    } else {
      PlayOn(s, schedule, more[0]);
      PlayMore(s, schedule + [more[0]], more[1..]);
      assert schedule + [more[0]] + more[1..] == schedule + more;
    }
  }

  lemma NextFour(s: Pool, a: Action, b: Action, c: Action, d: Action)
    ensures NextAll(s, [a, b, c, d]) == Next(Next(Next(Next(s, a), b), c), d)
  {
    hide Next;
    assert [a, b, c, d][1..] == [b, c, d] && [b, c, d][1..] == [c, d] && [c, d][1..] == [d] && [d][1..] == [];
    var s1 := Next(s, a);
    assert NextAll(s, [a, b, c, d]) == NextAll(s1, [b, c, d]);
    var s2 := Next(s1, b);
    assert NextAll(s1, [b, c, d]) == NextAll(s2, [c, d]);
    var s3 := Next(s2, c);
    assert NextAll(s2, [c, d]) == NextAll(s3, [d]);
    assert NextAll(s3, [d]) == NextAll(Next(s3, d), []);
  }

  /** The handle that one call has returned is closed by a second call with the same key whose ping of it fails: a run
      from the empty pool. */
  lemma ReturnedMayBeClosed(key: string) returns (schedule: seq<Action>)
    ensures var s := Play(EMPTY, schedule); 0 in s.calls && s.calls[0] == Returned(key, 0) && s.closed[0] == 1
  {
    hide Play, Next, NextAll;
    FirstConnected(key);
    var s := Play(EMPTY, FirstConnect(key));
    var found := [Swap(0), Begin(1, key), Load(1), Ping(1, false)];
    var replaced := [Open(1, true), PingNew(1, true), Swap(1), RunClose(0)];
    PlayMore(EMPTY, FirstConnect(key), found);
    PlayMore(EMPTY, FirstConnect(key) + found, replaced);
    NextFour(s, Swap(0), Begin(1, key), Load(1), Ping(1, false));
    SecondFinds(s, key);
    var t := NextAll(s, found);
    NextFour(t, Open(1, true), PingNew(1, true), Swap(1), RunClose(0));
    SecondReplaces(t, key);
    schedule := FirstConnect(key) + found + replaced;
  }

  lemma SecondFinds(s: Pool, key: string)
    requires s == EMPTY.(next := 1, calls := map[0 := Pinged(key, 0)])
    ensures Next(Next(Next(Next(s, Swap(0)), Begin(1, key)), Load(1)), Ping(1, false))
         == s.(entries := map[key := 0], calls := map[0 := Returned(key, 0), 1 := MustOpen(key)])
  {
    var s1 := Next(s, Swap(0));
    assert s1 == s.(entries := map[key := 0], calls := map[0 := Returned(key, 0)]);
    var s2 := Next(s1, Begin(1, key));
    assert s2 == s1.(calls := map[0 := Returned(key, 0), 1 := Started(key)]);
    var s3 := Next(s2, Load(1));
    assert s3 == s1.(calls := map[0 := Returned(key, 0), 1 := Loaded(key, 0)]);
  }

  lemma SecondReplaces(s: Pool, key: string)
    requires s == EMPTY.(next := 1, entries := map[key := 0], calls := map[0 := Returned(key, 0), 1 := MustOpen(key)])
    ensures var t := Next(Next(Next(Next(s, Open(1, true)), PingNew(1, true)), Swap(1)), RunClose(0));
            0 in t.calls && t.calls[0] == Returned(key, 0) && t.closed[0] == 1
  {
    var s1 := Next(s, Open(1, true));
    assert s1 == s.(next := 2, calls := map[0 := Returned(key, 0), 1 := Opened(key, 1)]);
    var s2 := Next(s1, PingNew(1, true));
    assert s2 == s.(next := 2, calls := map[0 := Returned(key, 0), 1 := Pinged(key, 1)]);
    var s3 := Next(s2, Swap(1));
    assert s3.closing == multiset{0} && s3.closed == multiset{} && 0 in s3.calls && s3.calls[0] == Returned(key, 0);
  }

  // ---------------------------------------------------------------- Disconnect

  ghost predicate PooledOutside(s: Pool, rest: set<string>, h: nat) {
    exists key :: key !in rest && Pooled(s, key, h)
  }

  /** Range has closed every value of the map, and the map is not cleared yet. */
  ghost predicate Ranged(s: Pool, t: Pool) {
    && t == s.(closed := t.closed)
    && forall h: nat :: t.closed[h] == s.closed[h] + if PooledOutside(s, {}, h) then 1 else 0
  }

  /** Disconnect: every value of the map is closed, then the map is cleared. */
  method Disconnect(s: Pool) returns (t: Pool)
    requires Valid(s)
    ensures t.entries == map[] && Ranged(s, t.(entries := s.entries))
  {
    hide Valid, PooledOutside;
    t := s;
    var rest := s.entries.Keys;
    forall h: nat ensures !PooledOutside(s, rest, h) { NoneOutside(s, h); }
    while rest != {}
      invariant rest <= s.entries.Keys
      invariant t == s.(closed := t.closed)
      invariant forall h: nat :: t.closed[h] == s.closed[h] + if PooledOutside(s, rest, h) then 1 else 0
      decreases |rest|
    {
      var key :| key in rest;
      var g := s.entries[key];
      forall h: nat
        ensures PooledOutside(s, rest - {key}, h) <==> PooledOutside(s, rest, h) || h == g
        ensures h == g ==> !PooledOutside(s, rest, h)
      {
        OneMoreOutside(s, rest, key, h);
      }
      t, rest := t.(closed := t.closed + multiset{g}), rest - {key};
    }
    t := t.(entries := map[]);
  }

  lemma NoneOutside(s: Pool, h: nat)
    ensures !PooledOutside(s, s.entries.Keys, h)
  {}

  lemma OneMoreOutside(s: Pool, rest: set<string>, key: string, h: nat)
    requires Valid(s) && key in rest && key in s.entries
    ensures PooledOutside(s, rest - {key}, h) <==> PooledOutside(s, rest, h) || h == s.entries[key]
    ensures h == s.entries[key] ==> !PooledOutside(s, rest, h)
  {
    assert Pooled(s, key, s.entries[key]);
    if k :| k !in rest && Pooled(s, k, h) {
      assert k !in rest - {key} && k != key;
    }
    if h == s.entries[key] {
      assert key !in rest - {key} && Pooled(s, key, h);
    }
  }

  // ---------------------------------------------------------------- Disconnect among Connect calls

  predicate NoneInFlight(s: Pool) {
    forall c | c in s.calls :: !s.calls[c].Opened? && !s.calls[c].Pinged?
  }

  lemma InFlightIff(s: Pool)
    ensures NoneInFlight(s) <==> forall c: nat, h: nat :: !InFlight(s, c, h)
  {
    if c :| c in s.calls && (s.calls[c].Opened? || s.calls[c].Pinged?) {
      assert InFlight(s, c, s.calls[c].handle);
    }
  }

  /** Every handle ever opened has been closed. */
  predicate AllClosed(s: Pool) {
    forall h: nat | h < s.next :: s.closed[h] > 0
  }

  /** Range and Clear as one step: every handle is closed, exactly once, if and only if no call holds a new handle and
      no goroutine has one still to close. */
  lemma DisconnectAtOnceIff(schedule: seq<Action>, t: Pool)
    requires var s := Play(EMPTY, schedule); t.entries == map[] && Ranged(s, t.(entries := s.entries))
    ensures var s := Play(EMPTY, schedule); AllClosed(t) <==> NoneInFlight(s) && s.closing == multiset{}
    ensures forall h: nat :: t.closed[h] <= 1
  {
    hide Play;
    var s := Play(EMPTY, schedule);
    AlwaysValid(schedule);
    InFlightIff(s);
    forall h: nat
      ensures t.closed[h] <= 1 && (t.closed[h] == 1 <==> s.closed[h] == 1 || exists key :: Pooled(s, key, h))
    {
      assert Closes(s, h) == s.closing[h] + s.closed[h];
      PooledIff(s, h);
    }
    forall h: nat | h < s.next
      ensures t.closed[h] > 0 <==> s.closing[h] == 0 && forall c: nat :: !InFlight(s, c, h)
    {
      assert Accounted(s, h);
      assert Closes(s, h) == s.closing[h] + s.closed[h];
    }
    if AllClosed(t) {
      forall h: nat
        ensures s.closing[h] == 0
      {
        assert Closes(s, h) == s.closing[h] + s.closed[h];
      }
      assert s.closing == multiset{};
    }
  }

  lemma PooledIff(s: Pool, h: nat)
    ensures PooledOutside(s, {}, h) <==> exists key :: Pooled(s, key, h)
  {
    if key :| Pooled(s, key, h) {
      assert key !in {};
    }
  }

  /** What holds after the Range of a Disconnect in state `s`, while Connect calls go on. */
  ghost predicate AfterRange(s: Pool, u: Pool) {
    && s.next <= u.next && s.entries.Keys <= u.entries.Keys
    && (forall key, h: nat | Pooled(s, key, h) :: h < s.next && u.closed[h] >= 1)
    && (forall key, h: nat | Pooled(u, key, h) :: h < u.next && (Pooled(s, key, h) || Unseen(s, u, h)))
    && (forall c: nat, h: nat | InFlight(u, c, h) :: h < u.next && Unseen(s, u, h))
    && (forall c: nat, d: nat, h: nat | InFlight(u, c, h) && InFlight(u, d, h) :: c == d)
    && (forall key, other, h: nat | Pooled(u, key, h) && Pooled(u, other, h) :: key == other)
    && (forall c: nat, key, h: nat | InFlight(u, c, h) && Pooled(u, key, h) :: false)
    && (forall h: nat :: Closes(u, h) > 0 ==> h < u.next)
    && (forall h: nat | h < u.next :: Seen(u, h))
  }

  /** Not in the map at Range, and neither closed nor about to be. */
  ghost predicate Unseen(s: Pool, u: Pool, h: nat) {
    Closes(u, h) == 0 && forall key :: !Pooled(s, key, h)
  }

  ghost predicate Seen(u: Pool, h: nat) {
    (exists c: nat :: InFlight(u, c, h)) || (exists key :: Pooled(u, key, h)) || Closes(u, h) > 0
  }

  lemma RangeStarts(s: Pool, m: Pool)
    requires Valid(s) && Ranged(s, m)
    ensures AfterRange(s, m)
  {
    assert forall key, h: nat :: Pooled(m, key, h) <==> Pooled(s, key, h);
    assert forall c: nat, h: nat :: InFlight(m, c, h) <==> InFlight(s, c, h);
    forall h: nat
      ensures Closes(m, h) == Closes(s, h) + if PooledOutside(s, {}, h) then 1 else 0
    {}
    forall h: nat
      ensures PooledOutside(s, {}, h) <==> exists key :: Pooled(s, key, h)
    {
      PooledIff(s, h);
    }
    forall h: nat | h < m.next
      ensures Seen(m, h)
    {
      assert Accounted(s, h);
    }
  }

  lemma RangeSame(s: Pool, u: Pool, t: Pool)
    requires AfterRange(s, u)
    requires t.entries == u.entries && t.next == u.next
    requires forall h: nat :: Closes(t, h) == Closes(u, h) && t.closed[h] >= u.closed[h]
    requires forall c: nat, h: nat :: InFlight(t, c, h) <==> InFlight(u, c, h)
    ensures AfterRange(s, t)
  {
    hide InFlight, Closes;
    assert forall key, h: nat :: Pooled(t, key, h) <==> Pooled(u, key, h);
    assert forall h: nat :: Unseen(s, t, h) <==> Unseen(s, u, h);
    forall h: nat | h < t.next
      ensures Seen(t, h)
    {
      assert Seen(u, h);
    }
  }

  lemma RangeOpen(s: Pool, u: Pool, c: nat, key: string)
    requires AfterRange(s, u) && c in u.calls && u.calls[c] == MustOpen(key)
    ensures AfterRange(s, u.(next := u.next + 1, calls := u.calls[c := Opened(key, u.next)]))
  {
    var t := u.(next := u.next + 1, calls := u.calls[c := Opened(key, u.next)]);
    assert forall h: nat :: Closes(t, h) == Closes(u, h);
    assert forall k, h: nat :: Pooled(t, k, h) <==> Pooled(u, k, h);
    assert forall d: nat, h: nat :: InFlight(t, d, h) <==> InFlight(u, d, h) || (d == c && h == u.next);
    assert forall h: nat :: Unseen(s, t, h) <==> Unseen(s, u, h);
    assert Unseen(s, u, u.next);
    forall h: nat | h < t.next
      ensures Seen(t, h)
    {
      if h == u.next {
        assert InFlight(t, c, h);
      } else {
        assert Seen(u, h);
      }
    }
  }

  lemma RangePingFails(s: Pool, u: Pool, c: nat, key: string, g: nat)
    requires AfterRange(s, u) && c in u.calls && u.calls[c] == Opened(key, g)
    ensures AfterRange(s, u.(closing := u.closing + multiset{g}, calls := u.calls[c := Failed]))
  {
    var t := u.(closing := u.closing + multiset{g}, calls := u.calls[c := Failed]);
    assert InFlight(u, c, g);
    assert forall h: nat :: Closes(t, h) == Closes(u, h) + (if h == g then 1 else 0);
    assert forall k, h: nat :: Pooled(t, k, h) <==> Pooled(u, k, h);
    assert forall d: nat, h: nat :: InFlight(t, d, h) <==> InFlight(u, d, h) && d != c;
    assert forall h: nat | h != g :: Unseen(s, t, h) <==> Unseen(s, u, h);
    forall h: nat | h < t.next
      ensures Seen(t, h)
    {
      assert Seen(u, h);
      if d: nat :| InFlight(u, d, h) {
        assert d != c ==> InFlight(t, d, h);
      }
    }
  }

  lemma RangeSwap(s: Pool, u: Pool, c: nat, key: string, g: nat)
    requires AfterRange(s, u) && c in u.calls && u.calls[c] == Pinged(key, g)
    ensures AfterRange(s, Advance(u, Swap(c), c, Pinged(key, g)))
    ensures Advance(u, Swap(c), c, Pinged(key, g)).entries != s.entries
  {
    var t := Advance(u, Swap(c), c, Pinged(key, g));
    assert InFlight(u, c, g);
    assert forall h: nat :: Closes(t, h) == Closes(u, h) + (if Pooled(u, key, h) then 1 else 0);
    assert forall k, h: nat :: Pooled(t, k, h) <==> if k == key then h == g else Pooled(u, k, h);
    assert forall d: nat, h: nat :: InFlight(t, d, h) <==> InFlight(u, d, h) && d != c;
    assert forall h: nat | !Pooled(u, key, h) :: Unseen(s, t, h) <==> Unseen(s, u, h);
    assert Pooled(t, key, g) && !Pooled(s, key, g);
    forall h: nat | h < t.next
      ensures Seen(t, h)
    {
      assert Seen(u, h);
      if d: nat :| InFlight(u, d, h) {
        if d != c {
          assert InFlight(t, d, h);
        } else {
          assert Pooled(t, key, h);
        }
      } else if k :| Pooled(u, k, h) {
        assert k != key ==> Pooled(t, k, h);
      }
    }
  }

  /** The action puts a handle into the map. */
  predicate SwapsIn(u: Pool, a: Action) {
    a.Swap? && a.call in u.calls && u.calls[a.call].Pinged?
  }

  lemma RangeNext(s: Pool, u: Pool, a: Action)
    requires AfterRange(s, u)
    ensures AfterRange(s, Next(u, a))
    ensures SwapsIn(u, a) ==> Next(u, a).entries != s.entries
    ensures !SwapsIn(u, a) ==> Next(u, a).entries == u.entries
  {
    hide AfterRange, InFlight, Closes;
    var t := Next(u, a);
    if SwapsIn(u, a) {
      RangeSwap(s, u, a.call, u.calls[a.call].key, u.calls[a.call].handle);
    } else if a.Open? && a.ok && a.call in u.calls && u.calls[a.call].MustOpen? {
      RangeOpen(s, u, a.call, u.calls[a.call].key);
    } else if a.PingNew? && !a.ok && a.call in u.calls && u.calls[a.call].Opened? {
      RangePingFails(s, u, a.call, u.calls[a.call].key, u.calls[a.call].handle);
    } else {
      OtherSame(u, a);
      RangeSame(s, u, t);
    }
  }

  /** The actions that neither open, give up nor pass on a handle. */
  lemma OtherSame(u: Pool, a: Action)
    requires !SwapsIn(u, a)
    requires !(a.Open? && a.ok && a.call in u.calls && u.calls[a.call].MustOpen?)
    requires !(a.PingNew? && !a.ok && a.call in u.calls && u.calls[a.call].Opened?)
    ensures var t := Next(u, a);
            && t.entries == u.entries && t.next == u.next
            && (forall h: nat :: Closes(t, h) == Closes(u, h) && t.closed[h] >= u.closed[h])
            && (forall d: nat, h: nat :: InFlight(t, d, h) <==> InFlight(u, d, h))
  {
    hide Next;
    if a.RunClose? {
      CloseSame(u, a.handle);
    } else {
      CallSame(u, a);
    }
  }

  lemma CloseSame(u: Pool, g: nat)
    ensures var t := Next(u, RunClose(g));
            && t.entries == u.entries && t.next == u.next && t.calls == u.calls
            && (forall h: nat :: Closes(t, h) == Closes(u, h) && t.closed[h] >= u.closed[h])
  {}

  lemma CallSame(u: Pool, a: Action)
    requires !a.RunClose? && !SwapsIn(u, a)
    requires !(a.Open? && a.ok && a.call in u.calls && u.calls[a.call].MustOpen?)
    requires !(a.PingNew? && !a.ok && a.call in u.calls && u.calls[a.call].Opened?)
    ensures var t := Next(u, a);
            && t == u.(calls := t.calls)
            && (forall d: nat, h: nat :: InFlight(t, d, h) <==> InFlight(u, d, h))
  {}

  /** A handle is put into the map somewhere in the schedule. */
  predicate Swaps(m: Pool, schedule: seq<Action>) {
    schedule != [] && (Swaps(m, schedule[..|schedule| - 1]) ||
        SwapsIn(Play(m, schedule[..|schedule| - 1]), schedule[|schedule| - 1]))
  }

  lemma {:induction false} RangeKeeps(s: Pool, m: Pool, schedule: seq<Action>)
    requires Valid(s) && Ranged(s, m)
    ensures AfterRange(s, Play(m, schedule))
    ensures Play(m, schedule).entries == s.entries <==> !Swaps(m, schedule)
    decreases |schedule|
  {
    hide AfterRange, Next, Valid, SwapsIn, Ranged;
    if schedule == [] {
      RangeStarts(s, m);
      assert m.entries == s.entries by { RangedEntries(s, m); }
    } else {
      var init, a := schedule[..|schedule| - 1], schedule[|schedule| - 1];
      RangeKeeps(s, m, init);
      var u := Play(m, init);
      RangeNext(s, u, a);
      if Swaps(m, init) {
        StaysChanged(s, u, a);
      }
    }
  }

  lemma RangedEntries(s: Pool, m: Pool)
    requires Ranged(s, m)
    ensures m.entries == s.entries
  {}

  lemma StaysChanged(s: Pool, u: Pool, a: Action)
    requires AfterRange(s, u) && u.entries != s.entries
    ensures Next(u, a).entries != s.entries
  {
    hide AfterRange;
    RangeNext(s, u, a);
  }

  /** Disconnect among Connect calls: when the map is cleared, every handle ever opened has been closed if and only if
      no handle was put into the map since Range, no call holds a new handle, and no goroutine has one to close that is
      still open. Range happens in a reachable state, `during` is whatever happens before Clear. */
  lemma DisconnectIff(schedule: seq<Action>, m: Pool, during: seq<Action>)
    requires Ranged(Play(EMPTY, schedule), m)
    ensures var u := Play(m, during);
            AllClosed(u) <==> !Swaps(m, during) && NoneInFlight(u) && forall h: nat | h in u.closing :: u.closed[h] > 0
  {
    hide Play, Swaps, Ranged, Valid;
    var s := Play(EMPTY, schedule);
    AlwaysValid(schedule);
    RangeKeeps(s, m, during);
    ClosedIff(s, Play(m, during));
  }

  lemma ClosedIff(s: Pool, u: Pool)
    requires AfterRange(s, u)
    ensures AllClosed(u) <==>
            u.entries == s.entries && NoneInFlight(u) && forall h: nat | h in u.closing :: u.closed[h] > 0
  {
    InFlightIff(u);
    if AllClosed(u) {
      forall h: nat | h in u.closing
        ensures u.closed[h] > 0
      {
        assert Closes(u, h) > 0;
      }
      forall key | key in u.entries
        ensures key in s.entries && s.entries[key] == u.entries[key]
      {
        assert Pooled(u, key, u.entries[key]);
        assert Closes(u, u.entries[key]) > 0;
        assert Pooled(s, key, u.entries[key]);
      }
      forall c: nat, h: nat
        ensures !InFlight(u, c, h)
      {
        assert Closes(u, h) >= u.closed[h];
      }
      assert u.entries == s.entries;
    }
    if u.entries == s.entries && NoneInFlight(u) && (forall h: nat | h in u.closing :: u.closed[h] > 0) {
      forall h: nat | h < u.next
        ensures u.closed[h] > 0
      {
        assert Seen(u, h);
        if key :| Pooled(u, key, h) {
          assert Pooled(s, key, h);
        }
      }
    }
  }

  /** A Connect that swaps its handle in after the Range of a Disconnect and before its Clear loses it: from the empty
      pool, the handle is open and nowhere. */
  lemma SwapDuringDisconnectLeaks(key: string)
    ensures var s := Play(EMPTY, FirstConnect(key));
            var t := Next(s, Swap(0)).(entries := map[]);
            Ranged(s, s) && t.next == 1 && forall p :: !At(t, 0, p)
  {
    FirstConnected(key);
    var s := Play(EMPTY, FirstConnect(key));
    assert s == EMPTY.(next := 1, calls := map[0 := Pinged(key, 0)]);
    assert Next(s, Swap(0)) == s.(entries := map[key := 0], calls := map[0 := Returned(key, 0)]);
  }
}
