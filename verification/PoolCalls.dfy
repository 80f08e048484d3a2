/** What a single Connect call does: alone, and among all the others. */
module PoolCalls {
  import opened Pool

  // ---------------------------------------------------------------- a call alone

  /** All actions of a call, with the answers of the database; those that do not apply change nothing. */
  function Alone(c: nat, key: string, pingOk: bool, openOk: bool, newOk: bool): seq<Action> {
    [Begin(c, key), Load(c), Ping(c, pingOk)] + [Open(c, openOk), PingNew(c, newOk), Swap(c)]
  }

  /** A call returns the pooled handle if it answers. Otherwise it opens a new one, which replaces the old one, closing
      it, if it answers, and is closed if it does not. */
  lemma ConnectAlone(s: Pool, c: nat, key: string, pingOk: bool, openOk: bool, newOk: bool)
    requires c !in s.calls
    ensures NextAll(s, Alone(c, key, pingOk, openOk, newOk)) ==
            if key in s.entries && pingOk then s.(calls := s.calls[c := Returned(key, s.entries[key])])
            else if !openOk then s.(calls := s.calls[c := Failed])
            else if !newOk then
              s.(next := s.next + 1, closing := s.closing + multiset{s.next}, calls := s.calls[c := Failed])
            else
              s.(next := s.next + 1, entries := s.entries[key := s.next],
                 closing := if key in s.entries then s.closing + multiset{s.entries[key]} else s.closing,
                 calls := s.calls[c := Returned(key, s.next)])
  {
    hide Next, NextAll;
    var found := [Begin(c, key), Load(c), Ping(c, pingOk)];
    var renewed := [Open(c, openOk), PingNew(c, newOk), Swap(c)];
    NextAppend(s, found, renewed);
    NextThree(s, found[0], found[1], found[2]);
    Finds(s, c, key, pingOk);
    var t := NextAll(s, found);
    NextThree(t, renewed[0], renewed[1], renewed[2]);
    Opens(t, c, openOk, newOk);
    if key in s.entries && pingOk {
    } else {
      CallsTwice(s.calls, c, MustOpen(key), Failed);
      CallsTwice(s.calls, c, MustOpen(key), Returned(key, s.next));
    }
  }

  lemma CallsTwice(calls: map<nat, Phase>, c: nat, a: Phase, b: Phase)
    ensures calls[c := a][c := b] == calls[c := b]
  {}

  lemma {:induction false} NextAppend(s: Pool, first: seq<Action>, second: seq<Action>)
    ensures NextAll(s, first + second) == NextAll(NextAll(s, first), second)
    decreases |first|
  {
    hide Next;
    if first == [] {
      assert first + second == second;
    } else {
      assert (first + second)[1..] == first[1..] + second;
      NextAppend(Next(s, first[0]), first[1..], second);
    }
  }

  lemma NextThree(s: Pool, a: Action, b: Action, c: Action)
    ensures NextAll(s, [a, b, c]) == Next(Next(Next(s, a), b), c)
  {
    hide Next;
    assert [a, b, c][1..] == [b, c] && [b, c][1..] == [c] && [c][1..] == [];
    var s1 := Next(s, a);
    assert NextAll(s, [a, b, c]) == NextAll(s1, [b, c]);
    assert NextAll(s1, [b, c]) == NextAll(Next(s1, b), [c]);
    assert NextAll(Next(s1, b), [c]) == NextAll(Next(Next(s1, b), c), []);
  }

  lemma Finds(s: Pool, c: nat, key: string, ok: bool)
    requires c !in s.calls
    ensures Next(Next(Next(s, Begin(c, key)), Load(c)), Ping(c, ok)) ==
            s.(calls := s.calls[c := if key in s.entries && ok then Returned(key, s.entries[key]) else MustOpen(key)])
  {
    var s1 := Next(s, Begin(c, key));
    assert s1 == s.(calls := s.calls[c := Started(key)]);
    var phase := if key in s.entries then Loaded(key, s.entries[key]) else MustOpen(key);
    var s2 := Next(s1, Load(c));
    CallsTwice(s.calls, c, Started(key), phase);
    assert s2 == s.(calls := s.calls[c := phase]);
    CallsTwice(s.calls, c, phase, MustOpen(key));
    if key in s.entries {
      CallsTwice(s.calls, c, phase, Returned(key, s.entries[key]));
    }
  }

  lemma Opens(s: Pool, c: nat, openOk: bool, newOk: bool)
    requires c in s.calls && (s.calls[c].MustOpen? || s.calls[c].Returned?)
    ensures Next(Next(Next(s, Open(c, openOk)), PingNew(c, newOk)), Swap(c)) ==
            if s.calls[c].Returned? then s
            else if !openOk then s.(calls := s.calls[c := Failed])
            else if !newOk then
              s.(next := s.next + 1, closing := s.closing + multiset{s.next}, calls := s.calls[c := Failed])
            else
              var key := s.calls[c].key;
              s.(next := s.next + 1, entries := s.entries[key := s.next],
                 closing := if key in s.entries then s.closing + multiset{s.entries[key]} else s.closing,
                 calls := s.calls[c := Returned(key, s.next)])
  {
    if s.calls[c].MustOpen? && openOk {
      var key, h := s.calls[c].key, s.next;
      var s1 := Next(s, Open(c, true));
      assert s1 == s.(next := h + 1, calls := s.calls[c := Opened(key, h)]);
      CallsTwice(s.calls, c, Opened(key, h), Failed);
      CallsTwice(s.calls, c, Opened(key, h), Pinged(key, h));
      PingsNew(s1, c, newOk);
      if newOk {
        CallsTwice(s.calls, c, Pinged(key, h), Returned(key, h));
      }
    }
  }

  lemma PingsNew(s: Pool, c: nat, newOk: bool)
    requires c in s.calls && s.calls[c].Opened?
    ensures Next(s, PingNew(c, newOk)) ==
            if newOk then s.(calls := s.calls[c := Pinged(s.calls[c].key, s.calls[c].handle)])
            else s.(closing := s.closing + multiset{s.calls[c].handle}, calls := s.calls[c := Failed])
  {}

  /** A second call with the same key whose ping succeeds returns the handle of the first one: from the empty pool, one
      handle is opened, and none is closed or about to be. */
  lemma SecondReuses(key: string, openOk: bool, newOk: bool)
    ensures Play(EMPTY, Alone(0, key, true, true, true) + Alone(1, key, true, openOk, newOk)) ==
            Pool(map[key := 0], multiset{}, multiset{}, 1, map[0 := Returned(key, 0), 1 := Returned(key, 0)])
  {
    hide Next, NextAll, Play, Alone;
    var first := Alone(0, key, true, true, true);
    PlayMore(EMPTY, [], first);
    assert [] + first == first;
    PlayNone(EMPTY);
    ConnectAlone(EMPTY, 0, key, true, true, true);
    PlayMore(EMPTY, first, Alone(1, key, true, openOk, newOk));
    ConnectAlone(Play(EMPTY, first), 1, key, true, openOk, newOk);
  }

  // ---------------------------------------------------------------- a call among others

  /** The state before the i-th action. */
  function Before(schedule: seq<Action>, i: nat): Pool
    requires i <= |schedule|
  {
    Play(EMPTY, schedule[..i])
  }

  predicate Stands(s: Pool, c: nat, phase: Phase) {
    c in s.calls && s.calls[c] == phase
  }

  /** The call has found the handle under its key, at the i-th action. */
  predicate FindsAt(schedule: seq<Action>, i: nat, c: nat, key: string, h: nat) {
    && i < |schedule| && schedule[i] == Load(c)
    && Stands(Before(schedule, i), c, Started(key)) && Pooled(Before(schedule, i), key, h)
  }

  /** The handle found has answered. */
  predicate AnswersAt(schedule: seq<Action>, i: nat, c: nat, key: string, h: nat) {
    i < |schedule| && schedule[i] == Ping(c, true) && Stands(Before(schedule, i), c, Loaded(key, h))
  }

  /** The call has found nothing under its key, or its ping of what it has found has failed. */
  ghost predicate MissesAt(schedule: seq<Action>, i: nat, c: nat, key: string) {
    && i < |schedule|
    && var s := Before(schedule, i);
       || (schedule[i] == Load(c) && Stands(s, c, Started(key)) && key !in s.entries)
       || (schedule[i] == Ping(c, false) && exists h :: Stands(s, c, Loaded(key, h)))
  }

  /** The call has opened the handle for its key. */
  predicate OpensAt(schedule: seq<Action>, i: nat, c: nat, key: string, h: nat) {
    && i < |schedule| && schedule[i] == Open(c, true)
    && Stands(Before(schedule, i), c, MustOpen(key)) && Before(schedule, i).next == h
  }

  /** The database has refused to open a handle, or the new one has not answered. */
  ghost predicate RefusedAt(schedule: seq<Action>, i: nat, c: nat, key: string) {
    && i < |schedule|
    && var s := Before(schedule, i);
       || (schedule[i] == Open(c, false) && Stands(s, c, MustOpen(key)))
       || (schedule[i] == PingNew(c, false) && exists h :: Stands(s, c, Opened(key, h)))
  }

  ghost predicate HasFound(schedule: seq<Action>, c: nat, key: string, h: nat) {
    exists i :: FindsAt(schedule, i, c, key, h)
  }

  ghost predicate Answers(schedule: seq<Action>, c: nat, key: string, h: nat) {
    exists i :: AnswersAt(schedule, i, c, key, h)
  }

  ghost predicate Misses(schedule: seq<Action>, c: nat, key: string) {
    exists i :: MissesAt(schedule, i, c, key)
  }

  ghost predicate OpenedBy(schedule: seq<Action>, c: nat, key: string, h: nat) {
    exists i :: OpensAt(schedule, i, c, key, h)
  }

  ghost predicate Refused(schedule: seq<Action>, c: nat, key: string) {
    exists i :: RefusedAt(schedule, i, c, key)
  }

  /** Why the call stands where it stands. */
  ghost predicate Explained(schedule: seq<Action>, c: nat, phase: Phase) {
    match phase
    case Started(key) => true
    case Loaded(key, h) => HasFound(schedule, c, key, h)
    case MustOpen(key) => Misses(schedule, c, key)
    case Opened(key, h) => Misses(schedule, c, key) && OpenedBy(schedule, c, key, h)
    case Pinged(key, h) => Misses(schedule, c, key) && OpenedBy(schedule, c, key, h)
    case Returned(key, h) =>
      || (HasFound(schedule, c, key, h) && Answers(schedule, c, key, h))
      || (Misses(schedule, c, key) && OpenedBy(schedule, c, key, h))
    case Failed => exists key :: Misses(schedule, c, key) && Refused(schedule, c, key)
  }

  lemma SameBefore(schedule: seq<Action>, a: Action, i: nat)
    requires i < |schedule|
    ensures (schedule + [a])[i] == schedule[i] && Before(schedule + [a], i) == Before(schedule, i)
  {
    hide Play;
    assert (schedule + [a])[..i] == schedule[..i];
  }

  lemma FoundStays(schedule: seq<Action>, a: Action, c: nat, key: string, h: nat)
    requires HasFound(schedule, c, key, h)
    ensures HasFound(schedule + [a], c, key, h)
  {
    hide Before;
    var i :| FindsAt(schedule, i, c, key, h);
    SameBefore(schedule, a, i);
    assert FindsAt(schedule + [a], i, c, key, h);
  }

  lemma AnswersStays(schedule: seq<Action>, a: Action, c: nat, key: string, h: nat)
    requires Answers(schedule, c, key, h)
    ensures Answers(schedule + [a], c, key, h)
  {
    hide Before;
    var i :| AnswersAt(schedule, i, c, key, h);
    SameBefore(schedule, a, i);
    assert AnswersAt(schedule + [a], i, c, key, h);
  }

  lemma MissesStays(schedule: seq<Action>, a: Action, c: nat, key: string)
    requires Misses(schedule, c, key)
    ensures Misses(schedule + [a], c, key)
  {
    hide Before;
    var i :| MissesAt(schedule, i, c, key);
    SameBefore(schedule, a, i);
    assert MissesAt(schedule + [a], i, c, key);
  }

  lemma OpenedStays(schedule: seq<Action>, a: Action, c: nat, key: string, h: nat)
    requires OpenedBy(schedule, c, key, h)
    ensures OpenedBy(schedule + [a], c, key, h)
  {
    hide Before;
    var i :| OpensAt(schedule, i, c, key, h);
    SameBefore(schedule, a, i);
    assert OpensAt(schedule + [a], i, c, key, h);
  }

  lemma RefusedStays(schedule: seq<Action>, a: Action, c: nat, key: string)
    requires Refused(schedule, c, key)
    ensures Refused(schedule + [a], c, key)
  {
    hide Before;
    var i :| RefusedAt(schedule, i, c, key);
    SameBefore(schedule, a, i);
    assert RefusedAt(schedule + [a], i, c, key);
  }

  /** What explained a call goes on to explain it. */
  lemma StillExplained(schedule: seq<Action>, a: Action, c: nat, phase: Phase)
    requires Explained(schedule, c, phase)
    ensures Explained(schedule + [a], c, phase)
  {
    hide HasFound, Answers, Misses, OpenedBy, Refused;
    match phase
    case Started(key) =>
    case Loaded(key, h) => FoundStays(schedule, a, c, key, h);
    case MustOpen(key) => MissesStays(schedule, a, c, key);
    case Opened(key, h) => NewStays(schedule, a, c, key, h);
    case Pinged(key, h) => NewStays(schedule, a, c, key, h);
    case Returned(key, h) =>
      if HasFound(schedule, c, key, h) && Answers(schedule, c, key, h) {
        FoundStays(schedule, a, c, key, h);
        AnswersStays(schedule, a, c, key, h);
      } else {
        NewStays(schedule, a, c, key, h);
      }
    case Failed =>
      var key :| Misses(schedule, c, key) && Refused(schedule, c, key);
      MissesStays(schedule, a, c, key);
      RefusedStays(schedule, a, c, key);
  }

  lemma NewStays(schedule: seq<Action>, a: Action, c: nat, key: string, h: nat)
    requires Misses(schedule, c, key) && OpenedBy(schedule, c, key, h)
    ensures Misses(schedule + [a], c, key) && OpenedBy(schedule + [a], c, key, h)
  {
    hide Misses, OpenedBy;
    MissesStays(schedule, a, c, key);
    OpenedStays(schedule, a, c, key, h);
  }

  /** One more action explains where the call stands afterwards. */
  lemma ExplainsNext(schedule: seq<Action>, a: Action, c: nat)
    requires var s := Play(EMPTY, schedule); c in s.calls ==> Explained(schedule, c, s.calls[c])
    ensures var t := Play(EMPTY, schedule + [a]); c in t.calls ==> Explained(schedule + [a], c, t.calls[c])
  {
    hide Play, Explained, Next;
    var s, t, more, n := Play(EMPTY, schedule), Play(EMPTY, schedule + [a]), schedule + [a], |schedule|;
    PlayOn(EMPTY, schedule, a);
    if c in s.calls {
      StillExplained(schedule, a, c, s.calls[c]);
    }
    if c in t.calls && !(c in s.calls && t.calls[c] == s.calls[c]) {
      assert more[..n] == schedule && more[n] == a;
      assert Before(more, n) == s;
      StepExplained(more, n, c);
    }
  }

  /** A step of the call that brings it elsewhere, and the explanation of where it was, explain where it is. */
  lemma StepExplained(schedule: seq<Action>, n: nat, c: nat)
    requires |schedule| == n + 1
    requires var s, t := Before(schedule, n), Next(Before(schedule, n), schedule[n]);
             && c in t.calls && !(c in s.calls && t.calls[c] == s.calls[c])
             && (c in s.calls ==> Explained(schedule, c, s.calls[c]))
    ensures Explained(schedule, c, Next(Before(schedule, n), schedule[n]).calls[c])
  {
    hide Before;
    var s, a := Before(schedule, n), schedule[n];
    if a.Begin? {
    } else {
      StepOf(s, a, c);
      var phase := s.calls[c];
      match phase
      case Started(key) =>
        if key in s.entries {
          assert FindsAt(schedule, n, c, key, s.entries[key]);
        } else {
          assert MissesAt(schedule, n, c, key);
        }
      case Loaded(key, h) =>
        if a.ok {
          assert AnswersAt(schedule, n, c, key, h);
        } else {
          assert Stands(s, c, Loaded(key, h));
          assert MissesAt(schedule, n, c, key);
        }
      case MustOpen(key) =>
        if a.ok {
          assert OpensAt(schedule, n, c, key, s.next);
        } else {
          assert RefusedAt(schedule, n, c, key);
        }
      case Opened(key, h) =>
        if !a.ok {
          assert Stands(s, c, Opened(key, h));
          assert RefusedAt(schedule, n, c, key);
        }
      case _ =>
    }
  }

  /** The steps that bring a call elsewhere. */
  lemma StepOf(s: Pool, a: Action, c: nat)
    requires !a.Begin? && c in Next(s, a).calls && !(c in s.calls && Next(s, a).calls[c] == s.calls[c])
    ensures c in s.calls && !a.RunClose? && a.call == c
    ensures match s.calls[c]
            case Started(_) => a.Load?
            case Loaded(_, _) => a.Ping?
            case MustOpen(_) => a.Open?
            case Opened(_, _) => a.PingNew?
            case Pinged(_, _) => a.Swap?
            case _ => false
  {}

  /** In every interleaving: a call opens a handle only if it found none under its key or the one it found did not
      answer; it returns one that it found under its key and that answered, or that it opened for its key; and it fails
      only if a new handle was refused or did not answer. */
  lemma {:induction false} AlwaysExplained(schedule: seq<Action>, c: nat)
    ensures var s := Play(EMPTY, schedule); c in s.calls ==> Explained(schedule, c, s.calls[c])
    decreases |schedule|
  {
    hide Play, Explained;
    if schedule == [] {
      PlayNone(EMPTY);
    } else {
      var n := |schedule| - 1;
      assert schedule == schedule[..n] + [schedule[n]];
      AlwaysExplained(schedule[..n], c);
      ExplainsNext(schedule[..n], schedule[n], c);
    }
  }

  /** Every handle in the map was opened for its key. */
  lemma {:induction false} EntriesAreOpened(schedule: seq<Action>, key: string, h: nat)
    requires Pooled(Play(EMPTY, schedule), key, h)
    ensures exists c :: OpenedBy(schedule, c, key, h)
    decreases |schedule|
  {
    hide Play, Next, OpensAt;
    if schedule == [] {
      PlayNone(EMPTY);
    } else {
      var n := |schedule| - 1;
      var init, a := schedule[..n], schedule[n];
      assert schedule == init + [a];
      PlayOn(EMPTY, init, a);
      if Pooled(Play(EMPTY, init), key, h) {
        EntriesAreOpened(init, key, h);
        var c :| OpenedBy(init, c, key, h);
        OpenedStays(init, a, c, key, h);
      } else {
        PooledBefore(Play(EMPTY, init), a, key, h);
        AlwaysExplained(init, a.call);
        OpenedStays(init, a, a.call, key, h);
      }
    }
  }

  lemma PooledBefore(s: Pool, a: Action, key: string, h: nat)
    requires Pooled(Next(s, a), key, h) && !Pooled(s, key, h)
    ensures a.Swap? && Stands(s, a.call, Pinged(key, h))
  {}
}
