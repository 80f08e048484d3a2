/** Audit policies: the drop-and-recreate protocol of the reconciler, with a failure possible at every statement. */
module AuditPolicies {
  import opened Strings
  import opened SetDiff

  // ---------------------------------------------------------------- data

  /** The desired parameters, in upper case, with the defaults of the resource definition filled in. */
  datatype Desired = Desired(actions: seq<string>, status: string, level: string, retention: int, enabled: bool)

  /** The policy in the database; its retention may be NULL. */
  datatype Policy = Policy(actions: set<string>, status: string, level: string, retention: Option<int>, enabled: bool)

  /** cr.Status.AtProvider. */
  datatype Observation = Observation(actions: seq<string>, status: string, level: string, retention: Option<int>,
                                     enabled: Option<bool>)

  datatype Statement = CreatePolicy(desired: Desired) | DropPolicy | SetRetention(days: int) | SetEnabled(enabled: bool)

  /** CREATE makes a disabled policy; ALTER and DROP need one. */
  function Exec(db: Option<Policy>, s: Statement): Option<Policy> {
    match s
    case CreatePolicy(d) => if db.None? then Some(Policy(Elems(d.actions), d.status, d.level, Some(d.retention), false))
        else db
    case DropPolicy => None
    case SetRetention(days) => if db.None? then None else Some(db.value.(retention := Some(days)))
    case SetEnabled(enabled) => if db.None? then None else Some(db.value.(enabled := enabled))
  }

  function ExecAll(db: Option<Policy>, ss: seq<Statement>): Option<Policy>
    decreases |ss|
  {
    if ss == [] then db else ExecAll(Exec(db, ss[0]), ss[1..])
  }

  // ---------------------------------------------------------------- Observe and Update

  datatype Verdict = Absent | UpToDate | OutOfDate | Panic

  /** upToDate, with its order of comparisons: the retention is dereferenced once status and level are equal. */
  function Check(o: Observation, d: Desired): Verdict {
    if o.status != d.status || o.level != d.level then OutOfDate
    else if o.retention.None? then Panic
    else if o.retention.value != d.retention then OutOfDate
    else if o.enabled != Some(d.enabled) then OutOfDate
    else if Elems(o.actions) != Elems(d.actions) then OutOfDate
    else UpToDate
  }

  predicate NeedsRecreation(o: Observation, d: Desired) {
    Elems(d.actions) != Elems(o.actions) || o.status != d.status || o.level != d.level
  }

  /** The statements of Create. */
  function CreatePlan(d: Desired): seq<Statement> {
    [CreatePolicy(d)] + (if d.enabled then [SetEnabled(true)] else [])
  }

  /** The statements of Update on what was observed. */
  function UpdatePlan(o: Observation, d: Desired): seq<Statement> {
    if NeedsRecreation(o, d) then [DropPolicy] + CreatePlan(d)
    else
      (if o.retention != Some(d.retention) then [SetRetention(d.retention)] else []) +
      (if o.enabled != Some(d.enabled) then [SetEnabled(d.enabled)] else [])
  }

  /** The observation is what Read finds: the actions in any order, one row each. */
  predicate Reads(o: Observation, p: Policy) {
    Elems(o.actions) == p.actions && o.status == p.status && o.level == p.level && o.retention == p.retention &&
        o.enabled == Some(p.enabled)
  }

  /** The verdict of an Observe. */
  ghost predicate Judged(db: Option<Policy>, d: Desired, v: Verdict) {
    if db.None? then v == Absent else exists o :: Reads(o, db.value) && v == Check(o, d)
  }

  /** The statements a reconciliation issues on a fresh observation. */
  ghost predicate Planned(db: Option<Policy>, d: Desired, plan: seq<Statement>) {
    match db
    case None => plan == CreatePlan(d)
    case Some(p) => exists o :: Reads(o, p) && plan == if Check(o, d) == OutOfDate then UpdatePlan(o, d) else []
  }

  // ---------------------------------------------------------------- the reconciler

  datatype Outcome = Succeeded | Failed | Panicked

  /** The first statements of the plan were executed, all of them if the outcome is good. */
  ghost predicate Executed(before: Option<Policy>, plan: seq<Statement>, after: Option<Policy>, issued: seq<Statement>,
                           good: bool) {
    && issued <= plan && after == ExecAll(before, issued) && (good ==> issued == plan)
  }

  lemma {:induction false} ExecOneMore(db: Option<Policy>, ss: seq<Statement>, s: Statement)
    ensures ExecAll(db, ss + [s]) == Exec(ExecAll(db, ss), s)
    decreases |ss|
  {
    hide Exec;
    if ss == [] {
      assert ss + [s] == [s] && [s][1..] == [];
      assert ExecAll(Exec(db, s), []) == Exec(db, s);
    } else {
      assert (ss + [s])[1..] == ss[1..] + [s];
      ExecOneMore(Exec(db, ss[0]), ss[1..], s);
    }
  }

  class PolicyController {
    var desired: Desired
    var status: Observation
    var db: Option<Policy>
    var issued: seq<Statement>

    constructor (desired: Desired, status: Observation, db: Option<Policy>)
      ensures this.desired == desired && this.status == status && this.db == db && issued == []
    {
      this.desired, this.status, this.db, issued := desired, status, db, [];
    }

    /** ExecContext: the statement happens, or fails without effect. */
    method Execute(s: Statement) returns (ok: bool)
      modifies this`db, this`issued
      ensures ok ==> db == Exec(old(db), s) && issued == old(issued) + [s]
      ensures !ok ==> db == old(db) && issued == old(issued)
    {
      ok := *;
      if ok {
        db, issued := Exec(db, s), issued + [s];
      }
    }

    /** Client.Create. */
    method Create() returns (ok: bool)
      modifies this`db, this`issued
      ensures exists run :: issued == old(issued) + run && Executed(old(db), CreatePlan(desired), db, run, ok)
    {
      hide Exec;
      ghost var start := db;
      ok := Execute(CreatePolicy(desired));
      if !ok {
        assert issued == old(issued) + [] && Executed(start, CreatePlan(desired), db, [], false);
        return;
      }
      ExecOneMore(start, [], CreatePolicy(desired));
      assert [] + [CreatePolicy(desired)] == [CreatePolicy(desired)];
      if desired.enabled {
        ok := Execute(SetEnabled(true));
        if ok {
          ExecOneMore(start, [CreatePolicy(desired)], SetEnabled(true));
          assert [CreatePolicy(desired)] + [SetEnabled(true)] == CreatePlan(desired);
          assert issued == old(issued) + CreatePlan(desired);
        } else {
          assert issued == old(issued) + [CreatePolicy(desired)];
          assert [CreatePolicy(desired)] <= CreatePlan(desired);
        }
      } else {
        assert CreatePlan(desired) == [CreatePolicy(desired)];
      }
    }

    /** Client.RecreatePolicy: Delete, then Create. */
    method RecreatePolicy() returns (ok: bool)
      modifies this`db, this`issued
      ensures exists run ::
              issued == old(issued) + run && Executed(old(db), [DropPolicy] + CreatePlan(desired), db, run, ok)
    {
      hide Exec, CreatePlan;
      ghost var start := db;
      ok := Execute(DropPolicy);
      if !ok {
        assert issued == old(issued) + [] && Executed(start, [DropPolicy] + CreatePlan(desired), db, [], false);
        return;
      }
      ghost var dropped := db;
      assert ExecAll(start, [DropPolicy]) == dropped by {
        ExecOneMore(start, [], DropPolicy);
        assert [] + [DropPolicy] == [DropPolicy];
      }
      ok := Create();
      ghost var run :|
          issued == old(issued) + [DropPolicy] + run && Executed(dropped, CreatePlan(desired), db, run, ok);
      DropFirst(start, dropped, run);
      assert issued == old(issued) + ([DropPolicy] + run);
    }

    /** The two ALTER statements of Update, for a policy that need not be recreated. */
    method Alter() returns (ok: bool)
      requires !NeedsRecreation(status, desired) && status.retention.Some? && status.enabled.Some?
      modifies this
      ensures desired == old(desired)
      ensures exists run ::
              issued == old(issued) + run && Executed(old(db), UpdatePlan(old(status), desired), db, run, ok)
      ensures ok ==> status == old(status).(retention := Some(desired.retention), enabled := Some(desired.enabled))
    {
      hide Exec, NeedsRecreation;
      ghost var start, plan := db, UpdatePlan(status, desired);
      var observed := status;
      ghost var run: seq<Statement> := [];
      if observed.retention.value != desired.retention {
        ok := Execute(SetRetention(desired.retention));
        if !ok {
          assert issued == old(issued) + run && Executed(start, plan, db, run, false);
          return;
        }
        ExecOneMore(start, [], SetRetention(desired.retention));
        run := [SetRetention(desired.retention)];
        assert [] + run == run;
        status := status.(retention := Some(desired.retention), enabled := Some(desired.enabled));
      }
      assert issued == old(issued) + run && db == ExecAll(start, run);
      if observed.enabled.value != desired.enabled {
        ok := Execute(SetEnabled(desired.enabled));
        if !ok {
          assert Executed(start, plan, db, run, false);
          return;
        }
        ExecOneMore(start, run, SetEnabled(desired.enabled));
        run := run + [SetEnabled(desired.enabled)];
        status := status.(retention := Some(desired.retention), enabled := Some(desired.enabled));
        assert issued == old(issued) + run;
      }
      assert run == plan;
      return true;
    }

    /** Update: recreates, or alters. The dereferenced fields must be there, as they are after an Observe. */
    method Update() returns (ok: bool)
      requires status.enabled.Some? && (NeedsRecreation(status, desired) || status.retention.Some?)
      modifies this
      ensures desired == old(desired)
      ensures exists run ::
              issued == old(issued) + run && Executed(old(db), UpdatePlan(old(status), desired), db, run, ok)
      ensures ok ==> status == if NeedsRecreation(old(status), desired)
                               then old(status).(actions := desired.actions, status := desired.status,
                                   level := desired.level)
                               else old(status).(retention := Some(desired.retention), enabled := Some(desired.enabled))
      ensures !ok && NeedsRecreation(old(status), desired) ==> status == old(status)
    {
      hide Exec, CreatePlan, Executed;
      if NeedsRecreation(status, desired) {
        ok := RecreatePolicy();
        if ok {
          status := status.(actions := desired.actions, status := desired.status, level := desired.level);
        }
      } else {
        ok := Alter();
      }
    }

    /** Client.Read of an existing policy: its rows in any order. */
    method Read(p: Policy) returns (o: Observation)
      ensures Reads(o, p)
    {
      var actions: seq<string> := [];
      var rest := p.actions;
      while rest != {}
        invariant rest <= p.actions && Elems(actions) == p.actions - rest
        decreases |rest|
      {
        var action :| action in rest;
        assert Elems(actions + [action]) == Elems(actions) + {action};
        actions := actions + [action];
        rest := rest - {action};
      }
      return Observation(actions, p.status, p.level, p.retention, Some(p.enabled));
    }

    /** Observe. */
    method Observe() returns (v: Verdict)
      modifies this`status
      ensures Judged(db, desired, v)
      ensures db.Some? ==> Reads(status, db.value) && v == Check(status, desired)
      ensures v == UpToDate <==>
              db == Some(Policy(Elems(desired.actions), desired.status, desired.level, Some(desired.retention),
                  desired.enabled))
      ensures db.None? ==> status == old(status)
    {
      if db.None? {
        return Absent;
      }
      status := Read(db.value);
      v := Check(status, desired);
      CheckIs(status, db.value, desired);
    }

    /** One reconciliation: observe, then create or update. */
    method Reconcile() returns (outcome: Outcome)
      modifies this
      ensures desired == old(desired)
      ensures exists plan, run ::
              Planned(old(db), desired, plan) && issued == old(issued) + run &&
              Executed(old(db), plan, db, run, outcome == Succeeded)
      ensures outcome == Panicked <==> Stuck(old(db), desired)
      ensures outcome == Succeeded ==>
              db == Some(Policy(Elems(desired.actions), desired.status, desired.level, Some(desired.retention),
                  desired.enabled))
    {
      hide Exec, CreatePlan, Executed, ExecAll, UpdatePlan, Check, Reads, NeedsRecreation, Stuck;
      var v := Observe();
      if db.Some? {
        CheckIs(status, db.value, desired);
      }
      ghost var before, observed, start := db, status, issued;
      ghost var d := desired;
      ghost var plan := if v == Absent then CreatePlan(d) else if v == OutOfDate then UpdatePlan(observed, d) else [];
      var ok := true;
      if v == Absent {
        ok := Create();
      } else if v == OutOfDate {
        UpdateAllowed(observed, before.value, d);
        ok := Update();
      } else {
        NothingExecuted(before, v != Panic);
        assert issued == start + [];
      }
      outcome := if v == Panic then Panicked else if ok then Succeeded else Failed;
      assert Planned(before, d, plan);
      ghost var run :| issued == start + run && Executed(before, plan, db, run, ok && v != Panic);
      JudgedIff(before, d);
      OneVerdict(before, d);
      if outcome == Succeeded {
        OneReconciliationIff(before, d, plan);
        AllExecuted(before, plan, db, run);
      }
    }
  }

  lemma DropFirst(start: Option<Policy>, dropped: Option<Policy>, run: seq<Statement>)
    requires dropped == ExecAll(start, [DropPolicy])
    ensures ExecAll(start, [DropPolicy] + run) == ExecAll(dropped, run)
  {
    assert [DropPolicy][1..] == [];
    assert ([DropPolicy] + run)[1..] == run;
  }

  lemma AllExecuted(before: Option<Policy>, plan: seq<Statement>, after: Option<Policy>, issued: seq<Statement>)
    requires Executed(before, plan, after, issued, true)
    ensures after == ExecAll(before, plan)
  {}

  lemma UpdateAllowed(o: Observation, p: Policy, d: Desired)
    requires Reads(o, p) && Check(o, d) == OutOfDate
    ensures o.enabled.Some? && (NeedsRecreation(o, d) || o.retention.Some?)
  {}

  lemma NothingExecuted(db: Option<Policy>, good: bool)
    ensures Executed(db, [], db, [], good)
  {}

  /** All observations of one policy lead to the same verdict. */
  lemma OneVerdict(db: Option<Policy>, d: Desired)
    ensures forall v, w | Judged(db, d, v) && Judged(db, d, w) :: v == w
  {}

  // ---------------------------------------------------------------- recovery

  /** The one kind of policy a reconciliation cannot cope with: created by others without retention, otherwise alike. */
  predicate Stuck(db: Option<Policy>, d: Desired) {
    db.Some? && db.value.status == d.status && db.value.level == d.level && db.value.retention.None?
  }

  /** Observe finds a policy up to date exactly if it has the desired actions and fields, and panics exactly if
      stuck. */
  lemma CheckIs(o: Observation, p: Policy, d: Desired)
    requires Reads(o, p)
    ensures Check(o, d) == UpToDate <==> p == Policy(Elems(d.actions), d.status, d.level, Some(d.retention), d.enabled)
    ensures Check(o, d) == Panic <==> Stuck(Some(p), d)
    ensures Check(o, d) != Absent
  {}

  lemma JudgedIff(db: Option<Policy>, d: Desired)
    ensures Judged(db, d, UpToDate) <==>
            db == Some(Policy(Elems(d.actions), d.status, d.level, Some(d.retention), d.enabled))
    ensures Judged(db, d, Panic) <==> Stuck(db, d)
    ensures Judged(db, d, Absent) <==> db == None
  {
    if db.Some? {
      var o := SomeRead(db.value);
      CheckIs(o, db.value, d);
      assert Judged(db, d, Check(o, d));
      OneVerdict(db, d);
    }
  }

  lemma {:induction false} ListOf(xs: set<string>) returns (l: seq<string>)
    ensures Elems(l) == xs
    decreases |xs|
  {
    if xs == {} {
      l := [];
    } else {
      var x :| x in xs;
      l := ListOf(xs - {x});
      assert Elems(l + [x]) == Elems(l) + {x};
      l := l + [x];
    }
  }

  lemma SomeRead(p: Policy) returns (o: Observation)
    ensures Reads(o, p)
  {
    var actions := ListOf(p.actions);
    o := Observation(actions, p.status, p.level, p.retention, Some(p.enabled));
  }

  /** A reconciliation issues no statement exactly on a stuck policy and on the desired one, and so issues a statement
      whenever the policy is there, not stuck and not as desired. */
  lemma PlanEmptyIff(db: Option<Policy>, d: Desired, plan: seq<Statement>)
    requires Planned(db, d, plan)
    ensures plan == [] <==>
            Stuck(db, d) || db == Some(Policy(Elems(d.actions), d.status, d.level, Some(d.retention), d.enabled))
  {
    if db.Some? {
      var o :| Reads(o, db.value) && plan == if Check(o, d) == OutOfDate then UpdatePlan(o, d) else [];
      CheckIs(o, db.value, d);
    }
  }

  lemma CreateReaches(d: Desired)
    ensures ExecAll(None, CreatePlan(d)) ==
            Some(Policy(Elems(d.actions), d.status, d.level, Some(d.retention), d.enabled))
  {
    var p := Some(Policy(Elems(d.actions), d.status, d.level, Some(d.retention), false));
    ExecOneMore(None, [], CreatePolicy(d));
    assert [] + [CreatePolicy(d)] == [CreatePolicy(d)];
    ExecOneMore(None, [CreatePolicy(d)], SetEnabled(true));
    assert CreatePlan(d) == if d.enabled then [CreatePolicy(d)] + [SetEnabled(true)] else [CreatePolicy(d)];
  }

  /** From every state, one failure-free reconciliation reaches the desired policy, unless stuck; and a stuck policy
      stays as it is. */
  lemma OneReconciliationIff(db: Option<Policy>, d: Desired, plan: seq<Statement>)
    requires Planned(db, d, plan)
    ensures ExecAll(db, plan) == Some(Policy(Elems(d.actions), d.status, d.level, Some(d.retention), d.enabled)) <==>
            !Stuck(db, d)
    ensures Stuck(db, d) ==> ExecAll(db, plan) == db
  {
    hide ExecAll, Exec;
    PlanEmptyIff(db, d, plan);
    if plan == [] {
      assert ExecAll(db, []) == db by { ExecNothing(db); }
    } else if db.None? {
      CreateReaches(d);
    } else {
      var o :| Reads(o, db.value) && plan == if Check(o, d) == OutOfDate then UpdatePlan(o, d) else [];
      UpdateReaches(db.value, o, d);
    }
  }

  lemma ExecNothing(db: Option<Policy>)
    ensures ExecAll(db, []) == db
  {}

  lemma UpdateReaches(p: Policy, o: Observation, d: Desired)
    requires Reads(o, p) && Check(o, d) == OutOfDate
    ensures ExecAll(Some(p), UpdatePlan(o, d)) ==
            Some(Policy(Elems(d.actions), d.status, d.level, Some(d.retention), d.enabled))
  {
    if NeedsRecreation(o, d) {
      CreateReaches(d);
      assert ([DropPolicy] + CreatePlan(d))[1..] == CreatePlan(d);
    } else {
      var first := if o.retention != Some(d.retention) then [SetRetention(d.retention)] else [];
      var second := if o.enabled != Some(d.enabled) then [SetEnabled(d.enabled)] else [];
      ExecNothing(Some(p));
      ExecOneMore(Some(p), [], SetRetention(d.retention));
      assert [] + [SetRetention(d.retention)] == [SetRetention(d.retention)];
      ExecOneMore(Some(p), first, SetEnabled(d.enabled));
      assert first + [] == first;
    }
  }

  // ---------------------------------------------------------------- while a plan is executed

  /** What the policy may be while a plan is executed: as before, the desired one, or the desired one before it is
      enabled; away only if actions, status or level differ, and otherwise the old one with the desired retention. */
  predicate OnTheWay(db: Option<Policy>, d: Desired, now: Option<Policy>) {
    var wanted := Policy(Elems(d.actions), d.status, d.level, Some(d.retention), d.enabled);
    var same := db.Some? && db.value.actions == wanted.actions && db.value.status == d.status &&
                db.value.level == d.level;
    || now == db
    || now == Some(wanted)
    || (!same && (now == None || now == Some(wanted.(enabled := false))))
    || (same && now == Some(db.value.(retention := Some(d.retention))))
  }

  /** At every moment of a reconciliation the policy is on the way, and every statement of the plan changes it. */
  lemma Moments(db: Option<Policy>, d: Desired, plan: seq<Statement>, n: nat)
    requires Planned(db, d, plan) && n <= |plan|
    ensures OnTheWay(db, d, ExecAll(db, plan[..n]))
    ensures n < |plan| ==> ExecAll(db, plan[..n + 1]) != ExecAll(db, plan[..n])
  {
    hide ExecAll, OnTheWay;
    FirstStatements(db, plan);
    if n + 1 <= |plan| {
      assert plan[..n + 1] == plan[..n] + [plan[n]];
      ExecOneMore(db, plan[..n], plan[n]);
    }
    if db.Some? {
      var o :| Reads(o, db.value) && plan == if Check(o, d) == OutOfDate then UpdatePlan(o, d) else [];
      if plan == [] {
        AsBefore(db, d);
      } else if NeedsRecreation(o, d) {
        RecreationMoments(db.value, o, d, n);
      } else {
        AlterMoments(db.value, o, d, n);
      }
    } else {
      CreateMoments(d, n);
    }
  }

  lemma AsBefore(db: Option<Policy>, d: Desired)
    ensures OnTheWay(db, d, db)
  {}

  lemma CreateMoments(d: Desired, n: nat)
    requires n <= |CreatePlan(d)|
    ensures OnTheWay(None, d, ExecAll(None, CreatePlan(d)[..n]))
    ensures n < |CreatePlan(d)| ==>
            Exec(ExecAll(None, CreatePlan(d)[..n]), CreatePlan(d)[n]) != ExecAll(None, CreatePlan(d)[..n])
  {
    hide ExecAll;
    FirstStatements(None, CreatePlan(d));
  }

  lemma RecreationMoments(p: Policy, o: Observation, d: Desired, n: nat)
    requires Reads(o, p) && NeedsRecreation(o, d) && n <= |UpdatePlan(o, d)|
    ensures var plan := UpdatePlan(o, d);
            && OnTheWay(Some(p), d, ExecAll(Some(p), plan[..n]))
            && (n < |plan| ==> Exec(ExecAll(Some(p), plan[..n]), plan[n]) != ExecAll(Some(p), plan[..n]))
  {
    hide ExecAll;
    FirstStatements(Some(p), UpdatePlan(o, d));
  }

  lemma AlterMoments(p: Policy, o: Observation, d: Desired, n: nat)
    requires Reads(o, p) && !NeedsRecreation(o, d) && n <= |UpdatePlan(o, d)|
    ensures var plan := UpdatePlan(o, d);
            && OnTheWay(Some(p), d, ExecAll(Some(p), plan[..n]))
            && (n < |plan| ==> Exec(ExecAll(Some(p), plan[..n]), plan[n]) != ExecAll(Some(p), plan[..n]))
  {
    hide ExecAll;
    FirstStatements(Some(p), UpdatePlan(o, d));
  }

  /** A plan has at most three statements. */
  lemma FirstStatements(db: Option<Policy>, plan: seq<Statement>)
    ensures ExecAll(db, plan[..0]) == db
    ensures |plan| >= 1 ==> ExecAll(db, plan[..1]) == Exec(db, plan[0])
    ensures |plan| >= 2 ==> ExecAll(db, plan[..2]) == Exec(Exec(db, plan[0]), plan[1])
    ensures |plan| >= 3 ==> ExecAll(db, plan[..3]) == Exec(Exec(Exec(db, plan[0]), plan[1]), plan[2])
  {
    hide Exec;
    if |plan| >= 1 {
      assert plan[..1] == plan[..0] + [plan[0]];
      ExecOneMore(db, plan[..0], plan[0]);
    }
    if |plan| >= 2 {
      assert plan[..2] == plan[..1] + [plan[1]];
      ExecOneMore(db, plan[..1], plan[1]);
    }
    if |plan| >= 3 {
      assert plan[..3] == plan[..2] + [plan[2]];
      ExecOneMore(db, plan[..2], plan[2]);
    }
  }

  // ---------------------------------------------------------------- interruptions

  /** A reconciliation that stops after `n` statements. */
  ghost predicate Interrupted(db: Option<Policy>, d: Desired, after: Option<Policy>) {
    exists plan, n | Planned(db, d, plan) && 0 <= n <= |plan| :: after == ExecAll(db, plan[..n])
  }

  /** Statements of the reconciler: each leaves the policy away, or nearer to what is desired. */
  predicate Towards(s: Statement, d: Desired) {
    s == DropPolicy || s == CreatePolicy(d) || s == SetRetention(d.retention) || s == SetEnabled(d.enabled)
  }

  lemma PlanGoesTowards(db: Option<Policy>, d: Desired, s: Statement, plan: seq<Statement>)
    requires Planned(db, d, plan) && s in plan && !Stuck(db, d)
    ensures Towards(s, d)
  {
    if db.Some? {
      var o :| Reads(o, db.value) && plan == if Check(o, d) == OutOfDate then UpdatePlan(o, d) else [];
    }
  }

  lemma {:induction false} StatementsKeep(db: Option<Policy>, d: Desired, ss: seq<Statement>)
    requires !Stuck(db, d)
    requires forall s | s in ss :: Towards(s, d)
    ensures !Stuck(ExecAll(db, ss), d)
    decreases |ss|
  {
    if ss != [] {
      assert ss[0] in ss;
      StatementsKeep(Exec(db, ss[0]), d, ss[1..]);
    }
  }

  lemma InterruptedKeeps(db: Option<Policy>, d: Desired, after: Option<Policy>)
    requires !Stuck(db, d) && Interrupted(db, d, after)
    ensures !Stuck(after, d)
  {
    hide Stuck, Planned, ExecAll;
    var plan, n :| Planned(db, d, plan) && 0 <= n <= |plan| && after == ExecAll(db, plan[..n]);
    forall s | s in plan[..n]
      ensures Towards(s, d)
    {
      PlanGoesTowards(db, d, s, plan);
    }
    StatementsKeep(db, d, plan[..n]);
  }

  /** Recovery: after any number of reconciliations interrupted at any statement, one failure-free reconciliation
      reaches the desired policy. */
  lemma {:induction false} Recovers(run: seq<Option<Policy>>, d: Desired, plan: seq<Statement>)
    requires |run| > 0 && !Stuck(run[0], d)
    requires forall i | 0 < i < |run| :: Interrupted(run[i - 1], d, run[i])
    requires Planned(run[|run| - 1], d, plan)
    ensures ExecAll(run[|run| - 1], plan) ==
            Some(Policy(Elems(d.actions), d.status, d.level, Some(d.retention), d.enabled))
    decreases |run|
  {
    hide Stuck, Planned, ExecAll, Interrupted;
    NeverStuck(run, d);
    OneReconciliationIff(run[|run| - 1], d, plan);
  }

  lemma {:induction false} NeverStuck(run: seq<Option<Policy>>, d: Desired)
    requires |run| > 0 && !Stuck(run[0], d)
    requires forall i | 0 < i < |run| :: Interrupted(run[i - 1], d, run[i])
    ensures !Stuck(run[|run| - 1], d)
    decreases |run|
  {
    hide Stuck, Interrupted;
    if |run| > 1 {
      NeverStuck(run[..|run| - 1], d);
      assert Interrupted(run[|run| - 2], d, run[|run| - 1]);
      InterruptedKeeps(run[|run| - 2], d, run[|run| - 1]);
    }
  }
}
