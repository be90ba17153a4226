/** What a saga run guarantees: how it ends, which calls it makes in which order,
    what is stored at every crash point, and what it costs the wallet. */
module SagaTheorems {
  import opened Saga

  // ---------- how a run ends ----------

  ghost predicate Succeeds(env: Env, step: Step, i: nat)
  {
    step.service in env.executors && exists a :: 0 <= a <= step.maxRetries && env.execute(i, a)
  }

  /** Step `k` is the first that cannot succeed; `|steps|` when there is none. */
  ghost predicate FirstFailure(env: Env, steps: seq<Step>, k: nat)
  {
    && k <= |steps|
    && (forall j :: 0 <= j < k ==> Succeeds(env, steps[j], j))
    && (k < |steps| ==> !Succeeds(env, steps[k], k))
  }

  lemma StepOkIsSucceeds(env: Env, step: Step, i: nat)
    ensures StepOk(env, step, i) <==> Succeeds(env, step, i)
  {
    if step.service in env.executors {
      var f := FirstOk(env, i, 0, step.maxRetries);
      if f <= step.maxRetries {
        assert env.execute(i, f);
      }
    }
  }

  lemma {:induction false} ForwardReaches(env: Env, s: SagaRecord, k: nat)
    requires s.currentStep <= k && FirstFailure(env, s.steps, k)
    ensures var r := Forward(env, s).0;
      && r.state == s.state && r.currentStep == k && |r.steps| == |s.steps|
      && (forall j :: 0 <= j < |s.steps| ==>
            r.steps[j] == if s.currentStep <= j <= k then StepResult(env, s.steps[j], j) else s.steps[j])
    decreases |s.steps| - s.currentStep
  {
    var i := s.currentStep;
    if i < |s.steps| {
      StepOkIsSucceeds(env, s.steps[i], i);
      if i < k {
        var s1 := s.(steps := s.steps[i := StepResult(env, s.steps[i], i)], currentStep := i + 1);
        assert forall j :: 0 <= j <= k && j < |s.steps| && j != i ==> s1.steps[j] == s.steps[j];
        assert Succeeds(env, s1.steps[i], i);
        ForwardReaches(env, s1, k);
      }
    }
  }

  lemma {:induction false} BackwardReaches(env: Env, steps: seq<Step>, i: nat)
    requires i <= |steps|
    ensures var r := Backward(env, steps, i).0;
      forall j :: 0 <= j < |steps| ==> r[j] == if j < i then UndoResult(env, steps[j], j) else steps[j]
    decreases i
  {
    if i > 0 {
      BackwardReaches(env, steps[i - 1 := UndoResult(env, steps[i - 1], i - 1)], i - 1);
    }
  }

  /** Every run from step 0 ends in one of two ways, decided by its first failing
      step `k`.  With none, the saga is completed and so is every step.  Otherwise
      it is compensated: steps before `k` are compensated exactly when they have a
      compensation that worked and completed otherwise, `k` is failed (untouched if
      its service was never registered), and no later step has been touched. */
  lemma Outcome(env: Env, s: SagaRecord, k: nat)
    requires s.currentStep == 0 && FirstFailure(env, s.steps, k)
    ensures var r := Execution(env, s).0;
      && |r.steps| == |s.steps| && r.currentStep == k
      && r.state == (if k == |s.steps| then SagaCompleted else SagaCompensated)
      && (forall j :: 0 <= j < k ==>
            && r.steps[j].status
               == (if k < |s.steps| && s.steps[j].compensateAction != "" && env.compensate(j) then Compensated
                 else Completed)
            && r.steps[j].retryCount <= s.steps[j].maxRetries && env.execute(j, r.steps[j].retryCount)
            && (forall a :: 0 <= a < r.steps[j].retryCount ==> !env.execute(j, a)))
      && (k < |s.steps| && s.steps[k].service in env.executors ==>
            r.steps[k].status == Failed && r.steps[k].retryCount == s.steps[k].maxRetries + 1)
      && (k < |s.steps| && s.steps[k].service !in env.executors ==> r.steps[k] == s.steps[k])
      && (forall j :: k < j < |s.steps| ==> r.steps[j] == s.steps[j])
  {
    var start := s.(state := InProgress);
    ForwardReaches(env, start, k);
    var mid := Forward(env, start).0;
    forall j | 0 <= j < |s.steps|
      ensures StepOk(env, s.steps[j], j) <==> Succeeds(env, s.steps[j], j)
    {
      StepOkIsSucceeds(env, s.steps[j], j);
    }
    if k < |s.steps| {
      BackwardReaches(env, mid.steps, k);
    }
  }

  // ---------- which calls a run makes ----------

  lemma {:induction false} AttemptsAre(env: Env, i: nat, a: nat, max: nat, e: Effect)
    requires a <= max + 1
    ensures e in Attempts(env, i, a, max) <==>
      e.Execute? && e.i == i && a <= e.attempt <= max && e.ok == env.execute(i, e.attempt)
      && forall b :: a <= b < e.attempt ==> !env.execute(i, b)
    decreases max + 1 - a
  {
    if a <= max {
      AttemptsAre(env, i, a + 1, max, e);
    }
  }

  /** The executions that a step calls: each attempt up to its first success. */
  lemma StepCalls(env: Env, step: Step, i: nat, e: Effect)
    ensures e.Compensate? ==> e !in StepEffects(env, step, i)
    ensures e.Execute? ==> (e in StepEffects(env, step, i) <==>
      && step.service in env.executors
      && e.i == i && e.attempt <= step.maxRetries && e.ok == env.execute(i, e.attempt)
      && forall b :: 0 <= b < e.attempt ==> !env.execute(i, b))
  {
    AttemptsAre(env, i, 0, step.maxRetries, e);
  }

  lemma ForwardIs(env: Env, s: SagaRecord)
    requires s.currentStep < |s.steps|
    ensures var i := s.currentStep;
      Forward(env, s).1 == StepEffects(env, s.steps[i], i)
        + (if StepOk(env, s.steps[i], i)
           then Forward(env, s.(steps := s.steps[i := StepResult(env, s.steps[i], i)], currentStep := i + 1)).1 else [])
  {
  }

  lemma NextFailure(env: Env, s: SagaRecord, k: nat)
    requires s.currentStep < k && FirstFailure(env, s.steps, k)
    ensures var i := s.currentStep;
      FirstFailure(env, s.steps[i := StepResult(env, s.steps[i], i)], k)
  {
    var i := s.currentStep;
    var steps := s.steps[i := StepResult(env, s.steps[i], i)];
    assert forall j :: 0 <= j < |steps| && j != i ==> steps[j] == s.steps[j];
    assert Succeeds(env, steps[i], i) == Succeeds(env, s.steps[i], i);
  }

  /** Exactly which executions the forward part of a run calls; it compensates nothing. */
  lemma {:induction false} ForwardCalls(env: Env, s: SagaRecord, k: nat, e: Effect)
    requires s.currentStep <= k && FirstFailure(env, s.steps, k)
    ensures e.Compensate? ==> e !in Forward(env, s).1
    ensures e.Execute? ==> (e in Forward(env, s).1 <==>
      && s.currentStep <= e.i <= k && e.i < |s.steps| && s.steps[e.i].service in env.executors
      && e.attempt <= s.steps[e.i].maxRetries && e.ok == env.execute(e.i, e.attempt)
      && forall b :: 0 <= b < e.attempt ==> !env.execute(e.i, b))
    decreases |s.steps| - s.currentStep
  {
    var i := s.currentStep;
    if i < |s.steps| {
      StepOkIsSucceeds(env, s.steps[i], i);
      StepCalls(env, s.steps[i], i, e);
      ForwardIs(env, s);
      if i < k {
        NextFailure(env, s, k);
        ForwardCalls(env, s.(steps := s.steps[i := StepResult(env, s.steps[i], i)], currentStep := i + 1), k, e);
      }
    }
  }

  function CallOf(e: Effect): seq<nat>
  {
    if e.Compensate? then [e.i] else []
  }

  /** The steps compensated, in the order of the calls. */
  function CompensateCalls(t: seq<Effect>): seq<nat>
    decreases |t|
  {
    if t == [] then [] else CallOf(t[0]) + CompensateCalls(t[1..])
  }

  lemma {:induction false} CompensateCallsSplit(a: seq<Effect>, b: seq<Effect>)
    ensures CompensateCalls(a + b) == CompensateCalls(a) + CompensateCalls(b)
    decreases |a|
  {
    if a == [] {
      assert a + b == b;
    } else {
      assert (a + b)[1..] == a[1..] + b;
      CompensateCallsSplit(a[1..], b);
      Associate(CallOf(a[0]), CompensateCalls(a[1..]), CompensateCalls(b));
    }
  }

  lemma Associate(a: seq<nat>, b: seq<nat>, c: seq<nat>)
    ensures (a + b) + c == a + (b + c)
  {
  }

  predicate Descending(s: seq<nat>)
  {
    forall m, n :: 0 <= m < n < |s| ==> s[m] > s[n]
  }

  /** The undoable steps before `i`, last first. */
  function UndoList(env: Env, steps: seq<Step>, i: nat): seq<nat>
    requires i <= |steps|
  {
    if i == 0 then [] else (if Undoable(env, steps[i - 1]) then [i - 1] else []) + UndoList(env, steps, i - 1)
  }

  lemma {:induction false} UndoListIs(env: Env, steps: seq<Step>, i: nat)
    requires i <= |steps|
    ensures Descending(UndoList(env, steps, i))
    ensures forall n :: 0 <= n < |UndoList(env, steps, i)| ==> UndoList(env, steps, i)[n] < i
    ensures forall j: nat :: j in UndoList(env, steps, i) <==> j < i && Undoable(env, steps[j])
  {
    if i > 0 {
      UndoListIs(env, steps, i - 1);
    }
  }

  lemma {:induction false} UndoListSame(env: Env, a: seq<Step>, b: seq<Step>, i: nat)
    requires i <= |a| == |b| && forall j :: 0 <= j < i ==> a[j] == b[j]
    ensures UndoList(env, a, i) == UndoList(env, b, i)
  {
    if i > 0 {
      UndoListSame(env, a, b, i - 1);
    }
  }

  lemma UndoCalls(env: Env, step: Step, i: nat)
    ensures CompensateCalls(UndoEffects(env, step, i)) == if Undoable(env, step) then [i] else []
  {
    if Undoable(env, step) {
      var call, write := [Compensate(i, env.compensate(i))], [StoreStatus(i, Compensated)];
      assert CompensateCalls(write) == [] && CompensateCalls(call) == [i];
      CompensateCallsSplit(call, write);
      assert [Compensate(i, true), StoreStatus(i, Compensated)] == [Compensate(i, true)] + write;
    }
  }

  lemma {:induction false} BackwardCalls(env: Env, steps: seq<Step>, i: nat)
    requires i <= |steps|
    ensures CompensateCalls(Backward(env, steps, i).1) == UndoList(env, steps, i)
    decreases i
  {
    if i > 0 {
      var steps' := steps[i - 1 := UndoResult(env, steps[i - 1], i - 1)];
      BackwardCalls(env, steps', i - 1);
      UndoListSame(env, steps, steps', i - 1);
      UndoneFirst(env, steps, i, Backward(env, steps', i - 1).1);
    }
  }

  lemma UndoneFirst(env: Env, steps: seq<Step>, i: nat, rest: seq<Effect>)
    requires 0 < i <= |steps| && Backward(env, steps, i).1 == UndoEffects(env, steps[i - 1], i - 1) + rest
    requires CompensateCalls(rest) == UndoList(env, steps, i - 1)
    ensures CompensateCalls(Backward(env, steps, i).1) == UndoList(env, steps, i)
  {
    var undo := UndoEffects(env, steps[i - 1], i - 1);
    UndoCalls(env, steps[i - 1], i - 1);
    CompensateCallsSplit(undo, rest);
    assert CompensateCalls(undo + rest)
      == (if Undoable(env, steps[i - 1]) then [i - 1] else []) + UndoList(env, steps, i - 1);
  }

  lemma {:induction false} NoCompensateCalls(t: seq<Effect>)
    requires forall e :: e in t ==> !e.Compensate?
    ensures CompensateCalls(t) == []
    decreases |t|
  {
    if t != [] {
      NoCompensateCalls(t[1..]);
    }
  }

  lemma WrappedCompensateCalls(a: Effect, t: seq<Effect>, b: Effect)
    requires !a.Compensate? && !b.Compensate?
    ensures CompensateCalls([a] + t + [b]) == CompensateCalls(t)
  {
    CompensateCallsSplit([a] + t, [b]);
    CompensateCallsSplit([a], t);
  }

  lemma ForwardCompensatesNone(env: Env, s: SagaRecord, k: nat)
    requires s.currentStep <= k && FirstFailure(env, s.steps, k)
    ensures CompensateCalls(Forward(env, s).1) == []
  {
    forall e | e in Forward(env, s).1
      ensures !e.Compensate?
    {
      ForwardCalls(env, s, k, e);
    }
    NoCompensateCalls(Forward(env, s).1);
  }

  lemma CompensationCalls(env: Env, mid: SagaRecord)
    requires mid.currentStep <= |mid.steps|
    ensures CompensateCalls(Tail(env, mid))
      == if mid.currentStep == |mid.steps| then [] else UndoList(env, mid.steps, mid.currentStep)
  {
    if mid.currentStep < |mid.steps| {
      BackwardCalls(env, mid.steps, mid.currentStep);
      WrappedCompensateCalls(StoreState(SagaFailed), Backward(env, mid.steps, mid.currentStep).1,
        StoreState(SagaCompensated));
    } else {
      NoCompensateCalls(Tail(env, mid));
    }
  }

  lemma RunCompensates(env: Env, s: SagaRecord, k: nat)
    requires s.currentStep == 0 && FirstFailure(env, s.steps, k)
    ensures var mid := Forward(env, s.(state := InProgress)).0;
      && |mid.steps| == |s.steps|
      && CompensateCalls(Execution(env, s).1) == if k == |s.steps| then [] else UndoList(env, mid.steps, k)
  {
    var start := s.(state := InProgress);
    ForwardReaches(env, start, k);
    var (mid, f) := Forward(env, start);
    RunIs(env, s);
    ForwardCompensatesNone(env, start, k);
    CompensationCalls(env, mid);
    CompensateCallsSplit([StoreState(InProgress)], f + Tail(env, mid));
    CompensateCallsSplit(f, Tail(env, mid));
    assert CompensateCalls([StoreState(InProgress)]) == [];
  }

  /** A run compensates, once each and in strictly decreasing order, exactly the
      steps before the failing one that have a compensation; a completed run none. */
  lemma CompensationOrder(env: Env, s: SagaRecord, k: nat, j: nat)
    requires s.currentStep == 0 && FirstFailure(env, s.steps, k)
    ensures Descending(CompensateCalls(Execution(env, s).1))
    ensures j in CompensateCalls(Execution(env, s).1) <==> k < |s.steps| && j < k && s.steps[j].compensateAction != ""
  {
    RunCompensates(env, s, k);
    ForwardReaches(env, s.(state := InProgress), k);
    UndoListIs(env, Forward(env, s.(state := InProgress)).0.steps, k);
    if j < k {
      StepOkIsSucceeds(env, s.steps[j], j);
    }
  }

  // ---------- what is stored at a crash ----------

  /** Where a run has got to: its stored row, and how many successful executions of any
      step, executions of step `d` and compensations of step `d` have been called. */
  datatype Point = Point(row: SagaRecord, executed: nat, charged: nat, undone: nat)

  function Begin(row: SagaRecord): Point
  {
    Point(row, 0, 0, 0)
  }

  function Tick(p: Point, e: Effect, d: nat): Point
  {
    match e
    case Execute(i, _, ok) =>
      if ok then p.(executed := p.executed + 1, charged := p.charged + if i == d then 1 else 0) else p
    case Compensate(i, ok) =>
      if ok && i == d then p.(undone := p.undone + 1) else p
    case _ => p.(row := Store(p.row, e))
  }

  function After(p: Point, t: seq<Effect>, d: nat): Point
    decreases |t|
  {
    if t == [] then p else After(Tick(p, t[0], d), t[1..], d)
  }

  lemma {:induction false} AfterSplits(p: Point, a: seq<Effect>, b: seq<Effect>, d: nat)
    ensures After(p, a + b, d) == After(After(p, a, d), b, d)
    decreases |a|
  {
    if a == [] {
      assert a + b == b;
    } else {
      assert (a + b)[1..] == a[1..] + b;
      AfterSplits(Tick(p, a[0], d), a[1..], b, d);
    }
  }

  lemma AfterOne(p: Point, e: Effect, rest: seq<Effect>, d: nat)
    ensures After(p, [e] + rest, d) == After(Tick(p, e, d), rest, d)
  {
    assert ([e] + rest)[1..] == rest;
  }

  lemma {:induction false} AfterRow(p: Point, t: seq<Effect>, d: nat)
    ensures After(p, t, d).row == Replay(p.row, t)
    decreases |t|
  {
    if t != [] {
      AfterRow(Tick(p, t[0], d), t[1..], d);
    }
  }

  predicate Passed(step: Step)
  {
    step.status == Completed || step.status == Compensated
  }

  /** The number of leading steps stored as completed (or since compensated). */
  function Frontier(steps: seq<Step>): nat
  {
    if steps == [] || !Passed(steps[0]) then 0 else 1 + Frontier(steps[1..])
  }

  lemma {:induction false} FrontierIs(steps: seq<Step>, n: nat)
    requires n <= |steps| && forall j :: 0 <= j < n ==> Passed(steps[j])
    requires n < |steps| ==> !Passed(steps[n])
    ensures Frontier(steps) == n
  {
    if n > 0 {
      FrontierIs(steps[1..], n - 1);
    }
  }

  /** What holds of the stored row and the calls made so far at a crash point. */
  predicate Durable(p: Point, d: nat)
  {
    && p.row.currentStep == 0
    && (Frontier(p.row.steps) == p.executed || Frontier(p.row.steps) + 1 == p.executed)
    && p.charged == (if p.executed > d then 1 else 0)
    && p.undone <= p.charged
    && (p.row.state == InProgress ==> p.undone == 0)
  }

  /** `Durable` at `p` and after each effect of `t`. */
  predicate Always(p: Point, t: seq<Effect>, d: nat)
    decreases |t|
  {
    Durable(p, d) && (t != [] ==> Always(Tick(p, t[0], d), t[1..], d))
  }

  lemma {:induction false} AlwaysJoins(p: Point, a: seq<Effect>, b: seq<Effect>, d: nat)
    requires Always(p, a, d) && Always(After(p, a, d), b, d)
    ensures Always(p, a + b, d)
    decreases |a|
  {
    if a == [] {
      assert a + b == b;
    } else {
      assert (a + b)[1..] == a[1..] + b;
      AlwaysJoins(Tick(p, a[0], d), a[1..], b, d);
    }
  }

  lemma AlwaysOne(p: Point, e: Effect, rest: seq<Effect>, d: nat)
    requires Durable(p, d) && Always(Tick(p, e, d), rest, d)
    ensures Always(p, [e] + rest, d)
  {
    assert ([e] + rest)[1..] == rest;
  }

  lemma {:induction false} AlwaysAt(p: Point, t: seq<Effect>, d: nat, m: nat)
    requires Always(p, t, d) && m <= |t|
    ensures Durable(After(p, t[..m], d), d)
    decreases m
  {
    if m > 0 {
      assert t[..m][1..] == t[1..][..m - 1];
      AlwaysAt(Tick(p, t[0], d), t[1..], d, m - 1);
    }
  }

  /** Between steps of the forward part: exactly the first `c` steps have been executed and stored. */
  predicate AtStep(p: Point, d: nat, c: nat, n: nat)
  {
    && c <= n == |p.row.steps| && p.row.currentStep == 0 && p.row.state == InProgress
    && (forall j :: 0 <= j < c ==> Passed(p.row.steps[j]))
    && (forall j :: c <= j < n ==> !Passed(p.row.steps[j]))
    && p.executed == c && p.charged == (if c > d then 1 else 0) && p.undone == 0
  }

  lemma AtStepDurable(p: Point, d: nat, c: nat, n: nat)
    requires AtStep(p, d, c, n)
    ensures Durable(p, d)
  {
    FrontierIs(p.row.steps, c);
  }

  /** The attempts of step `i` count one success at most, and write nothing. */
  function Tried(p: Point, i: nat, d: nat, ok: bool): Point
  {
    if ok then p.(executed := p.executed + 1, charged := p.charged + if i == d then 1 else 0) else p
  }

  lemma {:induction false} AttemptsAfter(env: Env, i: nat, a: nat, max: nat, p: Point, d: nat)
    requires a <= max + 1
    ensures After(p, Attempts(env, i, a, max), d) == Tried(p, i, d, FirstOk(env, i, a, max) <= max)
    decreases max + 1 - a
  {
    if a <= max {
      if env.execute(i, a) {
        AfterOne(p, Execute(i, a, true), [], d);
        assert Attempts(env, i, a, max) == [Execute(i, a, true)] + [];
      } else {
        AfterOne(p, Execute(i, a, false), Attempts(env, i, a + 1, max), d);
        AttemptsAfter(env, i, a + 1, max, p, d);
      }
    }
  }

  lemma {:induction false} AttemptsDurable(env: Env, i: nat, a: nat, max: nat, p: Point, d: nat, n: nat)
    requires a <= max + 1 && i < n && AtStep(p, d, i, n)
    ensures Always(p, Attempts(env, i, a, max), d)
    decreases max + 1 - a
  {
    AtStepDurable(p, d, i, n);
    if a <= max {
      if env.execute(i, a) {
        FrontierIs(p.row.steps, i);
        AlwaysOne(p, Execute(i, a, true), [], d);
        assert Attempts(env, i, a, max) == [Execute(i, a, true)] + [];
      } else {
        AttemptsDurable(env, i, a + 1, max, p, d, n);
        AlwaysOne(p, Execute(i, a, false), Attempts(env, i, a + 1, max), d);
      }
    }
  }

  /** A step's effects: the executing mark, the attempts, the outcome. */
  lemma StepAfter(env: Env, step: Step, i: nat, p: Point, d: nat)
    requires i < |p.row.steps|
    ensures var q := After(p, StepEffects(env, step, i), d);
      var r := Tried(p, i, d, StepOk(env, step, i));
      && (q.executed, q.charged, q.undone) == (r.executed, r.charged, r.undone)
      && q.row == if step.service !in env.executors then p.row
         else Store(Store(p.row, StoreStatus(i, Executing)),
           StoreStatus(i, if StepOk(env, step, i) then Completed else Failed))
  {
    if step.service in env.executors {
      var mid := Attempts(env, i, 0, step.maxRetries);
      var last := StoreStatus(i, if StepOk(env, step, i) then Completed else Failed);
      var p1 := Tick(p, StoreStatus(i, Executing), d);
      AttemptsAfter(env, i, 0, step.maxRetries, p1, d);
      AfterSplits(p1, mid, [last], d);
      AfterOne(After(p1, mid, d), last, [], d);
      assert [last] == [last] + [];
      AfterOne(p, StoreStatus(i, Executing), mid + [last], d);
      assert StepEffects(env, step, i) == [StoreStatus(i, Executing)] + (mid + [last]);
    }
  }

  lemma StepDurable(env: Env, step: Step, i: nat, p: Point, d: nat, n: nat)
    requires i < n && AtStep(p, d, i, n)
    ensures Always(p, StepEffects(env, step, i), d)
    ensures AtStep(After(p, StepEffects(env, step, i), d), d, if StepOk(env, step, i) then i + 1 else i, n)
  {
    AtStepDurable(p, d, i, n);
    StepAfter(env, step, i, p, d);
    if step.service in env.executors {
      var mid := Attempts(env, i, 0, step.maxRetries);
      var last := StoreStatus(i, if StepOk(env, step, i) then Completed else Failed);
      var p1 := Tick(p, StoreStatus(i, Executing), d);
      AttemptsDurable(env, i, 0, step.maxRetries, p1, d, n);
      AttemptsAfter(env, i, 0, step.maxRetries, p1, d);
      var p2 := After(p1, mid, d);
      FrontierIs(p2.row.steps, i);
      var p3 := Tick(p2, last, d);
      AtStepDurable(p3, d, if StepOk(env, step, i) then i + 1 else i, n);
      AlwaysOne(p2, last, [], d);
      assert [last] == [last] + [];
      AlwaysJoins(p1, mid, [last], d);
      AlwaysOne(p, StoreStatus(i, Executing), mid + [last], d);
      assert StepEffects(env, step, i) == [StoreStatus(i, Executing)] + (mid + [last]);
    }
  }

  lemma {:induction false} ForwardDurable(env: Env, s: SagaRecord, p: Point, d: nat)
    requires s.currentStep <= |s.steps| && AtStep(p, d, s.currentStep, |s.steps|)
    ensures Always(p, Forward(env, s).1, d)
    ensures AtStep(After(p, Forward(env, s).1, d), d, Forward(env, s).0.currentStep, |s.steps|)
    decreases |s.steps| - s.currentStep
  {
    AtStepDurable(p, d, s.currentStep, |s.steps|);
    var i := s.currentStep;
    if i < |s.steps| {
      var t := StepEffects(env, s.steps[i], i);
      StepDurable(env, s.steps[i], i, p, d, |s.steps|);
      if StepOk(env, s.steps[i], i) {
        var s1 := s.(steps := s.steps[i := StepResult(env, s.steps[i], i)], currentStep := i + 1);
        ForwardDurable(env, s1, After(p, t, d), d);
        AlwaysJoins(p, t, Forward(env, s1).1, d);
        AfterSplits(p, t, Forward(env, s1).1, d);
      }
    }
  }

  /** During compensation, before step `i - 1` is looked at: the first `k` steps have passed. */
  predicate Undoing(p: Point, d: nat, i: nat, k: nat)
  {
    && i <= k <= |p.row.steps| && p.row.currentStep == 0 && p.row.state == SagaFailed
    && (forall j :: 0 <= j < k ==> Passed(p.row.steps[j]))
    && (k < |p.row.steps| ==> !Passed(p.row.steps[k]))
    && p.executed == k && p.charged == (if k > d then 1 else 0)
    && p.undone <= p.charged && (d < i ==> p.undone == 0)
  }

  lemma UndoingDurable(p: Point, d: nat, i: nat, k: nat)
    requires Undoing(p, d, i, k)
    ensures Durable(p, d)
  {
    FrontierIs(p.row.steps, k);
  }

  lemma UndoAfter(env: Env, step: Step, i: nat, p: Point, d: nat)
    ensures var q := After(p, UndoEffects(env, step, i), d);
      var done := Undoable(env, step) && env.compensate(i);
      && (q.executed, q.charged) == (p.executed, p.charged)
      && q.undone == p.undone + (if done && i == d then 1 else 0)
      && q.row == if done then Store(p.row, StoreStatus(i, Compensated)) else p.row
  {
    if Undoable(env, step) {
      var call := Compensate(i, env.compensate(i));
      var write := StoreStatus(i, Compensated);
      assert [write] == [write] + [] && [call] == [call] + [] && [call, write] == [call] + [write];
      AfterOne(p, call, if env.compensate(i) then [write] else [], d);
      AfterOne(Tick(p, call, d), write, [], d);
    }
  }

  lemma UndoStepDurable(env: Env, step: Step, i: nat, p: Point, d: nat, k: nat)
    requires Undoing(p, d, i + 1, k)
    ensures Always(p, UndoEffects(env, step, i), d)
    ensures Undoing(After(p, UndoEffects(env, step, i), d), d, i, k)
  {
    UndoAfter(env, step, i, p, d);
    UndoingDurable(p, d, i + 1, k);
    if Undoable(env, step) {
      var call := Compensate(i, env.compensate(i));
      var write := StoreStatus(i, Compensated);
      assert [write] == [write] + [] && [call] == [call] + [] && [call, write] == [call] + [write];
      var p1 := Tick(p, call, d);
      UndoingDurable(p1, d, i, k);
      if env.compensate(i) {
        UndoingDurable(Tick(p1, write, d), d, i, k);
        AlwaysOne(p1, write, [], d);
        AlwaysOne(p, call, [write], d);
      } else {
        AlwaysOne(p, call, [], d);
      }
    }
  }

  lemma {:induction false} BackwardDurable(env: Env, steps: seq<Step>, i: nat, p: Point, d: nat, k: nat)
    requires i <= |steps| && Undoing(p, d, i, k)
    ensures Always(p, Backward(env, steps, i).1, d)
    ensures Undoing(After(p, Backward(env, steps, i).1, d), d, 0, k)
    decreases i
  {
    UndoingDurable(p, d, i, k);
    if i > 0 {
      var steps' := steps[i - 1 := UndoResult(env, steps[i - 1], i - 1)];
      var t := UndoEffects(env, steps[i - 1], i - 1);
      UndoStepDurable(env, steps[i - 1], i - 1, p, d, k);
      BackwardDurable(env, steps', i - 1, After(p, t, d), d, k);
      AlwaysJoins(p, t, Backward(env, steps', i - 1).1, d);
      AfterSplits(p, t, Backward(env, steps', i - 1).1, d);
    }
  }

  /** A saga as `StartPaymentSaga` stores it: nothing begun. */
  predicate Fresh(s: SagaRecord)
  {
    s.state == Started && s.currentStep == 0 && forall j :: 0 <= j < |s.steps| ==> s.steps[j].status == Pending
  }

  lemma CompensationDurable(env: Env, s: SagaRecord, p: Point, d: nat)
    requires s.currentStep < |s.steps| && AtStep(p, d, s.currentStep, |s.steps|)
    ensures Always(p, Compensation(env, s).1, d)
  {
    var k := s.currentStep;
    var failed, t, done := StoreState(SagaFailed), Backward(env, s.steps, k).1, StoreState(SagaCompensated);
    AtStepDurable(p, d, k, |s.steps|);
    var p1 := Tick(p, failed, d);
    BackwardDurable(env, s.steps, k, p1, d, k);
    var p2 := After(p1, t, d);
    UndoingDurable(p2, d, 0, k);
    AlwaysOne(p2, done, [], d);
    assert [done] == [done] + [];
    AlwaysJoins(p1, t, [done], d);
    AlwaysOne(p, failed, t + [done], d);
    assert Compensation(env, s).1 == [failed] + (t + [done]);
  }

  lemma TailDurable(env: Env, mid: SagaRecord, p: Point, d: nat)
    requires mid.currentStep <= |mid.steps| && AtStep(p, d, mid.currentStep, |mid.steps|)
    ensures Always(p, Tail(env, mid), d)
  {
    AtStepDurable(p, d, mid.currentStep, |mid.steps|);
    if mid.currentStep < |mid.steps| {
      CompensationDurable(env, mid, p, d);
    } else {
      AlwaysOne(p, StoreState(SagaCompleted), [], d);
      assert Tail(env, mid) == [StoreState(SagaCompleted)] + [];
    }
  }

  lemma RunDurable(env: Env, s: SagaRecord, d: nat)
    requires Fresh(s)
    ensures Always(Begin(s), Execution(env, s).1, d)
  {
    var start := s.(state := InProgress);
    ForwardBounds(env, start);
    var (mid, f) := Forward(env, start);
    ForwardDurable(env, start, Begin(start), d);
    TailDurable(env, mid, After(Begin(start), f, d), d);
    AlwaysJoins(Begin(start), f, Tail(env, mid), d);
    FrontierIs(s.steps, 0);
    AlwaysOne(Begin(s), StoreState(InProgress), f + Tail(env, mid), d);
    RunIs(env, s);
  }

  /** Stop the run after any number of its effects.  The stored `current_step` is
      still 0; the leading steps stored as passed are the successful executions so
      far, or one fewer, so resuming from that frontier would repeat at most one
      successful step; and step `d` has been executed exactly when more than `d` have. */
  lemma CrashPoint(env: Env, s: SagaRecord, d: nat, m: nat)
    requires Fresh(s) && m <= |Execution(env, s).1|
    ensures var made := Execution(env, s).1[..m];
      After(Begin(s), made, d).row == Replay(s, made) && Durable(After(Begin(s), made, d), d)
  {
    RunDurable(env, s, d);
    AlwaysAt(Begin(s), Execution(env, s).1, d, m);
    AfterRow(Begin(s), Execution(env, s).1[..m], d);
  }

  // ---------- what it costs the wallet ----------

  /** The wallet's balance when step `d` deducts `amount` and its compensation returns it, each atomically. */
  function Settle(balance: int, t: seq<Effect>, d: nat, amount: int): int
    decreases |t|
  {
    if t == [] then balance
    else Settle(Moved(balance, t[0], d, amount), t[1..], d, amount)
  }

  function Moved(balance: int, e: Effect, d: nat, amount: int): int
  {
    match e
    case Execute(i, _, ok) => if ok && i == d then balance - amount else balance
    case Compensate(i, ok) => if ok && i == d then balance + amount else balance
    case _ => balance
  }

  lemma {:induction false} SettleSplits(balance: int, a: seq<Effect>, b: seq<Effect>, d: nat, amount: int)
    ensures Settle(balance, a + b, d, amount) == Settle(Settle(balance, a, d, amount), b, d, amount)
    decreases |a|
  {
    if a == [] {
      assert a + b == b;
    } else {
      assert (a + b)[1..] == a[1..] + b;
      SettleSplits(Moved(balance, a[0], d, amount), a[1..], b, d, amount);
    }
  }

  /** A point's deductions not yet undone. */
  function Owed(p: Point): int
  {
    p.charged - p.undone
  }

  lemma MovedIs(p: Point, balance: int, e: Effect, d: nat, amount: int)
    ensures Moved(balance, e, d, amount) == balance - (Owed(Tick(p, e, d)) - Owed(p)) * amount
  {
  }

  lemma Distribute(a: int, b: int, c: int)
    ensures (a + b) * c == a * c + b * c
  {
  }

  lemma {:induction false} SettleIs(p: Point, balance: int, t: seq<Effect>, d: nat, amount: int)
    ensures Settle(balance, t, d, amount) == balance - (Owed(After(p, t, d)) - Owed(p)) * amount
    decreases |t|
  {
    if t != [] {
      var q := Tick(p, t[0], d);
      SettleIs(q, Moved(balance, t[0], d, amount), t[1..], d, amount);
      MovedIs(p, balance, t[0], d, amount);
      Distribute(Owed(After(q, t[1..], d)) - Owed(q), Owed(q) - Owed(p), amount);
    }
  }

  lemma {:induction false} ForwardAfter(env: Env, s: SagaRecord, p: Point, d: nat)
    requires s.currentStep <= |s.steps| == |p.row.steps|
    ensures var r := Forward(env, s).0; var q := After(p, Forward(env, s).1, d);
      && s.currentStep <= r.currentStep && |q.row.steps| == |p.row.steps|
      && q.charged == p.charged + (if s.currentStep <= d < r.currentStep then 1 else 0)
      && q.undone == p.undone
    decreases |s.steps| - s.currentStep
  {
    var i := s.currentStep;
    if i < |s.steps| {
      var t := StepEffects(env, s.steps[i], i);
      StepAfter(env, s.steps[i], i, p, d);
      if StepOk(env, s.steps[i], i) {
        var s1 := s.(steps := s.steps[i := StepResult(env, s.steps[i], i)], currentStep := i + 1);
        ForwardAfter(env, s1, After(p, t, d), d);
        AfterSplits(p, t, Forward(env, s1).1, d);
      }
    }
  }

  lemma {:induction false} BackwardAfter(env: Env, steps: seq<Step>, i: nat, p: Point, d: nat)
    requires i <= |steps|
    ensures var q := After(p, Backward(env, steps, i).1, d);
      && q.charged == p.charged
      && q.undone == p.undone + (if d < i && Undoable(env, steps[d]) && env.compensate(d) then 1 else 0)
    decreases i
  {
    if i > 0 {
      var steps' := steps[i - 1 := UndoResult(env, steps[i - 1], i - 1)];
      var t := UndoEffects(env, steps[i - 1], i - 1);
      UndoAfter(env, steps[i - 1], i - 1, p, d);
      BackwardAfter(env, steps', i - 1, After(p, t, d), d);
      AfterSplits(p, t, Backward(env, steps', i - 1).1, d);
    }
  }

  lemma CompensationAfter(env: Env, s: SagaRecord, p: Point, d: nat)
    requires s.currentStep <= |s.steps|
    ensures var q := After(p, Compensation(env, s).1, d);
      && q.charged == p.charged
      && q.undone == p.undone + (if d < s.currentStep && Undoable(env, s.steps[d]) && env.compensate(d) then 1 else 0)
  {
    var t, done := Backward(env, s.steps, s.currentStep).1, StoreState(SagaCompensated);
    var p1 := Tick(p, StoreState(SagaFailed), d);
    BackwardAfter(env, s.steps, s.currentStep, p1, d);
    AfterSplits(p1, t, [done], d);
    AfterOne(After(p1, t, d), done, [], d);
    assert [done] == [done] + [];
    AfterOne(p, StoreState(SagaFailed), t + [done], d);
    assert Compensation(env, s).1 == [StoreState(SagaFailed)] + (t + [done]);
  }

  lemma TailAfter(env: Env, mid: SagaRecord, p: Point, d: nat)
    requires mid.currentStep <= |mid.steps|
    ensures var q := After(p, Tail(env, mid), d);
      && q.charged == p.charged
      && q.undone == p.undone
         + (if mid.currentStep < |mid.steps| && d < mid.currentStep && Undoable(env, mid.steps[d]) && env.compensate(d)
           then 1 else 0)
  {
    if mid.currentStep == |mid.steps| {
      AfterOne(p, StoreState(SagaCompleted), [], d);
      assert Tail(env, mid) == [StoreState(SagaCompleted)] + [];
    } else {
      CompensationAfter(env, mid, p, d);
    }
  }

  /** A run from step 0 executes step `d` successfully once when it gets past it,
      and undoes it once when it then fails and the compensation works. */
  lemma RunAfter(env: Env, s: SagaRecord, k: nat, d: nat)
    requires s.currentStep == 0 && FirstFailure(env, s.steps, k)
    ensures var q := After(Begin(s), Execution(env, s).1, d);
      && q.charged == (if d < k then 1 else 0)
      && q.undone == (if k < |s.steps| && d < k && s.steps[d].compensateAction != "" && env.compensate(d) then 1 else 0)
  {
    var start := s.(state := InProgress);
    ForwardReaches(env, start, k);
    ForwardAfter(env, start, Begin(start), d);
    var (mid, f) := Forward(env, start);
    if d < k {
      StepOkIsSucceeds(env, s.steps[d], d);
    }
    TailAfter(env, mid, After(Begin(start), f, d), d);
    AfterSplits(Begin(start), f, Tail(env, mid), d);
    AfterOne(Begin(s), StoreState(InProgress), f + Tail(env, mid), d);
    RunIs(env, s);
  }

  /** A run from step 0 charges step `d` once if it gets past it, unless it then
      fails at a later step and the compensation works. */
  lemma SagaNet(env: Env, s: SagaRecord, k: nat, d: nat, balance: int, amount: int)
    requires s.currentStep == 0 && FirstFailure(env, s.steps, k)
    ensures Settle(balance, Execution(env, s).1, d, amount)
      == if d < k && !(k < |s.steps| && s.steps[d].compensateAction != "" && env.compensate(d)) then balance - amount
         else balance
  {
    RunAfter(env, s, k, d);
    SettleIs(Begin(s), balance, Execution(env, s).1, d, amount);
  }

  /** The payment saga charges its amount exactly once when it completes.  When it
      does not, the wallet is back where it was, unless the deduction had succeeded
      and its refund was called and failed. */
  lemma PaymentSagaNet(env: Env, k: nat, balance: int, amount: int)
    requires FirstFailure(env, PaymentSteps(), k)
    ensures Settle(balance, Execution(env, PaymentSaga()).1, DEDUCT, amount)
      == if k == 4 || (k > DEDUCT && !env.compensate(DEDUCT)) then balance - amount else balance
  {
    SagaNet(env, PaymentSaga(), k, DEDUCT, balance, amount);
    assert PaymentSteps()[DEDUCT].compensateAction == "refund_balance";
  }
}
