/** The order of a run's writes and calls: nothing is called before it is marked, and
    nothing is stored before it has happened. */
module SagaWrites {
  import opened Saga
  import opened SagaTheorems
  import opened SagaRows

  predicate StoredAs(row: SagaRecord, i: nat, status: StepStatus)
  {
    i < |row.steps| && row.steps[i].status == status
  }

  predicate ExecutedOk(made: seq<Effect>, i: nat)
  {
    exists e :: e in made && e.Execute? && e.i == i && e.ok
  }

  /** What has to be stored, or to have been called, before an effect. */
  predicate Earned(row: SagaRecord, made: seq<Effect>, e: Effect)
  {
    match e
    case Execute(i, _, _) => StoredAs(row, i, Executing) && !ExecutedOk(made, i)
    case Compensate(i, _) => row.state == SagaFailed && StoredAs(row, i, Completed)
    case StoreStatus(i, Executing) => !ExecutedOk(made, i)
    case StoreStatus(i, Completed) => StoredAs(row, i, Executing) && ExecutedOk(made, i)
    case StoreStatus(i, Failed) => StoredAs(row, i, Executing) && !ExecutedOk(made, i)
    case StoreStatus(i, Compensated) => StoredAs(row, i, Completed) && Compensate(i, true) in made
    case StoreStatus(_, Pending) => false
    case StoreState(SagaCompleted) => forall j :: 0 <= j < |row.steps| ==> row.steps[j].status == Completed
    case StoreState(_) => true
  }

  /** Each effect of `t` is earned where it comes, after `made`, on `row`. */
  predicate Orderly(row: SagaRecord, made: seq<Effect>, t: seq<Effect>)
    decreases |t|
  {
    t != [] ==> Earned(row, made, t[0]) && Orderly(Store(row, t[0]), made + [t[0]], t[1..])
  }

  lemma {:induction false} OrderlyJoins(row: SagaRecord, made: seq<Effect>, a: seq<Effect>, b: seq<Effect>)
    requires Orderly(row, made, a) && Orderly(Replay(row, a), made + a, b)
    ensures Orderly(row, made, a + b)
    decreases |a|
  {
    if a == [] {
      assert a + b == b && made + a == made;
    } else {
      assert (a + b)[1..] == a[1..] + b && made + a == (made + [a[0]]) + a[1..];
      OrderlyJoins(Store(row, a[0]), made + [a[0]], a[1..], b);
    }
  }

  lemma {:induction false} OrderlyAt(row: SagaRecord, made: seq<Effect>, t: seq<Effect>, m: nat)
    requires Orderly(row, made, t) && m < |t|
    ensures Earned(Replay(row, t[..m]), made + t[..m], t[m])
    decreases m
  {
    if m == 0 {
      assert made + t[..0] == made;
    } else {
      assert t[..m][1..] == t[1..][..m - 1] && made + t[..m] == (made + [t[0]]) + t[1..][..m - 1];
      OrderlyAt(Store(row, t[0]), made + [t[0]], t[1..], m - 1);
    }
  }

  lemma OrderlyOne(row: SagaRecord, made: seq<Effect>, e: Effect)
    requires Earned(row, made, e)
    ensures Orderly(row, made, [e])
  {
    assert [e][1..] == [];
  }

  // ---------- forward ----------

  /** Only steps before `i` have been executed. */
  predicate OnlyBefore(made: seq<Effect>, i: nat)
  {
    forall e :: e in made && e.Execute? ==> e.i < i
  }

  lemma {:induction false} AttemptsOrderly(env: Env, i: nat, a: nat, max: nat, row: SagaRecord, made: seq<Effect>)
    requires a <= max + 1 && StoredAs(row, i, Executing) && !ExecutedOk(made, i)
    ensures Orderly(row, made, Attempts(env, i, a, max)) && Replay(row, Attempts(env, i, a, max)) == row
    decreases max + 1 - a
  {
    if a <= max {
      var e := Execute(i, a, env.execute(i, a));
      var rest := if e.ok then [] else Attempts(env, i, a + 1, max);
      assert Attempts(env, i, a, max)[1..] == rest;
      if !e.ok {
        AttemptsOrderly(env, i, a + 1, max, row, made + [e]);
      }
    }
  }

  lemma StepExecutes(env: Env, step: Step, i: nat, made: seq<Effect>)
    requires OnlyBefore(made, i)
    ensures OnlyBefore(made + StepEffects(env, step, i), i + 1)
    ensures !ExecutedOk(made, i)
    ensures ExecutedOk(made + ([StoreStatus(i, Executing)] + Attempts(env, i, 0, step.maxRetries)), i)
      <==> FirstOk(env, i, 0, step.maxRetries) <= step.maxRetries
  {
    var t := made + ([StoreStatus(i, Executing)] + Attempts(env, i, 0, step.maxRetries));
    forall e | e in made + StepEffects(env, step, i) && e.Execute?
      ensures e.i < i + 1
    {
      if e !in made {
        StepCalls(env, step, i, e);
      }
    }
    var k := FirstOk(env, i, 0, step.maxRetries);
    AttemptsAre(env, i, 0, step.maxRetries, Execute(i, k, true));
    if k <= step.maxRetries {
      assert Execute(i, k, true) in t;
    }
    forall e | e in t && e.Execute? && e.i == i && e.ok
      ensures k <= step.maxRetries
    {
      AttemptsAre(env, i, 0, step.maxRetries, e);
    }
  }

  lemma StepOrderly(env: Env, step: Step, i: nat, row: SagaRecord, made: seq<Effect>)
    requires i < |row.steps| && OnlyBefore(made, i)
    ensures Orderly(row, made, StepEffects(env, step, i))
  {
    if step.service in env.executors {
      var mark, last := StoreStatus(i, Executing), StoreStatus(i, if StepOk(env, step, i) then Completed else Failed);
      var mid := Attempts(env, i, 0, step.maxRetries);
      var row1 := Store(row, mark);
      StepExecutes(env, step, i, made);
      OrderlyOne(row, made, mark);
      ReplayOne(row, mark);
      AttemptsOrderly(env, i, 0, step.maxRetries, row1, made + [mark]);
      OrderlyJoins(row, made, [mark], mid);
      ReplaySplits(row, [mark], mid);
      OrderlyOne(row1, made + ([mark] + mid), last);
      OrderlyJoins(row, made, [mark] + mid, [last]);
    }
  }

  lemma {:induction false} ForwardOrderly(env: Env, s: SagaRecord, row: SagaRecord, made: seq<Effect>)
    requires s.currentStep <= |s.steps| == |row.steps| && OnlyBefore(made, s.currentStep)
    ensures Orderly(row, made, Forward(env, s).1)
    decreases |s.steps| - s.currentStep
  {
    var i := s.currentStep;
    if i < |s.steps| {
      var t := StepEffects(env, s.steps[i], i);
      StepOrderly(env, s.steps[i], i, row, made);
      if StepOk(env, s.steps[i], i) {
        var s1 := s.(steps := s.steps[i := StepResult(env, s.steps[i], i)], currentStep := i + 1);
        StepExecutes(env, s.steps[i], i, made);
        StepRow(env, s.steps[i], i, row);
        ForwardOrderly(env, s1, Replay(row, t), made + t);
        OrderlyJoins(row, made, t, Forward(env, s1).1);
      }
    }
  }

  // ---------- backward ----------

  lemma UndoOrderly(env: Env, step: Step, i: nat, row: SagaRecord, made: seq<Effect>)
    requires row.state == SagaFailed && StoredAs(row, i, step.status)
    ensures Orderly(row, made, UndoEffects(env, step, i))
  {
    if Undoable(env, step) {
      var call, write := Compensate(i, env.compensate(i)), StoreStatus(i, Compensated);
      OrderlyOne(row, made, call);
      if call.ok {
        ReplayOne(row, call);
        OrderlyOne(row, made + [call], write);
        OrderlyJoins(row, made, [call], [write]);
        assert [call, write] == [call] + [write];
      }
    }
  }

  lemma {:induction false} BackwardOrderly(env: Env, steps: seq<Step>, i: nat, row: SagaRecord, made: seq<Effect>)
    requires i <= |steps| && MirrorsSteps(row, steps) && row.state == SagaFailed
    ensures Orderly(row, made, Backward(env, steps, i).1)
    decreases i
  {
    if i > 0 {
      var steps' := steps[i - 1 := UndoResult(env, steps[i - 1], i - 1)];
      var t := UndoEffects(env, steps[i - 1], i - 1);
      UndoOrderly(env, steps[i - 1], i - 1, row, made);
      UndoRow(env, steps[i - 1], i - 1, row);
      BackwardOrderly(env, steps', i - 1, Replay(row, t), made + t);
      OrderlyJoins(row, made, t, Backward(env, steps', i - 1).1);
    }
  }

  lemma CompensationOrderly(env: Env, s: SagaRecord, row: SagaRecord, made: seq<Effect>)
    requires s.currentStep <= |s.steps| && MirrorsSteps(row, s.steps)
    ensures Orderly(row, made, Compensation(env, s).1)
  {
    var t := Backward(env, s.steps, s.currentStep).1;
    var failed, done := StoreState(SagaFailed), StoreState(SagaCompensated);
    OrderlyOne(row, made, failed);
    ReplayOne(row, failed);
    BackwardOrderly(env, s.steps, s.currentStep, Store(row, failed), made + [failed]);
    OrderlyJoins(row, made, [failed], t);
    OrderlyOne(Replay(row, [failed] + t), made + ([failed] + t), done);
    OrderlyJoins(row, made, [failed] + t, [done]);
  }

  lemma FinishOrderly(env: Env, mid: SagaRecord, row: SagaRecord, made: seq<Effect>)
    requires mid.currentStep <= |mid.steps| && MirrorsSteps(row, mid.steps)
    requires mid.currentStep == |mid.steps| ==> forall j :: 0 <= j < |mid.steps| ==> mid.steps[j].status == Completed
    ensures Orderly(row, made, Tail(env, mid))
  {
    if mid.currentStep == |mid.steps| {
      OrderlyOne(row, made, StoreState(SagaCompleted));
    } else {
      CompensationOrderly(env, mid, row, made);
    }
  }

  lemma AllCompleted(env: Env, s: SagaRecord)
    requires s.currentStep == 0 && Forward(env, s).0.currentStep == |s.steps|
    ensures var r := Forward(env, s).0; forall j :: 0 <= j < |r.steps| ==> r.steps[j].status == Completed
  {
    var k := SomeFirstFailure(env, s.steps, 0);
    ForwardReaches(env, s, k);
    forall j | 0 <= j < |s.steps|
      ensures StepOk(env, s.steps[j], j)
    {
      StepOkIsSucceeds(env, s.steps[j], j);
    }
  }

  /** From the forward part on. */
  lemma RestOrderly(env: Env, start: SagaRecord, made: seq<Effect>)
    requires start.currentStep == 0 && OnlyBefore(made, 0)
    ensures var (mid, f) := Forward(env, start);
      mid.currentStep <= |mid.steps| && Orderly(start, made, f + Tail(env, mid))
  {
    ForwardBounds(env, start);
    var (mid, f) := Forward(env, start);
    ForwardOrderly(env, start, start, made);
    ForwardMirrors(env, start, start);
    if mid.currentStep == |mid.steps| {
      AllCompleted(env, start);
    }
    FinishOrderly(env, mid, Replay(start, f), made + f);
    OrderlyJoins(start, made, f, Tail(env, mid));
  }

  lemma RunOrderly(env: Env, s: SagaRecord)
    requires s.currentStep == 0
    ensures Orderly(s, [], Execution(env, s).1)
  {
    var start, first := s.(state := InProgress), StoreState(InProgress);
    RestOrderly(env, start, [first]);
    OrderlyOne(s, [], first);
    ReplayOne(s, first);
    assert [] + [first] == [first];
    OrderlyJoins(s, [], [first], Forward(env, start).1 + Tail(env, Forward(env, start).0));
    RunIs(env, s);
  }

  /** At every effect of a run from step 0: a step is executed only while stored as
      executing, and never again once it has succeeded; it is stored as completed only
      after a success and as failed only without one; it is compensated only while stored
      as completed in a saga stored as failed, and stored as compensated only after that
      worked; and the saga is stored as completed only when every step is. */
  lemma WritesFollowCalls(env: Env, s: SagaRecord, m: nat)
    requires s.currentStep == 0 && m < |Execution(env, s).1|
    ensures var t := Execution(env, s).1; Earned(Replay(s, t[..m]), t[..m], t[m])
  {
    var t := Execution(env, s).1;
    RunOrderly(env, s);
    OrderlyAt(s, [], t, m);
    assert [] + t[..m] == t[..m];
  }
}
