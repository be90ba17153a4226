/** The row a run leaves in the saga table against the record it ends with, and what
    that says of the payment saga. */
module SagaRows {
  import opened Saga
  import opened SagaTheorems

  /** A stored row that says of the saga and of each step what the record says. */
  predicate Mirrors(row: SagaRecord, s: SagaRecord)
  {
    row.state == s.state && MirrorsSteps(row, s.steps)
  }

  predicate MirrorsSteps(row: SagaRecord, steps: seq<Step>)
  {
    |row.steps| == |steps| && forall j :: 0 <= j < |steps| ==> row.steps[j].status == steps[j].status
  }

  lemma StepRow(env: Env, step: Step, i: nat, row: SagaRecord)
    requires i < |row.steps|
    ensures Replay(row, StepEffects(env, step, i))
         == if step.service !in env.executors then row
            else row.(steps := row.steps[i :=
                   row.steps[i].(status := if StepOk(env, step, i) then Completed else Failed)])
  {
    StepAfter(env, step, i, Begin(row), 0);
    AfterRow(Begin(row), StepEffects(env, step, i), 0);
  }

  lemma {:induction false} ForwardMirrors(env: Env, s: SagaRecord, row: SagaRecord)
    requires s.currentStep <= |s.steps| && Mirrors(row, s)
    ensures Mirrors(Replay(row, Forward(env, s).1), Forward(env, s).0)
    decreases |s.steps| - s.currentStep
  {
    var i := s.currentStep;
    if i < |s.steps| {
      var t := StepEffects(env, s.steps[i], i);
      StepRow(env, s.steps[i], i, row);
      if StepOk(env, s.steps[i], i) {
        var s1 := s.(steps := s.steps[i := StepResult(env, s.steps[i], i)], currentStep := i + 1);
        ForwardMirrors(env, s1, Replay(row, t));
        ReplaySplits(row, t, Forward(env, s1).1);
      }
    }
  }

  lemma UndoRow(env: Env, step: Step, i: nat, row: SagaRecord)
    ensures Replay(row, UndoEffects(env, step, i))
         == if Undoable(env, step) && env.compensate(i) then Store(row, StoreStatus(i, Compensated)) else row
  {
    UndoAfter(env, step, i, Begin(row), 0);
    AfterRow(Begin(row), UndoEffects(env, step, i), 0);
  }

  lemma {:induction false} BackwardMirrors(env: Env, steps: seq<Step>, i: nat, row: SagaRecord)
    requires i <= |steps| && MirrorsSteps(row, steps)
    ensures MirrorsSteps(Replay(row, Backward(env, steps, i).1), Backward(env, steps, i).0)
    decreases i
  {
    if i > 0 {
      var steps' := steps[i - 1 := UndoResult(env, steps[i - 1], i - 1)];
      var t := UndoEffects(env, steps[i - 1], i - 1);
      UndoRow(env, steps[i - 1], i - 1, row);
      BackwardMirrors(env, steps', i - 1, Replay(row, t));
      ReplaySplits(row, t, Backward(env, steps', i - 1).1);
    }
  }

  lemma ReplayOne(row: SagaRecord, e: Effect)
    ensures Replay(row, [e]) == Store(row, e)
  {
    assert [e][1..] == [];
  }

  lemma CompensationMirrors(env: Env, s: SagaRecord, row: SagaRecord)
    requires s.currentStep <= |s.steps| && MirrorsSteps(row, s.steps)
    ensures Mirrors(Replay(row, Compensation(env, s).1), Compensation(env, s).0)
  {
    var (steps, t) := Backward(env, s.steps, s.currentStep);
    var failed, done := StoreState(SagaFailed), StoreState(SagaCompensated);
    ReplayOne(row, failed);
    BackwardMirrors(env, s.steps, s.currentStep, Store(row, failed));
    ReplaySplits(Store(row, failed), t, [done]);
    ReplayOne(Replay(Store(row, failed), t), done);
    ReplaySplits(row, [failed], t + [done]);
    assert Compensation(env, s).1 == [failed] + (t + [done]);
  }

  lemma FinishMirrors(env: Env, mid: SagaRecord, row: SagaRecord)
    requires mid.currentStep <= |mid.steps| && MirrorsSteps(row, mid.steps)
    ensures Mirrors(Replay(row, Finish(env, mid).1), Finish(env, mid).0)
  {
    if mid.currentStep == |mid.steps| {
      ReplayOne(row, StoreState(SagaCompleted));
    } else {
      CompensationMirrors(env, mid, row);
    }
  }

  /** A run from any step, on a row whose statuses are the record's: the row ends with
      the state and the statuses that the record ends with. */
  lemma RunMirrors(env: Env, s: SagaRecord, row: SagaRecord)
    requires s.currentStep <= |s.steps| && MirrorsSteps(row, s.steps)
    ensures Mirrors(Replay(row, Execution(env, s).1), Execution(env, s).0)
  {
    var start := s.(state := InProgress);
    var row1 := Store(row, StoreState(InProgress));
    ForwardBounds(env, start);
    var (mid, f) := Forward(env, start);
    ReplayOne(row, StoreState(InProgress));
    ForwardMirrors(env, start, row1);
    FinishMirrors(env, mid, Replay(row1, f));
    ReplaySplits(row1, f, Tail(env, mid));
    ReplaySplits(row, [StoreState(InProgress)], f + Tail(env, mid));
    RunIs(env, s);
  }

  /** What is stored of a step when the run has ended, `k` being the first step that
      cannot succeed. */
  ghost function StoredStatus(env: Env, steps: seq<Step>, k: nat, j: nat): StepStatus
    requires j < |steps|
  {
    if j < k then
      if k < |steps| && steps[j].compensateAction != "" && env.compensate(j) then Compensated else Completed
    else if j == k && steps[j].service in env.executors then Failed
    else Pending
  }

  /** After a whole run of a fresh saga, the stored row says completed exactly when every
      step succeeds and compensated otherwise, as the record does, and each stored step
      status is the one the record ends with; nothing else of the row has changed. */
  lemma StoredOutcome(env: Env, s: SagaRecord, k: nat)
    requires Fresh(s) && FirstFailure(env, s.steps, k)
    ensures var row, r := Replay(s, Execution(env, s).1), Execution(env, s).0;
      && Mirrors(row, r)
      && (row.state == SagaCompleted <==> forall j :: 0 <= j < |s.steps| ==> Succeeds(env, s.steps[j], j))
      && (row.state == SagaCompensated <==> k < |s.steps|)
      && row.currentStep == 0 && |row.steps| == |s.steps|
      && forall j :: 0 <= j < |s.steps| ==> row.steps[j] == s.steps[j].(status := StoredStatus(env, s.steps, k, j))
  {
    RunMirrors(env, s, s);
    Outcome(env, s, k);
    ReplayKeepsPlan(s, Execution(env, s).1);
    ReplayKeepsStart(s, Execution(env, s).1);
  }

  /** Writes change statuses only: which services, actions and retries a saga has stays. */
  lemma {:induction false} ReplayKeepsPlan(row: SagaRecord, t: seq<Effect>)
    ensures var steps := Replay(row, t).steps;
      |steps| == |row.steps| && forall j :: 0 <= j < |steps| ==> steps[j] == row.steps[j].(status := steps[j].status)
    decreases |t|
  {
    if t != [] {
      ReplayKeepsPlan(Store(row, t[0]), t[1..]);
    }
  }

  lemma {:induction false} ReplayKeepsStart(row: SagaRecord, t: seq<Effect>)
    ensures Replay(row, t).currentStep == row.currentStep
    decreases |t|
  {
    if t != [] {
      ReplayKeepsStart(Store(row, t[0]), t[1..]);
    }
  }

  // ---------- the payment saga ----------

  lemma {:induction false} SomeFirstFailure(env: Env, steps: seq<Step>, i: nat) returns (k: nat)
    requires i <= |steps| && forall j :: 0 <= j < i ==> Succeeds(env, steps[j], j)
    ensures FirstFailure(env, steps, k)
    decreases |steps| - i
  {
    if i < |steps| && Succeeds(env, steps[i], i) {
      k := SomeFirstFailure(env, steps, i + 1);
    } else {
      k := i;
    }
  }

  /** One of the attempts of step `i` up to number `last` succeeds. */
  predicate Within(env: Env, i: nat, last: nat)
  {
    exists a :: 0 <= a <= last && env.execute(i, a)
  }

  /** The wallet validates, and then deducts, within four attempts each. */
  predicate WalletPays(env: Env)
  {
    "wallet" in env.executors && Within(env, 0, 3) && Within(env, 1, 3)
  }

  /** The gateway charges within three attempts, and the payment is updated within four. */
  predicate OthersFollow(env: Env)
  {
    "gateway" in env.executors && Within(env, 2, 2) && "payment" in env.executors && Within(env, 3, 3)
  }

  lemma PaymentStepsSucceed(env: Env, steps: seq<Step>, k: nat)
    requires steps == PaymentSteps() && FirstFailure(env, steps, k)
    ensures k == 4 <==> WalletPays(env) && OthersFollow(env)
    ensures k > DEDUCT <==> WalletPays(env)
  {
    assert Succeeds(env, steps[0], 0) <==> "wallet" in env.executors && Within(env, 0, 3);
    assert Succeeds(env, steps[1], 1) <==> "wallet" in env.executors && Within(env, 1, 3);
    assert Succeeds(env, steps[2], 2) <==> "gateway" in env.executors && Within(env, 2, 2);
    assert Succeeds(env, steps[3], 3) <==> "payment" in env.executors && Within(env, 3, 3);
  }

  /** The payment saga completes, in memory and in its row, exactly when the wallet
      validates and deducts within four attempts each, the gateway charges within three
      and the payment is updated within four.  Otherwise it is compensated, and the one
      compensation called is the refund, exactly when the wallet had been charged. */
  lemma PaymentSagaCompletes(env: Env)
    ensures var (r, t) := Execution(env, PaymentSaga());
      var row := Replay(PaymentSaga(), t);
      && r.state == row.state
      && row.state == (if WalletPays(env) && OthersFollow(env) then SagaCompleted else SagaCompensated)
      && CompensateCalls(t) == (if WalletPays(env) && !OthersFollow(env) then [DEDUCT] else [])
  {
    var s := PaymentSaga();
    var k := SomeFirstFailure(env, s.steps, 0);
    PaymentStepsSucceed(env, s.steps, k);
    Outcome(env, s, k);
    RunMirrors(env, s, s);
    var calls := CompensateCalls(Execution(env, s).1);
    forall j: nat
      ensures j in calls <==> j == DEDUCT && DEDUCT < k < 4
    {
      CompensationOrder(env, s, k, j);
      PaymentCompensations(s.steps, k, j);
    }
    CompensationOrder(env, s, k, 0);
    AtMostOne(calls, DEDUCT);
  }

  lemma PaymentCompensations(steps: seq<Step>, k: nat, j: nat)
    requires steps == PaymentSteps() && k <= 4
    ensures j < k < 4 && steps[j].compensateAction != "" <==> j == DEDUCT && DEDUCT < k < 4
  {
  }

  lemma AtMostOne(s: seq<nat>, d: nat)
    requires Descending(s) && forall j: nat :: j in s ==> j == d
    ensures s == if d in s then [d] else []
  {
    assert |s| <= 1 || s[0] > s[1];
    forall n | 0 <= n < |s|
      ensures s[n] == d
    {
      assert s[n] in s;
    }
    if s != [] {
      assert s[0] in s;
      assert s == [d];
    }
  }
}
