/** The orchestrator and the saga table, as objects whose fields the methods
    reassign step by step; each method makes exactly the effects that Saga describes. */
module SagaOrchestrator {
  import opened Saga
  import opened SagaRows

  predicate DistinctIDs(steps: seq<Step>)
  {
    forall i, j :: 0 <= i < j < |steps| ==> steps[i].id != steps[j].id
  }

  predicate SameIDs(a: seq<Step>, b: seq<Step>)
  {
    |a| == |b| && forall i :: 0 <= i < |a| ==> a[i].id == b[i].id
  }

  /** The first step with an id, or the number of steps when none has it. */
  function FirstWithID(steps: seq<Step>, id: nat): (i: nat)
    ensures i <= |steps| && (i < |steps| ==> steps[i].id == id)
    ensures forall j :: 0 <= j < i ==> steps[j].id != id
  {
    if steps == [] then 0
    else
      var i := FirstWithID(steps[..|steps| - 1], id);
      if i < |steps| - 1 || steps[i].id == id then i else i + 1
  }

  class SagaRepository {
    var rows: map<nat, SagaRecord>

    constructor ()
      ensures rows == map[]
    {
      rows := map[];
    }

    method SaveSaga(id: nat, s: SagaRecord)
      modifies this
      ensures rows == old(rows)[id := s]
    {
      rows := rows[id := s];
    }

    method UpdateSagaState(id: nat, state: SagaState)
      modifies this
      ensures rows == if id in old(rows) then old(rows)[id := Store(old(rows)[id], StoreState(state))] else old(rows)
    {
      if id in rows {
        rows := rows[id := rows[id].(state := state)];
      }
    }

    /** Loads the stored copy, sets the status of the first step with this id, if there
        is one, and saves that copy back. */
    method UpdateStepStatus(sagaID: nat, stepID: nat, status: StepStatus) returns (ok: bool)
      modifies this
      ensures ok <==> sagaID in old(rows)
      ensures ok ==> rows == old(rows)[sagaID :=
        Store(old(rows)[sagaID], StoreStatus(FirstWithID(old(rows)[sagaID].steps, stepID), status))]
      ensures ok && (forall i :: 0 <= i < |old(rows)[sagaID].steps| ==> old(rows)[sagaID].steps[i].id != stepID) ==>
        rows == old(rows)
      ensures !ok ==> rows == old(rows)
    {
      if sagaID !in rows {
        return false;
      }
      var s := rows[sagaID];
      ghost var first := FirstWithID(s.steps, stepID);
      var k := 0;
      while k < |s.steps|
        invariant k <= first && s == rows[sagaID]
      {
        if s.steps[k].id == stepID {
          s := s.(steps := s.steps[k := s.steps[k].(status := status)]);
          break;
        }
        k := k + 1;
      }
      SaveSaga(sagaID, s);
      return true;
    }
  }

  /** The saga in memory, advanced in place by the orchestrator. */
  class RunningSaga {
    const id: nat
    var state: SagaState
    var steps: seq<Step>
    var currentStep: nat

    constructor (id: nat, s: SagaRecord)
      ensures this.id == id && Record() == s
    {
      this.id := id;
      state, steps, currentStep := s.state, s.steps, s.currentStep;
    }

    function Record(): SagaRecord
      reads this
    {
      SagaRecord(state, steps, currentStep)
    }
  }

  class Orchestrator {
    const repo: SagaRepository
    var stepExecutors: set<string>
    ghost var effects: seq<Effect>

    constructor (repo: SagaRepository)
      ensures this.repo == repo && stepExecutors == {} && effects == []
    {
      this.repo := repo;
      stepExecutors := {};
      effects := [];
    }

    method RegisterStepExecutor(service: string)
      modifies this`stepExecutors
      ensures stepExecutors == old(stepExecutors) + {service}
    {
      stepExecutors := stepExecutors + {service};
    }

    /** The saga is stored, and its row has the same steps. */
    ghost predicate Ready(saga: RunningSaga, env: Env)
      reads this, repo, saga
    {
      && env.executors == stepExecutors
      && saga.id in repo.rows
      && DistinctIDs(saga.steps)
      && SameIDs(saga.steps, repo.rows[saga.id].steps)
      && saga.currentStep <= |saga.steps|
    }

    method WriteState(saga: RunningSaga, state: SagaState, env: Env)
      requires Ready(saga, env)
      modifies this`effects, repo, saga`state
      ensures Ready(saga, env) && saga.state == state
      ensures effects == old(effects) + [StoreState(state)]
      ensures repo.rows[saga.id] == Store(old(repo.rows)[saga.id], StoreState(state))
    {
      saga.state := state;
      repo.UpdateSagaState(saga.id, state);
      effects := effects + [StoreState(state)];
    }

    method WriteStatus(saga: RunningSaga, i: nat, status: StepStatus, env: Env)
      requires Ready(saga, env) && i < |saga.steps|
      modifies this`effects, repo, saga`steps
      ensures Ready(saga, env) && saga.steps == old(saga.steps)[i := old(saga.steps)[i].(status := status)]
      ensures effects == old(effects) + [StoreStatus(i, status)]
      ensures repo.rows[saga.id] == Store(old(repo.rows)[saga.id], StoreStatus(i, status))
    {
      saga.steps := saga.steps[i := saga.steps[i].(status := status)];
      var ok := repo.UpdateStepStatus(saga.id, saga.steps[i].id, status);
      effects := effects + [StoreStatus(i, status)];
    }

    method SetRetryCount(saga: RunningSaga, i: nat, count: nat, env: Env)
      requires Ready(saga, env) && i < |saga.steps|
      modifies saga`steps
      ensures Ready(saga, env) && saga.steps == old(saga.steps)[i := old(saga.steps)[i].(retryCount := count)]
    {
      saga.steps := saga.steps[i := saga.steps[i].(retryCount := count)];
    }

    method CallExecute(i: nat, attempt: nat, env: Env) returns (ok: bool)
      modifies this`effects
      ensures ok == env.execute(i, attempt)
      ensures effects == old(effects) + [Execute(i, attempt, ok)]
    {
      ok := env.execute(i, attempt);
      effects := effects + [Execute(i, attempt, ok)];
    }

    method CallCompensate(i: nat, env: Env) returns (ok: bool)
      modifies this`effects
      ensures ok == env.compensate(i)
      ensures effects == old(effects) + [Compensate(i, ok)]
    {
      ok := env.compensate(i);
      effects := effects + [Compensate(i, ok)];
    }

    /** What is still owed after `t` has been made, when `t + rest` was owed before. */
    static lemma Pay(before: seq<Effect>, row: SagaRecord, t: seq<Effect>, rest: seq<Effect>)
      ensures (before + t) + rest == before + (t + rest)
      ensures Replay(Replay(row, t), rest) == Replay(row, t + rest)
    {
      ReplaySplits(row, t, rest);
    }

    static lemma PayOne(before: seq<Effect>, row: SagaRecord, e: Effect, rest: seq<Effect>)
      ensures (before + [e]) + rest == before + ([e] + rest)
      ensures Replay(Store(row, e), rest) == Replay(row, [e] + rest)
    {
      assert ([e] + rest)[1..] == rest;
    }

    /** What is left of a step once attempts before `attempt` have failed. */
    ghost function StepRest(env: Env, step: Step, i: nat, attempt: nat): seq<Effect>
      requires attempt <= step.maxRetries + 1
    {
      Attempts(env, i, attempt, step.maxRetries) + [StoreStatus(i, if StepOk(env, step, i) then Completed else Failed)]
    }

    lemma StepRestTakes(env: Env, step: Step, i: nat, attempt: nat)
      requires attempt <= step.maxRetries
      ensures StepRest(env, step, i, attempt)
        == [Execute(i, attempt, env.execute(i, attempt))]
           + (if env.execute(i, attempt) then [StoreStatus(i, if StepOk(env, step, i) then Completed else Failed)]
              else StepRest(env, step, i, attempt + 1))
    {
    }

    method ExecuteStep(saga: RunningSaga, env: Env) returns (ok: bool)
      requires Ready(saga, env) && saga.currentStep < |saga.steps|
      modifies this`effects, repo, saga`steps
      ensures Ready(saga, env)
      ensures ok == StepOk(env, old(saga.steps)[saga.currentStep], saga.currentStep)
      ensures saga.steps
        == old(saga.steps)[saga.currentStep := StepResult(env, old(saga.steps)[saga.currentStep], saga.currentStep)]
      ensures effects == old(effects) + StepEffects(env, old(saga.steps)[saga.currentStep], saga.currentStep)
      ensures repo.rows[saga.id]
        == Replay(old(repo.rows)[saga.id], StepEffects(env, old(saga.steps)[saga.currentStep], saga.currentStep))
    {
      var i := saga.currentStep;
      ghost var step := saga.steps[i];
      if saga.steps[i].service !in stepExecutors {
        return false;
      }
      ghost var rest := StepRest(env, step, i, 0);
      assert StepEffects(env, step, i) == [StoreStatus(i, Executing)] + rest;
      PayOne(effects, repo.rows[saga.id], StoreStatus(i, Executing), rest);
      WriteStatus(saga, i, Executing, env);
      ok := RunAttempts(saga, i, env);
    }

    /** The attempts of a step whose status is already executing, to the write of its outcome. */
    method RunAttempts(saga: RunningSaga, i: nat, env: Env) returns (ok: bool)
      requires Ready(saga, env) && i < |saga.steps| && saga.steps[i].service in stepExecutors
      modifies this`effects, repo, saga`steps
      ensures Ready(saga, env)
      ensures ok == StepOk(env, old(saga.steps)[i], i)
      ensures saga.steps == old(saga.steps)[i := StepResult(env, old(saga.steps)[i], i)]
      ensures effects == old(effects) + StepRest(env, old(saga.steps)[i], i, 0)
      ensures repo.rows[saga.id] == Replay(old(repo.rows)[saga.id], StepRest(env, old(saga.steps)[i], i, 0))
    {
      ghost var step := saga.steps[i];
      var max := saga.steps[i].maxRetries;
      var attempt := 0;
      while attempt <= max
        invariant attempt <= max + 1 && max == step.maxRetries
        invariant Ready(saga, env) && i < |saga.steps|
        invariant saga.steps
          == old(saga.steps)[i := step.(retryCount := if attempt == 0 then step.retryCount else attempt)]
        invariant FirstOk(env, i, 0, max) == FirstOk(env, i, attempt, max)
        invariant effects + StepRest(env, step, i, attempt) == old(effects) + StepRest(env, step, i, 0)
        invariant Replay(repo.rows[saga.id], StepRest(env, step, i, attempt))
               == Replay(old(repo.rows)[saga.id], StepRest(env, step, i, 0))
      {
        var succeeded := AttemptStep(saga, i, attempt, env, step);
        if succeeded {
          return true;
        }
        attempt := attempt + 1;
      }
      PayOne(effects, repo.rows[saga.id], StoreStatus(i, Failed), []);
      WriteStatus(saga, i, Failed, env);
      return false;
    }

    /** One attempt, and the write that follows a success. */
    method AttemptStep(saga: RunningSaga, i: nat, attempt: nat, env: Env, ghost step: Step) returns (ok: bool)
      requires Ready(saga, env) && i < |saga.steps| && step.service in env.executors && attempt <= step.maxRetries
      requires FirstOk(env, i, 0, step.maxRetries) == FirstOk(env, i, attempt, step.maxRetries)
      modifies this`effects, repo, saga`steps
      ensures Ready(saga, env) && ok == env.execute(i, attempt)
      ensures saga.steps == old(saga.steps)[i :=
        if ok then old(saga.steps)[i].(retryCount := attempt, status := Completed)
        else old(saga.steps)[i].(retryCount := attempt + 1)]
      ensures effects + (if ok then [] else StepRest(env, step, i, attempt + 1))
        == old(effects) + StepRest(env, step, i, attempt)
      ensures Replay(repo.rows[saga.id], if ok then [] else StepRest(env, step, i, attempt + 1))
           == Replay(old(repo.rows)[saga.id], StepRest(env, step, i, attempt))
    {
      StepRestTakes(env, step, i, attempt);
      ghost var rest := StepRest(env, step, i, attempt)[1..];
      PayOne(effects, repo.rows[saga.id], Execute(i, attempt, env.execute(i, attempt)), rest);
      ok := CallExecute(i, attempt, env);
      if ok {
        SetRetryCount(saga, i, attempt, env);
        PayOne(effects, repo.rows[saga.id], StoreStatus(i, Completed), []);
        WriteStatus(saga, i, Completed, env);
      } else {
        SetRetryCount(saga, i, attempt + 1, env);
      }
    }

    /** Completed steps before the current one, in reverse.  A failed compensation is passed over. */
    method CompensateSaga(saga: RunningSaga, env: Env)
      requires Ready(saga, env)
      modifies this`effects, repo, saga`state, saga`steps
      ensures Ready(saga, env)
      ensures saga.Record() == Compensation(env, old(saga.Record())).0
      ensures effects == old(effects) + Compensation(env, old(saga.Record())).1
      ensures repo.rows[saga.id] == Replay(old(repo.rows)[saga.id], Compensation(env, old(saga.Record())).1)
    {
      ghost var total := Backward(env, saga.steps, saga.currentStep);
      ghost var goalEffects := effects + Compensation(env, saga.Record()).1;
      ghost var goalRow := Replay(repo.rows[saga.id], Compensation(env, saga.Record()).1);
      ghost var tail := [StoreState(SagaCompensated)];
      assert Compensation(env, saga.Record()).1 == [StoreState(SagaFailed)] + (total.1 + tail);
      PayOne(effects, repo.rows[saga.id], StoreState(SagaFailed), total.1 + tail);
      WriteState(saga, SagaFailed, env);
      var i: nat := saga.currentStep;
      while i > 0
        invariant i <= saga.currentStep && Ready(saga, env) && saga.state == SagaFailed
        invariant Backward(env, saga.steps, i).0 == total.0
        invariant effects + (Backward(env, saga.steps, i).1 + tail) == goalEffects
        invariant Replay(repo.rows[saga.id], Backward(env, saga.steps, i).1 + tail) == goalRow
      {
        i := i - 1;
        CompensateStep(saga, i, env, tail);
      }
      assert [] + tail == tail;
      PayOne(effects, repo.rows[saga.id], StoreState(SagaCompensated), []);
      WriteState(saga, SagaCompensated, env);
    }

    static lemma BackwardTakes(env: Env, steps: seq<Step>, i: nat, tail: seq<Effect>)
      requires i < |steps|
      ensures var next := Backward(env, steps[i := UndoResult(env, steps[i], i)], i);
        && Backward(env, steps, i + 1).0 == next.0
        && Backward(env, steps, i + 1).1 + tail == UndoEffects(env, steps[i], i) + (next.1 + tail)
    {
    }

    /** One turn of the compensation loop; `tail` is what the method owes after the loop. */
    method CompensateStep(saga: RunningSaga, i: nat, env: Env, ghost tail: seq<Effect>)
      requires Ready(saga, env) && i < |saga.steps|
      modifies this`effects, repo, saga`steps
      ensures Ready(saga, env) && |saga.steps| == |old(saga.steps)|
      ensures Backward(env, saga.steps, i).0 == Backward(env, old(saga.steps), i + 1).0
      ensures effects + (Backward(env, saga.steps, i).1 + tail)
           == old(effects) + (Backward(env, old(saga.steps), i + 1).1 + tail)
      ensures Replay(repo.rows[saga.id], Backward(env, saga.steps, i).1 + tail)
           == Replay(old(repo.rows)[saga.id], Backward(env, old(saga.steps), i + 1).1 + tail)
    {
      ghost var next := saga.steps[i := UndoResult(env, saga.steps[i], i)];
      ghost var rest := Backward(env, next, i).1 + tail;
      BackwardTakes(env, saga.steps, i, tail);
      MakeUndo(saga, i, env, rest);
    }

    /** The compensation of one step, when it has one to make; `rest` is owed after it. */
    method MakeUndo(saga: RunningSaga, i: nat, env: Env, ghost rest: seq<Effect>)
      requires Ready(saga, env) && i < |saga.steps|
      modifies this`effects, repo, saga`steps
      ensures Ready(saga, env)
      ensures saga.steps == old(saga.steps)[i := UndoResult(env, old(saga.steps)[i], i)]
      ensures effects + rest == old(effects) + (UndoEffects(env, old(saga.steps)[i], i) + rest)
      ensures Replay(repo.rows[saga.id], rest)
           == Replay(old(repo.rows)[saga.id], UndoEffects(env, old(saga.steps)[i], i) + rest)
    {
      var step := saga.steps[i];
      assert [] + rest == rest;
      if step.status != Completed || step.compensateAction == "" {
        return;
      }
      if step.service !in stepExecutors {
        return;
      }
      ghost var after := if env.compensate(i) then [StoreStatus(i, Compensated)] + rest else rest;
      assert UndoEffects(env, step, i) + rest == [Compensate(i, env.compensate(i))] + after;
      PayOne(effects, repo.rows[saga.id], Compensate(i, env.compensate(i)), after);
      var succeeded := CallCompensate(i, env);
      if succeeded {
        PayOne(effects, repo.rows[saga.id], StoreStatus(i, Compensated), rest);
        WriteStatus(saga, i, Compensated, env);
      }
    }

    /** The record and effects that remain of a forward run after its current step. */
    static ghost function AfterStep(env: Env, s: SagaRecord): (SagaRecord, seq<Effect>)
      requires s.currentStep < |s.steps|
    {
      var i := s.currentStep;
      var s1 := s.(steps := s.steps[i := StepResult(env, s.steps[i], i)]);
      if StepOk(env, s.steps[i], i) then Forward(env, s1.(currentStep := i + 1)) else (s1, [])
    }

    static lemma ForwardTakes(env: Env, s: SagaRecord, tail: seq<Effect>)
      requires s.currentStep < |s.steps|
      ensures Forward(env, s).0 == AfterStep(env, s).0
      ensures Forward(env, s).1 + tail
        == StepEffects(env, s.steps[s.currentStep], s.currentStep) + (AfterStep(env, s).1 + tail)
    {
    }

    /** One turn of the loop below; `tail` is what the run owes after its forward part. */
    method TakeStep(saga: RunningSaga, env: Env, ghost tail: seq<Effect>) returns (ok: bool)
      requires Ready(saga, env) && saga.currentStep < |saga.steps|
      modifies this`effects, repo, saga`steps, saga`currentStep
      ensures Ready(saga, env)
      ensures saga.currentStep == old(saga.currentStep) + (if ok then 1 else 0)
      ensures |saga.steps| == |old(saga.steps)|
      ensures Forward(env, old(saga.Record())).0 == if ok then Forward(env, saga.Record()).0 else saga.Record()
      ensures effects + ((if ok then Forward(env, saga.Record()).1 else []) + tail)
           == old(effects) + (Forward(env, old(saga.Record())).1 + tail)
      ensures Replay(repo.rows[saga.id], (if ok then Forward(env, saga.Record()).1 else []) + tail)
           == Replay(old(repo.rows)[saga.id], Forward(env, old(saga.Record())).1 + tail)
    {
      ghost var now := saga.Record();
      ghost var i := saga.currentStep;
      ghost var t := StepEffects(env, saga.steps[i], i);
      ForwardTakes(env, now, tail);
      Pay(effects, repo.rows[saga.id], t, AfterStep(env, now).1 + tail);
      ok := ExecuteStep(saga, env);
      if ok {
        saga.currentStep := saga.currentStep + 1;
        assert saga.Record() == now.(steps := now.steps[i := StepResult(env, now.steps[i], i)], currentStep := i + 1);
        assert Forward(env, saga.Record()) == AfterStep(env, now);
      }
    }

    method ExecuteSaga(saga: RunningSaga, env: Env)
      requires Ready(saga, env)
      modifies this`effects, repo, saga
      ensures Ready(saga, env)
      ensures saga.Record() == Execution(env, old(saga.Record())).0
      ensures effects == old(effects) + Execution(env, old(saga.Record())).1
      ensures repo.rows[saga.id] == Replay(old(repo.rows)[saga.id], Execution(env, old(saga.Record())).1)
      ensures MirrorsSteps(old(repo.rows)[saga.id], old(saga.Record()).steps) ==>
        Mirrors(repo.rows[saga.id], saga.Record())
    {
      if MirrorsSteps(repo.rows[saga.id], saga.steps) {
        RunMirrors(env, saga.Record(), repo.rows[saga.id]);
      }
      ghost var start := saga.Record().(state := InProgress);
      RunIs(env, saga.Record());
      ghost var last, tail := Forward(env, start).0, Tail(env, Forward(env, start).0);
      ghost var goalEffects := effects + Execution(env, saga.Record()).1;
      ghost var goalRow := Replay(repo.rows[saga.id], Execution(env, saga.Record()).1);
      PayOne(effects, repo.rows[saga.id], StoreState(InProgress), Forward(env, start).1 + tail);
      WriteState(saga, InProgress, env);
      while saga.currentStep < |saga.steps|
        invariant Ready(saga, env) && saga.state == InProgress
        invariant Forward(env, saga.Record()).0 == last
        invariant effects + (Forward(env, saga.Record()).1 + tail) == goalEffects
        invariant Replay(repo.rows[saga.id], Forward(env, saga.Record()).1 + tail) == goalRow
        decreases |saga.steps| - saga.currentStep
      {
        var ok := TakeStep(saga, env, tail);
        if !ok {
          assert [] + tail == tail;
          CompensateSaga(saga, env);
          return;
        }
      }
      assert [] + tail == tail;
      PayOne(effects, repo.rows[saga.id], StoreState(SagaCompleted), []);
      WriteState(saga, SagaCompleted, env);
    }

    /** Makes a payment saga and stores it, up to where the code spawns its run.  When it
        cannot be `saved`, an error is returned, and nothing is stored or called. */
    method SavePaymentSaga(id: nat, env: Env, saved: bool) returns (saga: RunningSaga?)
      requires env.executors == stepExecutors
      modifies repo
      ensures saga == null <==> !saved
      ensures !saved ==> repo.rows == old(repo.rows)
      ensures saved ==> fresh(saga) && saga.id == id && saga.Record() == PaymentSaga() && Ready(saga, env)
      ensures saved ==> repo.rows == old(repo.rows)[id := PaymentSaga()]
      ensures saved ==>
        && |saga.steps| == 4
        && saga.steps[0].action == "validate_balance" && saga.steps[0].compensateAction == ""
        && saga.steps[1].action == "deduct_balance" && saga.steps[1].compensateAction == "refund_balance"
        && saga.steps[2].action == "process_payment" && saga.steps[2].compensateAction == ""
        && saga.steps[3].action == "update_status" && saga.steps[3].compensateAction == "mark_failed"
    {
      if !saved {
        return null;
      }
      saga := new RunningSaga(id, PaymentSaga());
      repo.SaveSaga(id, PaymentSaga());
    }

    /** Stores a new payment saga and runs it to its end. */
    method StartPaymentSaga(id: nat, env: Env, saved: bool) returns (saga: RunningSaga?)
      requires env.executors == stepExecutors
      modifies this`effects, repo
      ensures saga == null <==> !saved
      ensures !saved ==> effects == old(effects) && repo.rows == old(repo.rows)
      ensures saved ==> saga.id == id && saga.Record() == Execution(env, PaymentSaga()).0
      ensures saved ==> effects == old(effects) + Execution(env, PaymentSaga()).1
      ensures saved ==> id in repo.rows && repo.rows[id] == Replay(PaymentSaga(), Execution(env, PaymentSaga()).1)
      ensures saved ==> Mirrors(repo.rows[id], saga.Record())
      ensures saved ==> saga.state == if WalletPays(env) && OthersFollow(env) then SagaCompleted else SagaCompensated
    {
      saga := SavePaymentSaga(id, env, saved);
      if saga != null {
        PaymentSagaCompletes(env);
        ExecuteSaga(saga, env);
      }
    }

    /** Recovery of one stored saga, loaded with the `current_step` of its row. */
    method RecoverSaga(id: nat, env: Env)
      requires id in repo.rows && env.executors == stepExecutors
      requires DistinctIDs(repo.rows[id].steps) && repo.rows[id].currentStep <= |repo.rows[id].steps|
      modifies this`effects, repo
      ensures effects == old(effects) + Recovery(env, old(repo.rows)[id])
      ensures id in repo.rows && repo.rows[id] == Replay(old(repo.rows)[id], Recovery(env, old(repo.rows)[id]))
    {
      var saga := new RunningSaga(id, repo.rows[id]);
      match saga.state {
        case InProgress => ExecuteSaga(saga, env);
        case SagaFailed => CompensateSaga(saga, env);
        case _ =>
      }
    }
  }
}
