/** What one saga run does, as a value: the final record and, in order, every
    call and every write it makes.  A crash leaves a prefix of those effects. */
module Saga {

  datatype SagaState = Started | InProgress | SagaCompleted | SagaFailed | SagaCompensated

  datatype StepStatus = Pending | Executing | Completed | Failed | Compensated

  /** `maxRetries` further attempts follow the first; an empty `compensateAction` means none. */
  datatype Step = Step(
    id: nat, service: string, action: string, compensateAction: string,
    maxRetries: nat, status: StepStatus, retryCount: nat)

  datatype SagaRecord = SagaRecord(state: SagaState, steps: seq<Step>, currentStep: nat)

  datatype Effect =
    | Execute(i: nat, attempt: nat, ok: bool)
    | Compensate(i: nat, ok: bool)
    | StoreState(state: SagaState)
    | StoreStatus(i: nat, status: StepStatus)

  /** The services that are registered, and what their executors answer. */
  datatype Env = Env(executors: set<string>, execute: (nat, nat) -> bool, compensate: nat -> bool)

  // ---------- forward ----------

  /** The first attempt from `a` on that succeeds, or `max + 1`. */
  function FirstOk(env: Env, i: nat, a: nat, max: nat): (k: nat)
    requires a <= max + 1
    ensures a <= k <= max + 1
    ensures k <= max ==> env.execute(i, k)
    ensures forall b :: a <= b < k ==> !env.execute(i, b)
    decreases max + 1 - a
  {
    if a > max || env.execute(i, a) then a else FirstOk(env, i, a + 1, max)
  }

  function Attempts(env: Env, i: nat, a: nat, max: nat): seq<Effect>
    requires a <= max + 1
    decreases max + 1 - a
  {
    if a > max then []
    else [Execute(i, a, env.execute(i, a))] + (if env.execute(i, a) then [] else Attempts(env, i, a + 1, max))
  }

  predicate StepOk(env: Env, step: Step, i: nat)
  {
    step.service in env.executors && FirstOk(env, i, 0, step.maxRetries) <= step.maxRetries
  }

  function StepResult(env: Env, step: Step, i: nat): Step
  {
    if step.service !in env.executors then step
    else if StepOk(env, step, i) then step.(status := Completed, retryCount := FirstOk(env, i, 0, step.maxRetries))
    else step.(status := Failed, retryCount := step.maxRetries + 1)
  }

  function StepEffects(env: Env, step: Step, i: nat): seq<Effect>
  {
    if step.service !in env.executors then []
    else
      [StoreStatus(i, Executing)]
      + Attempts(env, i, 0, step.maxRetries)
      + [StoreStatus(i, if StepOk(env, step, i) then Completed else Failed)]
  }

  /** Steps in order from `currentStep` until one fails; `currentStep` then names it. */
  function Forward(env: Env, s: SagaRecord): (SagaRecord, seq<Effect>)
    decreases |s.steps| - s.currentStep
  {
    if s.currentStep >= |s.steps| then (s, [])
    else
      var i := s.currentStep;
      var s1 := s.(steps := s.steps[i := StepResult(env, s.steps[i], i)]);
      if StepOk(env, s.steps[i], i) then
        var (r, t) := Forward(env, s1.(currentStep := i + 1));
        (r, StepEffects(env, s.steps[i], i) + t)
      else (s1, StepEffects(env, s.steps[i], i))
  }

  // ---------- backward ----------

  predicate Undoable(env: Env, step: Step)
  {
    step.status == Completed && step.compensateAction != "" && step.service in env.executors
  }

  function UndoEffects(env: Env, step: Step, i: nat): seq<Effect>
  {
    if !Undoable(env, step) then []
    else if env.compensate(i) then [Compensate(i, true), StoreStatus(i, Compensated)]
    else [Compensate(i, false)]
  }

  function UndoResult(env: Env, step: Step, i: nat): Step
  {
    if Undoable(env, step) && env.compensate(i) then step.(status := Compensated) else step
  }

  /** Steps `i - 1` down to `0`. */
  function Backward(env: Env, steps: seq<Step>, i: nat): (r: (seq<Step>, seq<Effect>))
    requires i <= |steps|
    ensures |r.0| == |steps|
    decreases i
  {
    if i == 0 then (steps, [])
    else
      var (r, t) := Backward(env, steps[i - 1 := UndoResult(env, steps[i - 1], i - 1)], i - 1);
      (r, UndoEffects(env, steps[i - 1], i - 1) + t)
  }

  function Compensation(env: Env, s: SagaRecord): (SagaRecord, seq<Effect>)
    requires s.currentStep <= |s.steps|
  {
    var (steps, t) := Backward(env, s.steps, s.currentStep);
    (s.(state := SagaCompensated, steps := steps), [StoreState(SagaFailed)] + t + [StoreState(SagaCompensated)])
  }

  lemma {:induction false} ForwardBounds(env: Env, s: SagaRecord)
    requires s.currentStep <= |s.steps|
    ensures var r := Forward(env, s).0;
      && |r.steps| == |s.steps| && s.currentStep <= r.currentStep <= |s.steps|
      && r.state == s.state
    decreases |s.steps| - s.currentStep
  {
    if s.currentStep < |s.steps| {
      var i := s.currentStep;
      ForwardBounds(env, s.(steps := s.steps[i := StepResult(env, s.steps[i], i)], currentStep := i + 1));
    }
  }

  /** What a run makes of the record its forward part ends with. */
  function Finish(env: Env, mid: SagaRecord): (SagaRecord, seq<Effect>)
    requires mid.currentStep <= |mid.steps|
  {
    if mid.currentStep == |mid.steps| then (mid.(state := SagaCompleted), [StoreState(SagaCompleted)])
    else Compensation(env, mid)
  }

  function Tail(env: Env, mid: SagaRecord): seq<Effect>
    requires mid.currentStep <= |mid.steps|
  {
    Finish(env, mid).1
  }

  /** A whole run of a saga from its current step. */
  function Execution(env: Env, s: SagaRecord): (SagaRecord, seq<Effect>)
    requires s.currentStep <= |s.steps|
  {
    var (mid, t) := Forward(env, s.(state := InProgress));
    ForwardBounds(env, s.(state := InProgress));
    (Finish(env, mid).0, [StoreState(InProgress)] + (t + Tail(env, mid)))
  }

  lemma RunIs(env: Env, s: SagaRecord)
    requires s.currentStep <= |s.steps|
    ensures var (mid, f) := Forward(env, s.(state := InProgress));
      mid.currentStep <= |mid.steps|
        && Execution(env, s) == (Finish(env, mid).0, [StoreState(InProgress)] + (f + Tail(env, mid)))
  {
    ForwardBounds(env, s.(state := InProgress));
  }

  // ---------- the stored row ----------

  /** What a write does to the stored row.  `current_step` is never among the columns written. */
  function Store(row: SagaRecord, e: Effect): SagaRecord
  {
    match e
    case StoreState(state) => row.(state := state)
    case StoreStatus(i, status) =>
      if i < |row.steps| then row.(steps := row.steps[i := row.steps[i].(status := status)]) else row
    case _ => row
  }

  function Replay(row: SagaRecord, t: seq<Effect>): SagaRecord
    decreases |t|
  {
    if t == [] then row else Replay(Store(row, t[0]), t[1..])
  }

  lemma {:induction false} ReplaySplits(row: SagaRecord, a: seq<Effect>, b: seq<Effect>)
    ensures Replay(row, a + b) == Replay(Replay(row, a), b)
    decreases |a|
  {
    if a == [] {
      assert a + b == b;
    } else {
      assert (a + b)[1..] == a[1..] + b;
      ReplaySplits(Store(row, a[0]), a[1..], b);
    }
  }

  /** The rows offered to recovery. */
  predicate IsPending(row: SagaRecord)
  {
    row.state == Started || row.state == InProgress || row.state == SagaFailed
  }

  /** What recovery does with a row: it resumes one in progress, compensates one
      that failed, and has no case for one that was only started. */
  function Recovery(env: Env, row: SagaRecord): seq<Effect>
    requires row.currentStep <= |row.steps|
  {
    if row.state == InProgress then Execution(env, row).1
    else if row.state == SagaFailed then Compensation(env, row).1
    else []
  }

  // ---------- the payment saga ----------

  function NewStep(id: nat, service: string, action: string, compensateAction: string, maxRetries: nat): Step
  {
    Step(id, service, action, compensateAction, maxRetries, Pending, 0)
  }

  function PaymentSteps(): seq<Step>
  {
    [ NewStep(0, "wallet", "validate_balance", "", 3),
      NewStep(1, "wallet", "deduct_balance", "refund_balance", 3),
      NewStep(2, "gateway", "process_payment", "", 2),
      NewStep(3, "payment", "update_status", "mark_failed", 3) ]
  }

  const DEDUCT: nat := 1

  function PaymentSaga(): SagaRecord
  {
    SagaRecord(Started, PaymentSteps(), 0)
  }
}
