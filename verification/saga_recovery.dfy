/** What a crash leaves of a saga, what recovery makes of it, and what that costs
    the wallet. */
module SagaRecovery {
  import opened Saga
  import opened SagaTheorems
  import opened SagaRows

  lemma SamePlanFailsAlike(env: Env, a: seq<Step>, b: seq<Step>, k: nat)
    requires |a| == |b| && forall j :: 0 <= j < |a| ==> b[j] == a[j].(status := b[j].status)
    ensures FirstFailure(env, a, k) <==> FirstFailure(env, b, k)
  {
    assert forall j :: 0 <= j < |a| ==> Succeeds(env, a[j], j) == Succeeds(env, b[j], j);
  }

  function One(b: bool): int
  {
    if b then 1 else 0
  }

  /** A run that fails at step `k` gives back what step `d` took. */
  predicate Undoes(env: Env, steps: seq<Step>, k: nat, d: nat)
  {
    d < k < |steps| && steps[d].compensateAction != "" && env.compensate(d)
  }

  /** The run of any saga crashes in progress after `made`, and its recovery fails
      first at step `k`, or completes.  The wallet has paid once for the execution of
      step `d` before the crash, once more if the recovery gets past `d`, and got back
      at most one of the two. */
  lemma RecoverySettles(env: Env, s: SagaRecord, m: nat, again: Env, k: nat, d: nat, balance: int, amount: int)
    requires Fresh(s) && d < |s.steps| && m <= |Execution(env, s).1|
    requires Replay(s, Execution(env, s).1[..m]).state == InProgress && FirstFailure(again, s.steps, k)
    ensures var made := Execution(env, s).1[..m];
      var row := Replay(s, made);
      var before := One(After(Begin(s), made, d).executed > d);
      && row.currentStep == 0
      && Execution(again, row).0.state == (if k == |s.steps| then SagaCompleted else SagaCompensated)
      && Settle(balance, made + Recovery(again, row), d, amount)
         == balance - (before + One(d < k) - One(Undoes(again, s.steps, k, d))) * amount
  {
    var made := Execution(env, s).1[..m];
    var row := Replay(s, made);
    CrashPoint(env, s, d, m);
    ReplayKeepsPlan(s, made);
    SamePlanFailsAlike(again, s.steps, row.steps, k);
    RunAfter(again, row, k, d);
    Outcome(again, row, k);
    SettleSplits(balance, made, Recovery(again, row), d, amount);
    SettleIs(Begin(s), balance, made, d, amount);
    SettleIs(Begin(row), Settle(balance, made, d, amount), Recovery(again, row), d, amount);
    var before := One(After(Begin(s), made, d).executed > d);
    var rest := One(d < k) - One(Undoes(again, s.steps, k, d));
    Distribute(before, rest, amount);
  }

  /** A recovery that completes: the wallet has paid once if and only if the crash
      came before step `d` had been executed; otherwise it has paid twice. */
  lemma RecoveredSagaChargesAgain(env: Env, s: SagaRecord, m: nat, again: Env, d: nat, balance: int, amount: int)
    requires Fresh(s) && d < |s.steps| && m <= |Execution(env, s).1|
    requires Replay(s, Execution(env, s).1[..m]).state == InProgress
    requires FirstFailure(again, s.steps, |s.steps|)
    ensures var made := Execution(env, s).1[..m];
      var row := Replay(s, made);
      && row.currentStep == 0
      && Settle(balance, made + Recovery(again, row), d, amount)
         == if After(Begin(s), made, d).executed <= d then balance - amount else balance - 2 * amount
  {
    RecoverySettles(env, s, m, again, |s.steps|, d, balance, amount);
  }

  lemma ZeroProduct(a: int, amount: int)
    ensures a * amount == 0 <==> a == 0 || amount == 0
  {
    if a > 0 {
      SignOfProduct(a, amount);
    } else if a < 0 {
      SignOfProduct(-a, amount);
      assert (-a) * amount == -(a * amount);
    }
  }

  lemma {:induction false} SignOfProduct(a: nat, amount: int)
    requires a > 0
    ensures amount > 0 ==> a * amount > 0
    ensures amount < 0 ==> a * amount < 0
  {
    if a > 1 {
      SignOfProduct(a - 1, amount);
      assert a * amount == (a - 1) * amount + amount;
    }
  }

  /** A recovered saga costs what the same saga would have cost uncrashed exactly
      when the crash came before step `d` had been executed. */
  lemma RecoveredSettlesAsUncrashed(env: Env, s: SagaRecord, m: nat, again: Env, k: nat, d: nat, balance: int,
    amount: int)
    requires Fresh(s) && d < |s.steps| && m <= |Execution(env, s).1|
    requires Replay(s, Execution(env, s).1[..m]).state == InProgress && FirstFailure(again, s.steps, k)
    ensures var made := Execution(env, s).1[..m];
      var row := Replay(s, made);
      && row.currentStep == 0
      && (Settle(balance, made + Recovery(again, row), d, amount) == Settle(balance, Execution(again, s).1, d, amount)
          <==> amount == 0 || After(Begin(s), made, d).executed <= d)
  {
    RecoverySettles(env, s, m, again, k, d, balance, amount);
    SagaNet(again, s, k, d, balance, amount);
    var before := One(After(Begin(s), Execution(env, s).1[..m], d).executed > d);
    Distribute(before, One(d < k) - One(Undoes(again, s.steps, k, d)), amount);
  }

  /** What a saga that ended so should have cost: the amount when it completed, and
      nothing when it was compensated. */
  function Due(state: SagaState, balance: int, amount: int): int
  {
    if state == SagaCompleted then balance - amount else balance
  }

  /** A recovered saga has cost what its final state says exactly when step `d` had
      not been executed before the crash and the recovery completes, never gets past
      `d`, or gives `d` back. */
  lemma RecoveredSettlesRightIff(env: Env, s: SagaRecord, m: nat, again: Env, k: nat, d: nat, balance: int, amount: int)
    requires Fresh(s) && d < |s.steps| && m <= |Execution(env, s).1|
    requires Replay(s, Execution(env, s).1[..m]).state == InProgress && FirstFailure(again, s.steps, k)
    ensures var made := Execution(env, s).1[..m];
      var row := Replay(s, made);
      && row.currentStep == 0
      && (Settle(balance, made + Recovery(again, row), d, amount) == Due(Execution(again, row).0.state, balance, amount)
          <==> amount == 0
               || (After(Begin(s), made, d).executed <= d
                   && (k == |s.steps| || k <= d || Undoes(again, s.steps, k, d))))
  {
    RecoverySettles(env, s, m, again, k, d, balance, amount);
    var paid := One(After(Begin(s), Execution(env, s).1[..m], d).executed > d)
      + One(d < k) - One(Undoes(again, s.steps, k, d));
    ZeroProduct(paid - One(k == |s.steps|), amount);
    Distribute(paid, -One(k == |s.steps|), amount);
  }

  // ---------- a recovery that loses the amount: a run that shows it ----------

  const SERVICES := {"wallet", "gateway", "payment"}

  /** Every call succeeds. */
  function AllSucceed(): Env
  {
    Env(SERVICES, (i: nat, a: nat) => true, (i: nat) => true)
  }

  /** Every call succeeds, but validating answers from the wallet's balance. */
  function Validates(balance: int, amount: int): Env
  {
    Env(SERVICES, (i: nat, a: nat) => i != 0 || balance >= amount, (i: nat) => true)
  }

  const DEDUCTED_AT: nat := 6

  /** What a payment saga has done when its deduction has just succeeded. */
  const UNTIL_DEDUCTED: seq<Effect> :=
    [ StoreState(InProgress),
      StoreStatus(0, Executing), Execute(0, 0, true), StoreStatus(0, Completed),
      StoreStatus(1, Executing), Execute(1, 0, true) ]

  lemma CrashAfterDeduction(env: Env, s: SagaRecord)
    requires env == AllSucceed() && s == PaymentSaga()
    ensures DEDUCTED_AT <= |Execution(env, s).1|
    ensures var made := Execution(env, s).1[..DEDUCTED_AT];
      && Replay(s, made).state == InProgress
      && After(Begin(s), made, DEDUCT).executed == 2
  {
    FirstSteps(env, s);
    var made := UNTIL_DEDUCTED;
    assert Execution(env, s).1[..DEDUCTED_AT] == made;
    assert made[1..][1..] == made[2..] && made[2..][1..] == made[3..] && made[3..][1..] == made[4..];
    assert made[4..][1..] == made[5..] && made[5..][1..] == [];
    assert After(Begin(s), made, DEDUCT).executed == 2;
    AfterRow(Begin(s), made, DEDUCT);
  }

  lemma FirstSteps(env: Env, s: SagaRecord)
    requires env == AllSucceed() && s == PaymentSaga()
    ensures UNTIL_DEDUCTED <= Execution(env, s).1
  {
    var s0 := s.(state := InProgress);
    var s1 := s0.(steps := s0.steps[0 := StepResult(env, s0.steps[0], 0)], currentStep := 1);
    var s2 := s1.(steps := s1.steps[1 := StepResult(env, s1.steps[1], 1)], currentStep := 2);
    RunIs(env, s);
    assert Forward(env, s0).1 == StepEffects(env, s0.steps[0], 0) + Forward(env, s1).1;
    assert Forward(env, s1).1 == StepEffects(env, s1.steps[1], 1) + Forward(env, s2).1;
    assert StepEffects(env, s0.steps[0], 0)
      == [StoreStatus(0, Executing), Execute(0, 0, true), StoreStatus(0, Completed)];
    assert StepEffects(env, s1.steps[1], 1)
      == [StoreStatus(1, Executing), Execute(1, 0, true), StoreStatus(1, Completed)];
  }

  /** A recovery whose first step fails calls nothing. */
  lemma FailsAtOnce(again: Env, s: SagaRecord, t: seq<Effect>)
    requires Replay(s, t).state == InProgress && Replay(s, t).currentStep == 0 && FirstFailure(again, s.steps, 0)
      && s.steps != []
    ensures CompensateCalls(Recovery(again, Replay(s, t))) == []
  {
    var row := Replay(s, t);
    ReplayKeepsPlan(s, t);
    SamePlanFailsAlike(again, s.steps, row.steps, 0);
    RunCompensates(again, row, 0);
  }

  /** A wallet that covers the amount once but not twice.  The payment saga crashes
      after its deduction; the recovery validates the reduced balance, fails, and marks
      the saga compensated without a compensation: the amount is gone and nothing completed. */
  lemma RecoveryLosesTheAmount(env: Env, s: SagaRecord, balance: int, amount: int)
    requires env == AllSucceed() && s == PaymentSaga() && 0 < amount <= balance < 2 * amount
    ensures DEDUCTED_AT <= |Execution(env, s).1|
    ensures var made := Execution(env, s).1[..DEDUCTED_AT];
      var row := Replay(s, made);
      var again := Validates(Settle(balance, made, DEDUCT, amount), amount);
      && row.state == InProgress && row.currentStep == 0
      && Execution(again, row).0.state == SagaCompensated
      && CompensateCalls(Recovery(again, row)) == []
      && Settle(balance, made + Recovery(again, row), DEDUCT, amount) == balance - amount
  {
    CrashAfterDeduction(env, s);
    PaidAtCrash(env, s, balance, amount);
    var made := Execution(env, s).1[..DEDUCTED_AT];
    var again := Validates(balance - amount, amount);
    ValidationFails(again, s);
    RecoverySettles(env, s, DEDUCTED_AT, again, 0, DEDUCT, balance, amount);
    FailsAtOnce(again, s, made);
  }

  lemma ValidationFails(again: Env, s: SagaRecord)
    requires s == PaymentSaga() && forall a: nat :: !again.execute(0, a)
    ensures Fresh(s) && |s.steps| == 4 && FirstFailure(again, s.steps, 0)
  {
  }

  lemma PaidAtCrash(env: Env, s: SagaRecord, balance: int, amount: int)
    requires env == AllSucceed() && s == PaymentSaga()
    ensures DEDUCTED_AT <= |Execution(env, s).1|
    ensures Settle(balance, Execution(env, s).1[..DEDUCTED_AT], DEDUCT, amount) == balance - amount
  {
    var made := Execution(env, s).1[..DEDUCTED_AT];
    CrashAfterDeduction(env, s);
    CrashPoint(env, s, DEDUCT, DEDUCTED_AT);
    PaidOnce(s, balance, made, DEDUCT, amount);
  }

  lemma PaidOnce(s: SagaRecord, balance: int, t: seq<Effect>, d: nat, amount: int)
    requires After(Begin(s), t, d).charged == 1 && After(Begin(s), t, d).undone == 0
    ensures Settle(balance, t, d, amount) == balance - amount
  {
    SettleIs(Begin(s), balance, t, d, amount);
  }

  // ---------- recoveries that crash too ----------

  /** Two records with the same plan, whose steps before `i` stand alike. */
  predicate SamePlan(a: SagaRecord, b: SagaRecord, i: nat)
  {
    && |a.steps| == |b.steps| && a.currentStep == b.currentStep && i <= |a.steps|
    && (forall j :: 0 <= j < |a.steps| ==> b.steps[j] == a.steps[j].(status := b.steps[j].status))
    && (forall j :: 0 <= j < i ==> b.steps[j].status == a.steps[j].status)
  }

  function Advanced(env: Env, s: SagaRecord): SagaRecord
    requires s.currentStep < |s.steps|
  {
    var i := s.currentStep;
    s.(steps := s.steps[i := StepResult(env, s.steps[i], i)], currentStep := i + 1)
  }

  lemma SameStep(env: Env, a: SagaRecord, b: SagaRecord)
    requires SamePlan(a, b, a.currentStep) && a.currentStep < |a.steps|
    ensures var i := a.currentStep;
      && StepEffects(env, a.steps[i], i) == StepEffects(env, b.steps[i], i)
      && StepOk(env, a.steps[i], i) == StepOk(env, b.steps[i], i)
      && (StepOk(env, a.steps[i], i) ==> SamePlan(Advanced(env, a), Advanced(env, b), i + 1))
      && SamePlan(a.(steps := Advanced(env, a).steps), b.(steps := Advanced(env, b).steps), i)
  {
  }

  /** The statuses that an earlier run left do not change what a run does. */
  lemma {:induction false} SameForward(env: Env, a: SagaRecord, b: SagaRecord)
    requires SamePlan(a, b, a.currentStep)
    ensures Forward(env, a).1 == Forward(env, b).1
    ensures SamePlan(Forward(env, a).0, Forward(env, b).0, Forward(env, a).0.currentStep)
    decreases |a.steps| - a.currentStep
  {
    var i := a.currentStep;
    if i < |a.steps| {
      SameStep(env, a, b);
      ForwardIs(env, a);
      ForwardIs(env, b);
      if StepOk(env, a.steps[i], i) {
        SameForward(env, Advanced(env, a), Advanced(env, b));
      }
    }
  }

  lemma {:induction false} SameBackward(env: Env, a: seq<Step>, b: seq<Step>, i: nat)
    requires i <= |a| == |b| && forall j :: 0 <= j < i ==> a[j] == b[j]
    ensures Backward(env, a, i).1 == Backward(env, b, i).1
    decreases i
  {
    if i > 0 {
      SameBackward(env, a[i - 1 := UndoResult(env, a[i - 1], i - 1)], b[i - 1 := UndoResult(env, b[i - 1], i - 1)],
        i - 1);
    }
  }

  lemma SameTail(env: Env, a: SagaRecord, b: SagaRecord)
    requires SamePlan(a, b, a.currentStep)
    ensures Tail(env, a) == Tail(env, b)
  {
    assert forall j :: 0 <= j < a.currentStep ==> a.steps[j] == b.steps[j];
    SameBackward(env, a.steps, b.steps, a.currentStep);
  }

  /** A run of a stored row makes the effects of the saga as it was first stored. */
  lemma RowRunsAsTheSaga(env: Env, s: SagaRecord, t: seq<Effect>)
    requires s.currentStep == 0
    ensures Replay(s, t).currentStep == 0 && Execution(env, Replay(s, t)).1 == Execution(env, s).1
  {
    var row := Replay(s, t);
    ReplayKeepsPlan(s, t);
    ReplayKeepsStart(s, t);
    SameForward(env, s.(state := InProgress), row.(state := InProgress));
    RunIs(env, s);
    RunIs(env, row);
    SameTail(env, Forward(env, s.(state := InProgress)).0, Forward(env, row.(state := InProgress)).0);
  }

  /** A run that made `m` of its effects and crashed. */
  datatype Attempt = Attempt(env: Env, m: nat)

  predicate Reaches(s: SagaRecord, attempts: seq<Attempt>)
    requires s.currentStep <= |s.steps|
  {
    forall n :: 0 <= n < |attempts| ==> attempts[n].m <= |Execution(attempts[n].env, s).1|
  }

  function MadeBy(s: SagaRecord, a: Attempt): seq<Effect>
    requires s.currentStep <= |s.steps| && a.m <= |Execution(a.env, s).1|
  {
    Execution(a.env, s).1[..a.m]
  }

  /** All that the attempts made, one after the other. */
  function MadeByAll(s: SagaRecord, attempts: seq<Attempt>): seq<Effect>
    requires s.currentStep <= |s.steps| && Reaches(s, attempts)
  {
    if attempts == [] then []
    else MadeByAll(s, attempts[..|attempts| - 1]) + MadeBy(s, attempts[|attempts| - 1])
  }

  /** Each of the attempts crashed in progress. */
  predicate CrashInProgress(s: SagaRecord, attempts: seq<Attempt>)
    requires s.currentStep <= |s.steps| && Reaches(s, attempts)
  {
    attempts != [] ==>
      && CrashInProgress(s, attempts[..|attempts| - 1])
      && Replay(s, MadeByAll(s, attempts)).state == InProgress
  }

  /** How many of the attempts had executed step `d` when they crashed. */
  function Charges(s: SagaRecord, attempts: seq<Attempt>, d: nat): nat
    requires s.currentStep <= |s.steps| && Reaches(s, attempts)
  {
    if attempts == [] then 0
    else
      var last := attempts[|attempts| - 1];
      Charges(s, attempts[..|attempts| - 1], d) + (if After(Begin(s), MadeBy(s, last), d).executed > d then 1 else 0)
  }

  /** Counting calls does not look at the row. */
  lemma {:induction false} CountsIgnoreTheRow(p: Point, q: Point, t: seq<Effect>, d: nat)
    requires p.(row := q.row) == q
    ensures After(p, t, d).(row := After(q, t, d).row) == After(q, t, d)
    decreases |t|
  {
    if t != [] {
      CountsIgnoreTheRow(Tick(p, t[0], d), Tick(q, t[0], d), t[1..], d);
    }
  }

  /** An attempt that leaves its row in progress owes what it executed, and undid nothing. */
  lemma AttemptOwes(s: SagaRecord, row: SagaRecord, a: Attempt, d: nat, balance: int, amount: int)
    requires Fresh(s) && a.m <= |Execution(a.env, s).1| && Replay(row, MadeBy(s, a)).state == InProgress
    ensures Settle(balance, MadeBy(s, a), d, amount)
      == balance - One(After(Begin(s), MadeBy(s, a), d).executed > d) * amount
  {
    var made := MadeBy(s, a);
    CrashPoint(a.env, s, d, a.m);
    SettleIs(Begin(s), balance, made, d, amount);
    if a.m > 0 {
      RunStateWrites(a.env, s);
      StateAfterFirst(s, row, made);
    }
  }

  lemma StateAfterFirst(s: SagaRecord, row: SagaRecord, t: seq<Effect>)
    requires t != [] && t[0].StoreState?
    ensures Replay(s, t).state == Replay(row, t).state
  {
    SameStates(Store(s, t[0]), Store(row, t[0]), t[1..]);
  }

  lemma {:induction false} SameStates(a: SagaRecord, b: SagaRecord, t: seq<Effect>)
    requires a.state == b.state
    ensures Replay(a, t).state == Replay(b, t).state
    decreases |t|
  {
    if t != [] {
      SameStates(Store(a, t[0]), Store(b, t[0]), t[1..]);
    }
  }

  lemma {:induction false} AttemptsOwe(s: SagaRecord, attempts: seq<Attempt>, d: nat, balance: int, amount: int)
    requires Fresh(s) && Reaches(s, attempts) && CrashInProgress(s, attempts)
    ensures Settle(balance, MadeByAll(s, attempts), d, amount) == balance - Charges(s, attempts, d) * amount
  {
    if attempts != [] {
      var front, last := attempts[..|attempts| - 1], attempts[|attempts| - 1];
      var made := MadeByAll(s, front);
      AttemptsOwe(s, front, d, balance, amount);
      ReplaySplits(s, made, MadeBy(s, last));
      AttemptOwes(s, Replay(s, made), last, d, balance - Charges(s, front, d) * amount, amount);
      SettleSplits(balance, made, MadeBy(s, last), d, amount);
      Distribute(Charges(s, front, d), One(After(Begin(s), MadeBy(s, last), d).executed > d), amount);
    }
  }

  /** Any number of attempts that crash in progress, the first of them the saga's own
      run and the others its recoveries, and then a recovery that ends: the wallet has
      paid once for each attempt that had executed step `d`, once more if the last
      recovery gets past `d`, and got back at most one of them. */
  lemma RepeatedRecoverySettles(s: SagaRecord, attempts: seq<Attempt>, again: Env, k: nat, d: nat, balance: int,
    amount: int)
    requires Fresh(s) && d < |s.steps| && attempts != [] && Reaches(s, attempts) && CrashInProgress(s, attempts)
    requires FirstFailure(again, s.steps, k)
    ensures var made := MadeByAll(s, attempts); var row := Replay(s, made);
      && row.currentStep == 0 && Recovery(again, row) == Execution(again, s).1
      && Settle(balance, made + Recovery(again, row), d, amount)
         == balance - (Charges(s, attempts, d) + One(d < k) - One(Undoes(again, s.steps, k, d))) * amount
  {
    var made := MadeByAll(s, attempts);
    RowRunsAsTheSaga(again, s, made);
    AttemptsOwe(s, attempts, d, balance, amount);
    var paid := balance - Charges(s, attempts, d) * amount;
    SettleSplits(balance, made, Execution(again, s).1, d, amount);
    RunAfter(again, s, k, d);
    SettleIs(Begin(s), paid, Execution(again, s).1, d, amount);
    Distribute(Charges(s, attempts, d), One(d < k) - One(Undoes(again, s.steps, k, d)), amount);
  }

  // ---------- resuming from the stored frontier instead ----------

  /** The row as a recovery would load it if it went by the statuses stored. */
  function AtFrontier(row: SagaRecord): SagaRecord
  {
    row.(currentStep := Frontier(row.steps))
  }

  lemma {:induction false} FrontierFits(steps: seq<Step>)
    ensures Frontier(steps) <= |steps|
  {
    if steps != [] {
      FrontierFits(steps[1..]);
    }
  }

  /** A crash in progress, resumed from the stored frontier: step `d` is executed
      successfully twice exactly when the crash came between its success and the write
      of it, and the resumed run gets past it; no step is ever repeated more often. */
  lemma FrontierRepeatsAtMostOne(env: Env, s: SagaRecord, m: nat, again: Env, d: nat)
    requires Fresh(s) && d < |s.steps| && m <= |Execution(env, s).1|
    requires Replay(s, Execution(env, s).1[..m]).state == InProgress
    ensures var made := Execution(env, s).1[..m];
      var row := Replay(s, made);
      var f, p := Frontier(row.steps), After(Begin(s), made, d);
      && f <= |row.steps|
      && var resumed := AtFrontier(row).(state := InProgress);
      && var charged := p.charged + After(Begin(row), Execution(again, AtFrontier(row)).1, d).charged;
      && charged <= 2
      && (charged == 2 <==> d == f && p.executed == f + 1 && Forward(again, resumed).0.currentStep > d)
  {
    var made := Execution(env, s).1[..m];
    var row := Replay(s, made);
    CrashPoint(env, s, d, m);
    FrontierFits(row.steps);
    ResumedCharges(again, AtFrontier(row), row, d);
  }

  lemma ResumedCharges(env: Env, s: SagaRecord, row: SagaRecord, d: nat)
    requires s.currentStep <= |s.steps| == |row.steps|
    ensures After(Begin(row), Execution(env, s).1, d).charged
      == One(s.currentStep <= d < Forward(env, s.(state := InProgress)).0.currentStep)
  {
    var start := s.(state := InProgress);
    var (mid, f) := Forward(env, start);
    RunIs(env, s);
    var p := Tick(Begin(row), StoreState(InProgress), d);
    AfterOne(Begin(row), StoreState(InProgress), f + Tail(env, mid), d);
    AfterSplits(p, f, Tail(env, mid), d);
    ForwardAfter(env, start, p, d);
    TailAfter(env, mid, After(p, f, d), d);
  }

  // ---------- every crash point ----------

  lemma {:induction false} StateWritten(row: SagaRecord, t: seq<Effect>)
    ensures var state := Replay(row, t).state; state == row.state || StoreState(state) in t
    decreases |t|
  {
    if t != [] {
      StateWritten(Store(row, t[0]), t[1..]);
    }
  }

  predicate WritesNoState(t: seq<Effect>)
  {
    forall e :: e in t ==> !e.StoreState?
  }

  lemma {:induction false} ForwardWritesNoState(env: Env, s: SagaRecord)
    ensures WritesNoState(Forward(env, s).1)
    decreases |s.steps| - s.currentStep
  {
    var i := s.currentStep;
    if i < |s.steps| {
      StepWritesNoState(env, s.steps[i], i);
      ForwardWritesNoState(env, s.(steps := s.steps[i := StepResult(env, s.steps[i], i)], currentStep := i + 1));
    }
  }

  lemma StepWritesNoState(env: Env, step: Step, i: nat)
    ensures WritesNoState(StepEffects(env, step, i))
  {
    forall e | e in Attempts(env, i, 0, step.maxRetries)
      ensures e.Execute?
    {
      AttemptsAre(env, i, 0, step.maxRetries, e);
    }
  }

  lemma {:induction false} BackwardWritesNoState(env: Env, steps: seq<Step>, i: nat)
    requires i <= |steps|
    ensures WritesNoState(Backward(env, steps, i).1)
    decreases i
  {
    if i > 0 {
      BackwardWritesNoState(env, steps[i - 1 := UndoResult(env, steps[i - 1], i - 1)], i - 1);
    }
  }

  /** A run's state writes: in progress first, perhaps failed, and its final state last. */
  lemma RunStateWrites(env: Env, s: SagaRecord)
    requires s.currentStep <= |s.steps|
    ensures var t := Execution(env, s).1;
      && |t| >= 2 && t[0] == StoreState(InProgress)
      && (t[|t| - 1] == StoreState(SagaCompleted) || t[|t| - 1] == StoreState(SagaCompensated))
      && forall n :: 0 < n < |t| - 1 && t[n].StoreState? ==> t[n].state == SagaFailed
  {
    RunIs(env, s);
    var (mid, f) := Forward(env, s.(state := InProgress));
    ForwardWritesNoState(env, s.(state := InProgress));
    if mid.currentStep < |mid.steps| {
      BackwardWritesNoState(env, mid.steps, mid.currentStep);
    }
    TailStateWrites(env, mid, f);
  }

  lemma TailStateWrites(env: Env, mid: SagaRecord, f: seq<Effect>)
    requires mid.currentStep <= |mid.steps| && WritesNoState(f)
    requires mid.currentStep < |mid.steps| ==> WritesNoState(Backward(env, mid.steps, mid.currentStep).1)
    ensures var t := f + Tail(env, mid);
      && t != []
      && (t[|t| - 1] == StoreState(SagaCompleted) || t[|t| - 1] == StoreState(SagaCompensated))
      && forall n :: 0 <= n < |t| - 1 && t[n].StoreState? ==> t[n].state == SagaFailed
  {
    var tail := Tail(env, mid);
    if mid.currentStep < |mid.steps| {
      var back := Backward(env, mid.steps, mid.currentStep).1;
      assert tail == [StoreState(SagaFailed)] + back + [StoreState(SagaCompensated)];
      assert forall n :: 1 <= n < |tail| - 1 ==> tail[n] in back;
    }
    assert forall n :: 0 <= n < |f| ==> (f + tail)[n] in f;
    assert forall n :: |f| <= n < |f + tail| ==> (f + tail)[n] == tail[n - |f|];
  }

  /** Which crashes leave which row.  Only one before the first write leaves it
      started; a run that made all its effects leaves a final state, which is not
      offered to recovery; every other leaves it in progress or failed. */
  lemma CrashState(env: Env, s: SagaRecord, m: nat)
    requires Fresh(s) && m <= |Execution(env, s).1|
    ensures var row := Replay(s, Execution(env, s).1[..m]);
      && (row.state == Started <==> m == 0)
      && (0 < m < |Execution(env, s).1| ==> row.state == InProgress || row.state == SagaFailed)
      && (m == |Execution(env, s).1| ==> row.state == SagaCompleted || row.state == SagaCompensated)
      && (IsPending(row) <==> m < |Execution(env, s).1|)
  {
    var t := Execution(env, s).1;
    RunStateWrites(env, s);
    if m == |t| {
      assert t[..m] == t[..m - 1] + [t[m - 1]];
      ReplaySplits(s, t[..m - 1], [t[m - 1]]);
      assert [t[m - 1]][1..] == [];
    } else if m > 0 {
      var rest := t[1..m];
      assert t[..m] == [t[0]] + rest;
      ReplaySplits(s, [t[0]], rest);
      assert [t[0]][1..] == [];
      var state := Replay(Store(s, t[0]), rest).state;
      StateWritten(Store(s, t[0]), rest);
      if StoreState(state) in rest {
        var n :| 0 <= n < |rest| && rest[n] == StoreState(state);
        assert t[n + 1] == StoreState(state);
      }
    }
  }

  /** The run crashes with its row stored as failed, that is, during compensation.
      Recovery then calls nothing: it marks the saga compensated as it stands, so a
      deduction not yet refunded stays deducted. */
  lemma RecoveredFailureIsNotCompensated(env: Env, s: SagaRecord, m: nat, again: Env, d: nat, balance: int, amount: int)
    requires Fresh(s) && m <= |Execution(env, s).1|
    requires Replay(s, Execution(env, s).1[..m]).state == SagaFailed
    ensures var made := Execution(env, s).1[..m];
      var row := Replay(s, made);
      var p := After(Begin(s), made, d);
      && row.currentStep == 0
      && Recovery(again, row) == [StoreState(SagaFailed), StoreState(SagaCompensated)]
      && Replay(row, Recovery(again, row)) == row.(state := SagaCompensated)
      && Settle(balance, made + Recovery(again, row), d, amount)
         == if p.charged == 1 && p.undone == 0 then balance - amount else balance
  {
    var made := Execution(env, s).1[..m];
    var row := Replay(s, made);
    CrashPoint(env, s, d, m);
    var t := Recovery(again, row);
    assert t == [StoreState(SagaFailed), StoreState(SagaCompensated)] by {
      assert Backward(again, row.steps, 0).1 == [];
    }
    assert t == [t[0]] + [t[1]] && [t[0]][1..] == [] && [t[1]][1..] == [];
    ReplaySplits(row, [t[0]], [t[1]]);
    var paid := Settle(balance, made, d, amount);
    SettleSplits(paid, [t[0]], [t[1]], d, amount);
    SettleSplits(balance, made, t, d, amount);
    SettleIs(Begin(s), balance, made, d, amount);
  }

  /** A crash leaves a row that recovery is offered and does nothing with exactly
      when it comes before the run's first write. */
  lemma StartedIsNeverResumed(env: Env, again: Env, s: SagaRecord, m: nat)
    requires Fresh(s) && m <= |Execution(env, s).1|
    ensures var row := Replay(s, Execution(env, s).1[..m]);
      && row.currentStep == 0
      && (IsPending(row) && Recovery(again, row) == [] <==> m == 0)
  {
    CrashState(env, s, m);
    CrashPoint(env, s, 0, m);
    var row := Replay(s, Execution(env, s).1[..m]);
    if row.state == InProgress {
      RunIs(again, row);
    }
  }
}
