/** One payment as a step machine: a step per repository or gateway call, so
    that payments can be interleaved exactly where the service can be. */
module PaymentMachine {
  import opened WalletRepository

  /** The error codes of the payment-failed event. */
  datatype FailReason = InsufficientBalance | DeductionFailed | GatewayError

  datatype Verdict = NotSaved | Succeeded | Rejected(reason: FailReason)

  /** The call a payment makes next.  `seen` is the wallet as it was read. */
  datatype Pc =
    | Saving
    | Validating
    | DeductReading
    | DeductInserting(seen: Wallet)
    | DeductUpdating(seen: Wallet)
    | MarkingProcessing
    | AtGateway
    | RefundReading
    | RefundInserting(seen: Wallet)
    | RefundUpdating(seen: Wallet)
    | MarkingCompleted
    | MarkingFailed(reason: FailReason)
    | Done(verdict: Verdict)

  /** `debited` and `refunded` record that the payment's own balance update was committed. */
  datatype Payment = Payment(id: nat, key: WalletKey, amount: int, pc: Pc, debited: bool, refunded: bool)

  function NewPayment(id: nat, key: WalletKey, amount: int): Payment
  {
    Payment(id, key, amount, Saving, false, false)
  }

  function At(p: Payment, pc: Pc): Payment
  {
    p.(pc := pc)
  }

  /** One call.  `reply` is false when the call returns an error; at the gateway,
      when the payment is not approved. */
  function Step(db: Db, p: Payment, reply: bool): (Db, Payment)
  {
    match p.pc
    case Saving =>
      (SavePayment(db, p.id, reply), At(p, if reply then Validating else Done(NotSaved)))
    case Validating =>
      var w := FindWallet(db, p.key, reply);
      (db, At(p, if w.None? || w.value.balance < p.amount then MarkingFailed(InsufficientBalance) else DeductReading))
    case DeductReading =>
      var w := FindWallet(db, p.key, reply);
      (db, At(p, if w.None? || w.value.balance < p.amount then MarkingFailed(DeductionFailed)
        else DeductInserting(w.value)))
    case DeductInserting(seen) =>
      (InsertTransaction(db, Transaction(p.key, p.id, Debit, p.amount), reply),
       At(p, if reply then DeductUpdating(seen) else MarkingFailed(DeductionFailed)))
    case DeductUpdating(seen) =>
      (CasBalance(db, p.key, seen.balance - p.amount, seen.version, reply),
       if CasMatches(db, p.key, seen.version, reply)
       then At(p, MarkingProcessing).(debited := true)
       else At(p, MarkingFailed(DeductionFailed)))
    case MarkingProcessing =>
      (SetStatus(db, p.id, Processing, reply), At(p, AtGateway))
    case AtGateway =>
      (db, At(p, if reply then MarkingCompleted else RefundReading))
    case RefundReading =>
      var w := FindWallet(db, p.key, reply);
      (db, At(p, if w.None? then MarkingFailed(GatewayError) else RefundInserting(w.value)))
    case RefundInserting(seen) =>
      (InsertTransaction(db, Transaction(p.key, p.id, Credit, p.amount), reply),
       At(p, if reply then RefundUpdating(seen) else MarkingFailed(GatewayError)))
    case RefundUpdating(seen) =>
      (CasBalance(db, p.key, seen.balance + p.amount, seen.version, reply),
       if CasMatches(db, p.key, seen.version, reply)
       then At(p, MarkingFailed(GatewayError)).(refunded := true)
       else At(p, MarkingFailed(GatewayError)))
    case MarkingCompleted =>
      (SetStatus(db, p.id, Completed, reply), At(p, Done(Succeeded)))
    case MarkingFailed(reason) =>
      (SetStatus(db, p.id, Failed, reply), At(p, Done(Rejected(reason))))
    case Done(_) =>
      (db, p)
  }

  /** Calls still to come; bounds a payment run alone. */
  function Remaining(pc: Pc): nat
  {
    match pc
    case Saving => 12
    case Validating => 11
    case DeductReading => 10
    case DeductInserting(_) => 9
    case DeductUpdating(_) => 8
    case MarkingProcessing => 7
    case AtGateway => 6
    case RefundReading => 5
    case RefundInserting(_) => 4
    case RefundUpdating(_) => 3
    case MarkingCompleted => 1
    case MarkingFailed(_) => 1
    case Done(_) => 0
  }

  /** A payment makes each call at most once, so its environment is one reply a call. */
  datatype Replies = Replies(
    saving: bool, validating: bool,
    deductReading: bool, deductInserting: bool, deductUpdating: bool,
    markingProcessing: bool, gateway: bool,
    refundReading: bool, refundInserting: bool, refundUpdating: bool,
    markingFinal: bool)

  function ReplyAt(env: Replies, pc: Pc): bool
  {
    match pc
    case Saving => env.saving
    case Validating => env.validating
    case DeductReading => env.deductReading
    case DeductInserting(_) => env.deductInserting
    case DeductUpdating(_) => env.deductUpdating
    case MarkingProcessing => env.markingProcessing
    case AtGateway => env.gateway
    case RefundReading => env.refundReading
    case RefundInserting(_) => env.refundInserting
    case RefundUpdating(_) => env.refundUpdating
    case MarkingCompleted => env.markingFinal
    case MarkingFailed(_) => env.markingFinal
    case Done(_) => true
  }

  /** `n` steps of `p` with no other payment in between. */
  function Alone(db: Db, p: Payment, env: Replies, n: nat): (Db, Payment)
    decreases n
  {
    if n == 0 then (db, p)
    else var (d, q) := Step(db, p, ReplyAt(env, p.pc)); Alone(d, q, env, n - 1)
  }

  lemma {:induction false} AloneSplits(db: Db, p: Payment, env: Replies, m: nat, n: nat)
    ensures Alone(db, p, env, m + n) == Alone(Alone(db, p, env, m).0, Alone(db, p, env, m).1, env, n)
    decreases m
  {
    if m > 0 {
      var (d, q) := Step(db, p, ReplyAt(env, p.pc));
      AloneSplits(d, q, env, m - 1, n);
    }
  }

  /** Steps `p` alone for as long as it stays `inside`. */
  function Drive(db: Db, p: Payment, env: Replies, inside: Pc -> bool): (Db, Payment)
    decreases Remaining(p.pc)
  {
    if p.pc.Done? || !inside(p.pc) then (db, p)
    else var (d, q) := Step(db, p, ReplyAt(env, p.pc)); Drive(d, q, env, inside)
  }

  function Anywhere(): Pc -> bool
  {
    (pc: Pc) => true
  }

  function InDeduct(): Pc -> bool
  {
    (pc: Pc) => pc.DeductReading? || pc.DeductInserting? || pc.DeductUpdating?
  }

  function InRefund(): Pc -> bool
  {
    (pc: Pc) => pc.RefundReading? || pc.RefundInserting? || pc.RefundUpdating?
  }

  /** A whole payment with no other payment in between. */
  function Solo(db: Db, p: Payment, env: Replies): (Db, Payment)
  {
    Drive(db, p, env, Anywhere())
  }

  lemma DriveTakes(db: Db, p: Payment, env: Replies, inside: Pc -> bool)
    requires !p.pc.Done? && inside(p.pc)
    ensures var (d, q) := Step(db, p, ReplyAt(env, p.pc)); Drive(db, p, env, inside) == Drive(d, q, env, inside)
  {
  }

  /** A payment run as part of the whole ends where the whole does. */
  lemma {:induction false} SoloResumes(db: Db, p: Payment, env: Replies, inside: Pc -> bool)
    ensures Solo(Drive(db, p, env, inside).0, Drive(db, p, env, inside).1, env) == Solo(db, p, env)
    decreases Remaining(p.pc)
  {
    if !p.pc.Done? && inside(p.pc) {
      var next := Step(db, p, ReplyAt(env, p.pc));
      DriveTakes(db, p, env, inside);
      DriveTakes(db, p, env, Anywhere());
      StepDecreases(db, p, ReplyAt(env, p.pc));
      SoloResumes(next.0, next.1, env, inside);
    }
  }

  lemma StepDecreases(db: Db, p: Payment, reply: bool)
    ensures !p.pc.Done? ==> Remaining(Step(db, p, reply).1.pc) < Remaining(p.pc)
  {
  }

  /** From arrival to the committed debit, when no call fails and the balance suffices. */
  lemma ChargeSteps(db: Db, p: Payment, env: Replies)
    requires p.pc.Saving? && p.key in db.wallets && db.wallets[p.key].balance >= p.amount
    requires env.saving && env.validating && env.deductReading && env.deductInserting && env.deductUpdating
    ensures var w := db.wallets[p.key];
      Alone(db, p, env, 5)
      == (Db(db.wallets[p.key := Wallet(w.balance - p.amount, w.version + 1)],
             db.transactions + [Transaction(p.key, p.id, Debit, p.amount)],
             db.payments[p.id := Pending]),
          p.(pc := MarkingProcessing, debited := true))
  {
    AloneSplits(db, p, env, 3, 2);
  }

  /** From the debit to the end of a payment that the gateway accepts. */
  lemma AcceptSteps(db: Db, p: Payment, env: Replies)
    requires p.pc.MarkingProcessing? && env.gateway && env.markingProcessing && env.markingFinal
    ensures Alone(db, p, env, 3)
      == (SetStatus(SetStatus(db, p.id, Processing, true), p.id, Completed, true), p.(pc := Done(Succeeded)))
  {
  }
}
