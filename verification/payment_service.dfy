/** The wallet and payment services, as methods that make the repository calls
    in order.  Each is proved to do what the payment machine does when nothing
    else runs in between; PaymentLedger says what happens when something does. */
module PaymentService {
  import opened WalletRepository
  import opened PaymentMachine
  import opened PaymentVerdicts

  class WalletService {
    const repo: Repository

    constructor (repo: Repository)
      ensures this.repo == repo
    {
      this.repo := repo;
    }

    method ValidateBalance(key: WalletKey, amount: int, reply: bool) returns (ok: bool)
      ensures ok <==> reply && key in repo.wallets && repo.wallets[key].balance >= amount
    {
      var wallet := repo.GetWalletByUserID(key, reply);
      if wallet.None? {
        return false;
      }
      if wallet.value.balance < amount {
        return false;
      }
      return true;
    }

    method DeductBalance(key: WalletKey, amount: int, paymentID: nat, env: Replies) returns (ok: bool)
      modifies repo
      ensures var pc := if ok then MarkingProcessing else MarkingFailed(DeductionFailed);
        (repo.State(), Payment(paymentID, key, amount, pc, ok, false))
        == Drive(old(repo.State()), Payment(paymentID, key, amount, DeductReading, false, false), env, InDeduct())
    {
      ghost var p := Payment(paymentID, key, amount, DeductReading, false, false);
      DriveTakes(repo.State(), p, env, InDeduct());
      var wallet := repo.GetWalletByUserID(key, env.deductReading);
      if wallet.None? {
        return false;
      }
      if wallet.value.balance < amount {
        return false;
      }
      var newBalance := wallet.value.balance - amount;
      DriveTakes(repo.State(), At(p, DeductInserting(wallet.value)), env, InDeduct());
      var created := repo.CreateTransaction(Transaction(key, paymentID, Debit, amount), env.deductInserting);
      if !created {
        return false;
      }
      DriveTakes(repo.State(), At(p, DeductUpdating(wallet.value)), env, InDeduct());
      var updated := repo.UpdateBalance(key, newBalance, wallet.value.version, env.deductUpdating);
      if !updated {
        return false;
      }
      return true;
    }

    method RefundBalance(key: WalletKey, amount: int, paymentID: nat, env: Replies) returns (ok: bool)
      modifies repo
      ensures (repo.State(), Payment(paymentID, key, amount, MarkingFailed(GatewayError), true, ok))
           == Drive(old(repo.State()), Payment(paymentID, key, amount, RefundReading, true, false), env, InRefund())
    {
      ghost var p := Payment(paymentID, key, amount, RefundReading, true, false);
      DriveTakes(repo.State(), p, env, InRefund());
      var wallet := repo.GetWalletByUserID(key, env.refundReading);
      if wallet.None? {
        return false;
      }
      var newBalance := wallet.value.balance + amount;
      DriveTakes(repo.State(), At(p, RefundInserting(wallet.value)), env, InRefund());
      var created := repo.CreateTransaction(Transaction(key, paymentID, Credit, amount), env.refundInserting);
      if !created {
        return false;
      }
      DriveTakes(repo.State(), At(p, RefundUpdating(wallet.value)), env, InRefund());
      var updated := repo.UpdateBalance(key, newBalance, wallet.value.version, env.refundUpdating);
      if !updated {
        return false;
      }
      return true;
    }
  }

  class PaymentProcessor {
    const repo: Repository
    const walletService: WalletService

    constructor (repo: Repository, walletService: WalletService)
      ensures this.repo == repo && this.walletService == walletService
    {
      this.repo, this.walletService := repo, walletService;
    }

    /** The manual flow.  `env` answers each call, the gateway's included; the
        verdict is the event published at the end. */
    method ProcessPayment(id: nat, key: WalletKey, amount: int, env: Replies) returns (verdict: Verdict)
      requires walletService.repo == repo
      modifies repo
      ensures var (db, p) := Solo(old(repo.State()), NewPayment(id, key, amount), env);
        repo.State() == db && p.pc == Done(verdict)
      ensures Settled(old(repo.State()), id, key, amount, env, repo.State(), verdict)
    {
      SoloSettles(repo.State(), id, key, amount, env);
      ghost var p := NewPayment(id, key, amount);
      DriveTakes(repo.State(), p, env, Anywhere());
      var saved := repo.Save(id, env.saving);
      if !saved {
        return NotSaved;
      }
      DriveTakes(repo.State(), At(p, Validating), env, Anywhere());
      var valid := walletService.ValidateBalance(key, amount, env.validating);
      if !valid {
        DriveTakes(repo.State(), At(p, MarkingFailed(InsufficientBalance)), env, Anywhere());
        repo.UpdateStatus(id, Failed, env.markingFinal);
        return Rejected(InsufficientBalance);
      }
      verdict := ChargePayment(id, key, amount, env);
    }

    /** The flow from the deduction on, for a payment that has validated. */
    method ChargePayment(id: nat, key: WalletKey, amount: int, env: Replies) returns (verdict: Verdict)
      requires walletService.repo == repo
      modifies repo
      ensures var (db, p) := Solo(old(repo.State()), Payment(id, key, amount, DeductReading, false, false), env);
        repo.State() == db && p.pc == Done(verdict)
    {
      ghost var p := Payment(id, key, amount, DeductReading, false, false);
      SoloResumes(repo.State(), p, env, InDeduct());
      var deducted := walletService.DeductBalance(key, amount, id, env);
      if !deducted {
        DriveTakes(repo.State(), At(p, MarkingFailed(DeductionFailed)), env, Anywhere());
        repo.UpdateStatus(id, Failed, env.markingFinal);
        return Rejected(DeductionFailed);
      }
      DriveTakes(repo.State(), At(p, MarkingProcessing).(debited := true), env, Anywhere());
      repo.UpdateStatus(id, Processing, env.markingProcessing);
      verdict := FinishPayment(id, key, amount, env);
    }

    /** The continuation spawned after the deduction: gateway, then completion or
        refund.  The refund's result is not looked at. */
    method FinishPayment(id: nat, key: WalletKey, amount: int, env: Replies) returns (verdict: Verdict)
      requires walletService.repo == repo
      modifies repo
      ensures var (db, p) := Solo(old(repo.State()), Payment(id, key, amount, AtGateway, true, false), env);
        repo.State() == db && p.pc == Done(verdict)
    {
      ghost var p := Payment(id, key, amount, AtGateway, true, false);
      DriveTakes(repo.State(), p, env, Anywhere());
      if !env.gateway {
        SoloResumes(repo.State(), At(p, RefundReading), env, InRefund());
        var refunded := walletService.RefundBalance(key, amount, id, env);
        DriveTakes(repo.State(), At(p, MarkingFailed(GatewayError)).(refunded := refunded), env, Anywhere());
        repo.UpdateStatus(id, Failed, env.markingFinal);
        return Rejected(GatewayError);
      }
      DriveTakes(repo.State(), At(p, MarkingCompleted), env, Anywhere());
      repo.UpdateStatus(id, Completed, env.markingFinal);
      return Succeeded;
    }
  }

  /** Every call answers; only the gateway may decline. */
  function NoErrors(approved: bool): Replies
  {
    Replies(true, true, true, true, true, true, approved, true, true, true, true)
  }

  /** Alone and without errors, a payment the balance does not cover touches no wallet. */
  lemma SoloRefuses(db: Db, id: nat, key: WalletKey, amount: int, approved: bool)
    requires key in db.wallets && db.wallets[key].balance < amount
    ensures Solo(db, NewPayment(id, key, amount), NoErrors(approved))
         == (db.(payments := db.payments[id := Failed]),
             NewPayment(id, key, amount).(pc := Done(Rejected(InsufficientBalance))))
  {
    SoloSettles(db, id, key, amount, NoErrors(approved));
    assert db.transactions + [] + [] == db.transactions;
  }

  /** Alone and without errors, an approved payment charges its amount exactly once. */
  lemma SoloCharges(db: Db, id: nat, key: WalletKey, amount: int)
    requires key in db.wallets && db.wallets[key].balance >= amount
    ensures var w := db.wallets[key];
      Solo(db, NewPayment(id, key, amount), NoErrors(true))
      == (Db(db.wallets[key := Wallet(w.balance - amount, w.version + 1)],
             db.transactions + [Transaction(key, id, Debit, amount)],
             db.payments[id := Completed]),
          Payment(id, key, amount, Done(Succeeded), true, false))
  {
    SoloSettles(db, id, key, amount, NoErrors(true));
    var debit := [Transaction(key, id, Debit, amount)];
    assert db.transactions + debit + [] == db.transactions + debit;
  }

  /** Alone and without errors, a declined payment gives the whole amount back,
      at the cost of two versions and two transaction rows. */
  lemma SoloRefunds(db: Db, id: nat, key: WalletKey, amount: int)
    requires key in db.wallets && db.wallets[key].balance >= amount
    ensures var w := db.wallets[key];
      Solo(db, NewPayment(id, key, amount), NoErrors(false))
      == (Db(db.wallets[key := Wallet(w.balance, w.version + 2)],
             db.transactions + [Transaction(key, id, Debit, amount), Transaction(key, id, Credit, amount)],
             db.payments[id := Failed]),
          Payment(id, key, amount, Done(Rejected(GatewayError)), true, true))
  {
    SoloSettles(db, id, key, amount, NoErrors(false));
    var debit, credit := Transaction(key, id, Debit, amount), Transaction(key, id, Credit, amount);
    assert db.transactions + [debit] + [credit] == db.transactions + [debit, credit];
  }
}
