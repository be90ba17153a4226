/** What a payment run alone comes to, in terms of the answers it gets and of the
    wallet it finds, for every combination of them. */
module PaymentVerdicts {
  import opened WalletRepository
  import opened PaymentMachine

  predicate Covers(wallets: map<WalletKey, Wallet>, key: WalletKey, amount: int)
  {
    key in wallets && wallets[key].balance >= amount
  }

  /** Every call up to the deduction's update is answered, and the wallet is found and covers the amount. */
  predicate Charged(db: Db, key: WalletKey, amount: int, env: Replies)
  {
    && env.saving && env.validating && Covers(db.wallets, key, amount)
    && env.deductReading && env.deductInserting && env.deductUpdating
  }

  predicate GivenBack(env: Replies)
  {
    !env.gateway && env.refundReading && env.refundInserting && env.refundUpdating
  }

  /** The verdict and the two history flags of a payment that has ended. */
  predicate VerdictTells(db: Db, key: WalletKey, amount: int, env: Replies, verdict: Verdict)
  {
    && (verdict == NotSaved <==> !env.saving)
    && (verdict == Rejected(InsufficientBalance) <==>
        env.saving && !(env.validating && Covers(db.wallets, key, amount)))
    && (verdict == Rejected(DeductionFailed) <==>
        env.saving && env.validating && Covers(db.wallets, key, amount)
        && !(env.deductReading && env.deductInserting && env.deductUpdating))
    && (verdict == Rejected(GatewayError) <==> Charged(db, key, amount, env) && !env.gateway)
    && (verdict == Succeeded <==> Charged(db, key, amount, env) && env.gateway)
  }

  /** The wallets afterwards: one changes, if the payment is charged, and keeps its
      balance if the amount is given back. */
  predicate WalletsTell(db: Db, key: WalletKey, amount: int, env: Replies, after: map<WalletKey, Wallet>)
  {
    if !Charged(db, key, amount, env) then after == db.wallets
    else if GivenBack(env) then after == db.wallets[key := Wallet(db.wallets[key].balance, db.wallets[key].version + 2)]
    else after == db.wallets[key := Wallet(db.wallets[key].balance - amount, db.wallets[key].version + 1)]
  }

  /** The status stored afterwards, which is the verdict's only if the last write worked. */
  predicate StatusTells(db: Db, id: nat, key: WalletKey, amount: int, env: Replies, after: map<nat, PaymentStatus>)
  {
    if !env.saving then after == db.payments
    else
      var charged := Charged(db, key, amount, env);
      after == db.payments[id :=
        if env.markingFinal then (if charged && env.gateway then Completed else Failed)
        else if charged && env.markingProcessing then Processing
        else Pending]
  }

  /** A debit row once the deduction has read a covering wallet and its insert is
      answered, and likewise a credit row for the refund. */
  predicate RowsTell(
    db: Db, id: nat, key: WalletKey, amount: int, env: Replies, after: seq<Transaction>)
  {
    var debits := env.saving && env.validating && Covers(db.wallets, key, amount)
      && env.deductReading && env.deductInserting;
    var credits := Charged(db, key, amount, env) && !env.gateway && env.refundReading && env.refundInserting;
    after == db.transactions
      + (if debits then [Transaction(key, id, Debit, amount)] else [])
      + (if credits then [Transaction(key, id, Credit, amount)] else [])
  }

  /** The tables `after` a payment run alone that ended with `verdict`. */
  predicate Settled(db: Db, id: nat, key: WalletKey, amount: int, env: Replies, after: Db, verdict: Verdict)
  {
    && VerdictTells(db, key, amount, env, verdict)
    && WalletsTell(db, key, amount, env, after.wallets)
    && StatusTells(db, id, key, amount, env, after.payments)
    && RowsTell(db, id, key, amount, env, after.transactions)
  }

  // ---------- the phases, last first ----------

  lemma RefusalSettles(db: Db, p: Payment, env: Replies)
    requires p.pc.MarkingFailed? && p.id in db.payments
    ensures Solo(db, p, env)
         == (if env.markingFinal then db.(payments := db.payments[p.id := Failed]) else db,
             p.(pc := Done(Rejected(p.pc.reason))))
  {
    DriveTakes(db, p, env, Anywhere());
  }

  /** The three calls of a refund. */
  lemma RefundDrives(db: Db, p: Payment, env: Replies)
    requires p.pc.RefundReading? && p.key in db.wallets && p.debited && !p.refunded
    ensures var (d, q) := Drive(db, p, env, InRefund());
      var back := env.refundReading && env.refundInserting && env.refundUpdating;
      var w := db.wallets[p.key];
      && q == p.(pc := MarkingFailed(GatewayError), refunded := back)
      && d.wallets == (if back then db.wallets[p.key := Wallet(w.balance + p.amount, w.version + 1)] else db.wallets)
      && d.payments == db.payments
      && d.transactions == db.transactions
         + (if env.refundReading && env.refundInserting then [Transaction(p.key, p.id, Credit, p.amount)] else [])
  {
    DriveTakes(db, p, env, InRefund());
    if env.refundReading {
      var w := db.wallets[p.key];
      DriveTakes(db, At(p, RefundInserting(w)), env, InRefund());
      if env.refundInserting {
        var d := InsertTransaction(db, Transaction(p.key, p.id, Credit, p.amount), true);
        DriveTakes(d, At(p, RefundUpdating(w)), env, InRefund());
      }
    }
  }

  lemma RefundSettles(db: Db, p: Payment, env: Replies)
    requires p.pc.RefundReading? && p.key in db.wallets && p.debited && !p.refunded && p.id in db.payments
    ensures var (d, q) := Solo(db, p, env);
      var back := env.refundReading && env.refundInserting && env.refundUpdating;
      var w := db.wallets[p.key];
      && q == p.(pc := Done(Rejected(GatewayError)), refunded := back)
      && d.wallets == (if back then db.wallets[p.key := Wallet(w.balance + p.amount, w.version + 1)] else db.wallets)
      && d.payments == (if env.markingFinal then db.payments[p.id := Failed] else db.payments)
      && d.transactions == db.transactions
         + (if env.refundReading && env.refundInserting then [Transaction(p.key, p.id, Credit, p.amount)] else [])
  {
    var (d, q) := Drive(db, p, env, InRefund());
    RefundDrives(db, p, env);
    SoloResumes(db, p, env, InRefund());
    RefusalSettles(d, q, env);
  }

  lemma FinishSettles(db: Db, p: Payment, env: Replies)
    requires p.pc.AtGateway? && p.key in db.wallets && p.debited && !p.refunded && p.id in db.payments
    ensures var (d, q) := Solo(db, p, env);
      var w := db.wallets[p.key];
      && q == p.(pc := Done(if env.gateway then Succeeded else Rejected(GatewayError)), refunded := GivenBack(env))
      && d.wallets
         == (if GivenBack(env) then db.wallets[p.key := Wallet(w.balance + p.amount, w.version + 1)] else db.wallets)
      && d.payments
         == (if env.markingFinal then db.payments[p.id := if env.gateway then Completed else Failed] else db.payments)
      && d.transactions == db.transactions
         + (if !env.gateway && env.refundReading && env.refundInserting
            then [Transaction(p.key, p.id, Credit, p.amount)] else [])
  {
    DriveTakes(db, p, env, Anywhere());
    if env.gateway {
      DriveTakes(db, At(p, MarkingCompleted), env, Anywhere());
    } else {
      RefundSettles(db, At(p, RefundReading), env);
    }
  }

  lemma DeductionSettles(db: Db, p: Payment, env: Replies)
    requires p.pc.DeductReading? && !p.debited && !p.refunded
    ensures var (d, q) := Drive(db, p, env, InDeduct());
      var charged := Covers(db.wallets, p.key, p.amount)
        && env.deductReading && env.deductInserting && env.deductUpdating;
      && q == p.(pc := if charged then MarkingProcessing else MarkingFailed(DeductionFailed), debited := charged)
      && d.wallets
         == (if charged then
               db.wallets[p.key := Wallet(db.wallets[p.key].balance - p.amount, db.wallets[p.key].version + 1)]
             else db.wallets)
      && d.payments == db.payments
      && d.transactions == db.transactions
         + (if Covers(db.wallets, p.key, p.amount) && env.deductReading && env.deductInserting
            then [Transaction(p.key, p.id, Debit, p.amount)] else [])
  {
    DriveTakes(db, p, env, InDeduct());
    if env.deductReading && Covers(db.wallets, p.key, p.amount) {
      var w := db.wallets[p.key];
      DriveTakes(db, At(p, DeductInserting(w)), env, InDeduct());
      if env.deductInserting {
        var d := InsertTransaction(db, Transaction(p.key, p.id, Debit, p.amount), true);
        DriveTakes(d, At(p, DeductUpdating(w)), env, InDeduct());
      }
    }
  }

  lemma DebitSettles(db: Db, p: Payment, env: Replies)
    requires p.pc.MarkingProcessing? && p.key in db.wallets && p.debited && !p.refunded && p.id in db.payments
    ensures var (d, q) := Solo(db, p, env);
      var w := db.wallets[p.key];
      && q == p.(pc := Done(if env.gateway then Succeeded else Rejected(GatewayError)), refunded := GivenBack(env))
      && d.wallets
         == (if GivenBack(env) then db.wallets[p.key := Wallet(w.balance + p.amount, w.version + 1)] else db.wallets)
      && d.payments == db.payments[p.id :=
           if env.markingFinal then (if env.gateway then Completed else Failed)
           else if env.markingProcessing then Processing
           else db.payments[p.id]]
      && d.transactions == db.transactions
         + (if !env.gateway && env.refundReading && env.refundInserting
            then [Transaction(p.key, p.id, Credit, p.amount)] else [])
  {
    DriveTakes(db, p, env, Anywhere());
    FinishSettles(SetStatus(db, p.id, Processing, env.markingProcessing), At(p, AtGateway), env);
  }

  lemma ValidatedSettles(db: Db, p: Payment, env: Replies)
    requires p.pc.DeductReading? && !p.debited && !p.refunded && p.id in db.payments && db.payments[p.id] == Pending
    requires env.saving && env.validating && Covers(db.wallets, p.key, p.amount)
    ensures var (d, q) := Solo(db, p, env);
      && q.pc.Done? && Settled(db, p.id, p.key, p.amount, env, d, q.pc.verdict)
      && q.id == p.id && q.key == p.key && q.amount == p.amount
      && q.debited == Charged(db, p.key, p.amount, env)
      && q.refunded == (Charged(db, p.key, p.amount, env) && GivenBack(env))
  {
    DeductionSettles(db, p, env);
    SoloResumes(db, p, env, InDeduct());
    var (d, q) := Drive(db, p, env, InDeduct());
    if q.pc.MarkingProcessing? {
      DebitSettles(d, q, env);
    } else {
      RefusalSettles(d, q, env);
    }
  }

  /** A payment that is saved, up to its validation's answer and past it. */
  lemma SavedSettles(db: Db, p: Payment, env: Replies)
    requires p.pc.Validating? && !p.debited && !p.refunded && p.id in db.payments && db.payments[p.id] == Pending
    requires env.saving
    ensures var (d, q) := Solo(db, p, env);
      && q.pc.Done? && Settled(db, p.id, p.key, p.amount, env, d, q.pc.verdict)
      && q.id == p.id && q.key == p.key && q.amount == p.amount
      && q.debited == Charged(db, p.key, p.amount, env)
      && q.refunded == (Charged(db, p.key, p.amount, env) && GivenBack(env))
  {
    DriveTakes(db, p, env, Anywhere());
    if env.validating && Covers(db.wallets, p.key, p.amount) {
      ValidatedSettles(db, At(p, DeductReading), env);
    } else {
      RefusalSettles(db, At(p, MarkingFailed(InsufficientBalance)), env);
    }
  }

  lemma SavingFirst(db: Db, id: nat, key: WalletKey, amount: int, env: Replies, after: Db, verdict: Verdict)
    requires env.saving && Settled(SavePayment(db, id, true), id, key, amount, env, after, verdict)
    ensures Settled(db, id, key, amount, env, after, verdict)
  {
  }

  /** For every table and every combination of answers, a payment run alone ends; its
      verdict says which call stopped it; it is charged exactly when every call up to
      the deduction's update is answered and the wallet covers it, and paid back exactly
      when, besides, the gateway declines and the three refund calls are answered. */
  lemma SoloSettles(db: Db, id: nat, key: WalletKey, amount: int, env: Replies)
    ensures var (d, q) := Solo(db, NewPayment(id, key, amount), env);
      && q.pc.Done? && Settled(db, id, key, amount, env, d, q.pc.verdict)
      && q.id == id && q.key == key && q.amount == amount
      && q.debited == Charged(db, key, amount, env)
      && q.refunded == (Charged(db, key, amount, env) && GivenBack(env))
  {
    var p := NewPayment(id, key, amount);
    DriveTakes(db, p, env, Anywhere());
    if env.saving {
      var saved := SavePayment(db, id, true);
      var (d, q) := Solo(saved, At(p, Validating), env);
      SavedSettles(saved, At(p, Validating), env);
      SavingFirst(db, id, key, amount, env, d, q.pc.verdict);
    }
  }
}
