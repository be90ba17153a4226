/** What lies behind a payment's place in a run, in any interleaving and with any
    errors: nobody gets to the deduction without an answered validation, and nobody is
    charged without an answered read and an update that moved the wallet. */
module ValidatedPayments {
  import opened Optional
  import opened WalletRepository
  import opened PaymentMachine
  import opened PaymentLedger
  import opened FaultFreePayments

  /** At its deduction or anywhere past it. */
  predicate PastValidation(p: Payment)
  {
    match p.pc
    case Saving => false
    case Validating => false
    case MarkingFailed(reason) => reason != InsufficientBalance
    case Done(NotSaved) => false
    case Done(Rejected(reason)) => reason != InsufficientBalance
    case _ => true
  }

  /** Action `n` does not concern payment `i`, makes it, or is its next call. */
  lemma CallOrNot(start: map<WalletKey, Wallet>, actions: seq<Action>, n: nat, i: nat)
    requires n < |actions| && i < |Point(start, actions, n + 1).payments|
    ensures var w, v := Point(start, actions, n), Point(start, actions, n + 1);
      || (i < |w.payments| && v.payments[i] == w.payments[i])
      || (i >= |w.payments| && v.payments[i].pc.Saving? && !v.payments[i].debited)
      || (i < |w.payments| && actions[n].Call? && actions[n].i == i
          && v.db == Step(w.db, w.payments[i], actions[n].reply).0
          && v.payments[i] == Step(w.db, w.payments[i], actions[n].reply).1)
  {
    PointNext(start, actions, n);
  }

  /** Action `m` is payment `i`'s validation, answered, on a wallet that covers it. */
  predicate Validates(start: map<WalletKey, Wallet>, actions: seq<Action>, m: nat, i: nat)
  {
    Calls(start, actions, m, i)
    && var w := Point(start, actions, m);
      var p := w.payments[i];
      p.pc.Validating? && p.key in w.db.wallets && w.db.wallets[p.key].balance >= p.amount
  }

  /** Whatever fails and whatever others do, a payment that is at its deduction or past
      it had its validation answered, on a wallet that covered it then. */
  lemma {:induction false} ReachedDeductionValidated(
    start: map<WalletKey, Wallet>, actions: seq<Action>, n: nat, i: nat)
    requires n <= |actions| && i < |Point(start, actions, n).payments|
    requires PastValidation(Point(start, actions, n).payments[i])
    ensures exists m :: 0 <= m < n && Validates(start, actions, m, i)
    decreases n
  {
    assert n > 0;
    var w := Point(start, actions, n - 1);
    CallOrNot(start, actions, n - 1, i);
    if PastValidation(w.payments[i]) {
      ReachedDeductionValidated(start, actions, n - 1, i);
    } else {
      assert Validates(start, actions, n - 1, i);
    }
  }

  /** Action `m` is payment `i`'s debit, committed: only its wallet moves, down by its amount. */
  predicate Debits(start: map<WalletKey, Wallet>, actions: seq<Action>, m: nat, i: nat)
  {
    Calls(start, actions, m, i)
    && var w, v := Point(start, actions, m), Point(start, actions, m + 1);
      var p := w.payments[i];
      && p.pc.DeductUpdating? && p.key in w.db.wallets
      && w.db.wallets[p.key].balance >= p.amount
      && v.db.wallets
         == w.db.wallets[p.key := Wallet(w.db.wallets[p.key].balance - p.amount, w.db.wallets[p.key].version + 1)]
  }

  lemma DebitMoves(start: map<WalletKey, Wallet>, actions: seq<Action>, n: nat, i: nat)
    requires Solvent(start) && n < |actions| && i < |Point(start, actions, n).payments|
    requires actions[n].Call? && actions[n].i == i
    requires var w := Point(start, actions, n);
      !w.payments[i].debited && Step(w.db, w.payments[i], actions[n].reply).1.debited
    ensures Debits(start, actions, n, i)
  {
    PointInv(start, actions, n);
    PointNext(start, actions, n);
    var w := Point(start, actions, n);
    assert PaymentAgrees(w.db, start, w.payments[i]);
  }

  /** A payment that counts as debited was validated, and later made one update that
      took its amount, and nothing else, from a wallet that covered it. */
  lemma {:induction false} ChargedByADebit(start: map<WalletKey, Wallet>, actions: seq<Action>, n: nat, i: nat)
    requires Solvent(start) && n <= |actions| && i < |Point(start, actions, n).payments|
    requires Point(start, actions, n).payments[i].debited
    ensures exists m, u :: 0 <= m < u < n && Validates(start, actions, m, i) && Debits(start, actions, u, i)
    decreases n
  {
    assert n > 0;
    var w := Point(start, actions, n - 1);
    CallOrNot(start, actions, n - 1, i);
    if w.payments[i].debited {
      ChargedByADebit(start, actions, n - 1, i);
    } else {
      DebitMoves(start, actions, n - 1, i);
      ReachedDeductionValidated(start, actions, n - 1, i);
    }
  }

  // ---------- why a payment ended as it did ----------

  predicate Uncovered(w: World, p: Payment)
  {
    p.key !in w.db.wallets || w.db.wallets[p.key].balance < p.amount
  }

  /** This call of payment `p`, answered or not, is what decides on this verdict. */
  predicate Decides(w: World, p: Payment, reply: bool, verdict: Verdict)
  {
    match verdict
    case NotSaved => p.pc.Saving? && !reply
    case Succeeded => p.pc.AtGateway? && reply
    case Rejected(InsufficientBalance) => p.pc.Validating? && (!reply || Uncovered(w, p))
    case Rejected(DeductionFailed) =>
      || (p.pc.DeductReading? && (!reply || Uncovered(w, p)))
      || (p.pc.DeductInserting? && !reply)
      || (p.pc.DeductUpdating? && (!reply || p.key !in w.db.wallets
                                   || w.db.wallets[p.key].version != p.pc.seen.version))
    case Rejected(GatewayError) => p.pc.AtGateway? && !reply
  }

  /** The verdict that a payment has, or can no longer escape. */
  function Heading(pc: Pc): Option<Verdict>
  {
    match pc
    case Done(verdict) => Some(verdict)
    case MarkingFailed(reason) => Some(Rejected(reason))
    case MarkingCompleted => Some(Succeeded)
    case RefundReading => Some(Rejected(GatewayError))
    case RefundInserting(_) => Some(Rejected(GatewayError))
    case RefundUpdating(_) => Some(Rejected(GatewayError))
    case _ => None
  }

  predicate DecidedAt(start: map<WalletKey, Wallet>, actions: seq<Action>, m: nat, i: nat, verdict: Verdict)
  {
    && m < |actions| && actions[m].Call? && actions[m].i == i && i < |Point(start, actions, m).payments|
    && Decides(Point(start, actions, m), Point(start, actions, m).payments[i], actions[m].reply, verdict)
  }

  lemma StepDecides(w: World, p: Payment, reply: bool)
    ensures var q := Step(w.db, p, reply).1;
      Heading(q.pc) == Heading(p.pc) || (Heading(p.pc).None? && Decides(w, p, reply, Heading(q.pc).value))
  {
  }

  /** In every run with any errors, an ended payment has its verdict for a cause: there is
      one call of it that failed, found the wallet short or moved, or was decided on by
      the gateway. */
  lemma {:induction false} EndedForCause(start: map<WalletKey, Wallet>, actions: seq<Action>, n: nat, i: nat)
    requires n <= |actions| && i < |Point(start, actions, n).payments|
    requires Heading(Point(start, actions, n).payments[i].pc).Some?
    ensures var verdict := Heading(Point(start, actions, n).payments[i].pc).value;
      exists m :: 0 <= m < n && DecidedAt(start, actions, m, i, verdict)
    decreases n
  {
    assert n > 0;
    var w, v := Point(start, actions, n - 1), Point(start, actions, n);
    CallOrNot(start, actions, n - 1, i);
    var verdict := Heading(v.payments[i].pc).value;
    if Heading(w.payments[i].pc) == Some(verdict) {
      EndedForCause(start, actions, n - 1, i);
    } else {
      StepDecides(w, w.payments[i], actions[n - 1].reply);
      assert DecidedAt(start, actions, n - 1, i, verdict);
    }
  }
}
