/** The transaction rows of interleaved payments.  A row is inserted before the
    balance update it stands for, so an update that loses leaves a row behind. */
module PaymentTransactions {
  import opened WalletRepository
  import opened PaymentMachine
  import opened PaymentLedger

  /** What the rows of one kind say of a wallet. */
  function RowsOf(rows: seq<Transaction>, key: WalletKey, kind: TransactionType): int
  {
    if rows == [] then 0
    else
      var last := rows[|rows| - 1];
      RowsOf(rows[..|rows| - 1], key, kind) + (if last.wallet == key && last.kind == kind then last.amount else 0)
  }

  /** What the rows of one kind say of a payment. */
  function RowsBy(rows: seq<Transaction>, id: nat, kind: TransactionType): int
  {
    if rows == [] then 0
    else
      var last := rows[|rows| - 1];
      RowsBy(rows[..|rows| - 1], id, kind) + (if last.paymentID == id && last.kind == kind then last.amount else 0)
  }

  lemma RowAdded(rows: seq<Transaction>, row: Transaction, key: WalletKey, id: nat, kind: TransactionType)
    ensures RowsOf(rows + [row], key, kind)
      == RowsOf(rows, key, kind) + (if row.wallet == key && row.kind == kind then row.amount else 0)
    ensures RowsBy(rows + [row], id, kind)
      == RowsBy(rows, id, kind) + (if row.paymentID == id && row.kind == kind then row.amount else 0)
  {
    assert (rows + [row])[..|rows + [row]| - 1] == rows;
  }

  /** A payment's rows as its program counter determines them: a debit row once the
      insertion is behind it, a credit row likewise. */
  predicate RowsAgree(rows: seq<Transaction>, p: Payment)
  {
    var d, c := RowsBy(rows, p.id, Debit), RowsBy(rows, p.id, Credit);
    && (d == 0 || d == p.amount) && (c == 0 || c == p.amount)
    && (p.debited ==> d == p.amount) && (p.refunded ==> c == p.amount)
    && match p.pc
       case DeductUpdating(_) => d == p.amount && c == 0
       case RefundUpdating(_) => c == p.amount
       case MarkingFailed(reason) => FailedRowsAgree(d, c, reason)
       case Done(Rejected(reason)) => FailedRowsAgree(d, c, reason)
       case MarkingProcessing => c == 0
       case AtGateway => c == 0
       case RefundReading => c == 0
       case RefundInserting(_) => c == 0
       case MarkingCompleted => c == 0
       case Done(Succeeded) => c == 0
       case _ => d == 0 && c == 0
  }

  predicate FailedRowsAgree(d: int, c: int, reason: FailReason)
  {
    match reason
    case InsufficientBalance => d == 0 && c == 0
    case DeductionFailed => c == 0
    case GatewayError => true
  }

  function RowsFor(rows: seq<Transaction>, key: WalletKey, kind: TransactionType): Payment -> int
  {
    (p: Payment) => if p.key == key then RowsBy(rows, p.id, kind) else 0
  }

  ghost predicate TableAgrees(w: World)
  {
    && (forall i :: 0 <= i < |w.payments| ==> w.payments[i].id == i && RowsAgree(w.db.transactions, w.payments[i]))
    && (forall i: nat, kind :: i >= |w.payments| ==> RowsBy(w.db.transactions, i, kind) == 0)
    && (forall key, kind ::
          RowsOf(w.db.transactions, key, kind) == Total(w.payments, RowsFor(w.db.transactions, key, kind)))
  }

  /** A change of one payment, and of the measure only there. */
  lemma {:induction false} TotalChange(ps: seq<Payment>, i: nat, q: Payment, f: Payment -> int, g: Payment -> int)
    requires i < |ps| && forall j :: 0 <= j < |ps| && j != i ==> f(ps[j]) == g(ps[j])
    ensures Total(ps[i := q], g) == Total(ps, f) - f(ps[i]) + g(q)
  {
    if i == 0 {
      assert ps[i := q][1..] == ps[1..];
      assert forall p :: p in ps[1..] ==> f(p) == g(p);
      TotalCongruent(ps[1..], f, g);
    } else {
      assert ps[i := q][1..] == ps[1..][i - 1 := q];
      TotalChange(ps[1..], i - 1, q, f, g);
    }
  }

  /** A step of a payment inserts no row, or the one row it is at. */
  function RowAt(p: Payment, reply: bool): seq<Transaction>
  {
    if !reply then []
    else if p.pc.DeductInserting? then [Transaction(p.key, p.id, Debit, p.amount)]
    else if p.pc.RefundInserting? then [Transaction(p.key, p.id, Credit, p.amount)]
    else []
  }

  lemma StepInserts(db: Db, p: Payment, reply: bool)
    ensures Step(db, p, reply).0.transactions == db.transactions + RowAt(p, reply)
  {
    assert db.transactions + [] == db.transactions;
  }

  lemma RowsMayGrow(rows: seq<Transaction>, p: Payment, reply: bool, key: WalletKey, id: nat, kind: TransactionType)
    ensures var row := RowAt(p, reply); var more := if row != [] && row[0].kind == kind then p.amount else 0;
      && RowsOf(rows + row, key, kind) == RowsOf(rows, key, kind) + (if p.key == key then more else 0)
      && RowsBy(rows + row, id, kind) == RowsBy(rows, id, kind) + (if p.id == id then more else 0)
  {
    var row := RowAt(p, reply);
    if row == [] {
      assert rows + row == rows;
    } else {
      RowAdded(rows, row[0], key, id, kind);
    }
  }

  lemma StepKeepsOwnRows(db: Db, p: Payment, reply: bool)
    requires RowsAgree(db.transactions, p) && FlagsAgree(p) && p.amount > 0
    ensures RowsAgree(Step(db, p, reply).0.transactions, Step(db, p, reply).1)
  {
    StepInserts(db, p, reply);
    RowsMayGrow(db.transactions, p, reply, p.key, p.id, Debit);
    RowsMayGrow(db.transactions, p, reply, p.key, p.id, Credit);
  }

  lemma CallKeepsRows(w: World, start: map<WalletKey, Wallet>, i: nat, reply: bool, j: nat)
    requires Inv(w, start) && TableAgrees(w) && i < |w.payments| && j < |w.payments|
    ensures var v := Next(w, Call(i, reply)); v.payments[j].id == j && RowsAgree(v.db.transactions, v.payments[j])
  {
    var p := w.payments[i];
    assert PaymentAgrees(w.db, start, p) && p.id == i && w.payments[j].id == j;
    assert RowsAgree(w.db.transactions, w.payments[j]);
    StepKeepsIdentity(w.db, p, reply);
    if j == i {
      StepKeepsOwnRows(w.db, p, reply);
    } else {
      StepInserts(w.db, p, reply);
      RowsMayGrow(w.db.transactions, p, reply, p.key, j, Debit);
      RowsMayGrow(w.db.transactions, p, reply, p.key, j, Credit);
    }
  }

  lemma CallKeepsSums(w: World, i: nat, reply: bool, key: WalletKey, kind: TransactionType)
    requires TableAgrees(w) && i < |w.payments|
    ensures var v := Next(w, Call(i, reply));
      RowsOf(v.db.transactions, key, kind) == Total(v.payments, RowsFor(v.db.transactions, key, kind))
  {
    var p, v := w.payments[i], Next(w, Call(i, reply));
    var rows, rows' := w.db.transactions, v.db.transactions;
    StepInserts(w.db, p, reply);
    StepKeepsIdentity(w.db, p, reply);
    forall j | 0 <= j < |w.payments|
      ensures RowsBy(rows', j, kind)
        == RowsBy(rows, j, kind) + (if j == i then RowsBy(rows', i, kind) - RowsBy(rows, i, kind) else 0)
    {
      RowsMayGrow(rows, p, reply, key, j, kind);
    }
    RowsMayGrow(rows, p, reply, key, i, kind);
    TotalChange(w.payments, i, v.payments[i], RowsFor(rows, key, kind), RowsFor(rows', key, kind));
  }

  lemma CallKeepsTable(w: World, start: map<WalletKey, Wallet>, i: nat, reply: bool)
    requires Inv(w, start) && TableAgrees(w)
    ensures TableAgrees(Next(w, Call(i, reply)))
  {
    if i < |w.payments| {
      var v := Next(w, Call(i, reply));
      forall j | 0 <= j < |v.payments|
        ensures v.payments[j].id == j && RowsAgree(v.db.transactions, v.payments[j])
      {
        CallKeepsRows(w, start, i, reply, j);
      }
      forall j: nat, kind | j >= |v.payments|
        ensures RowsBy(v.db.transactions, j, kind) == 0
      {
        StepInserts(w.db, w.payments[i], reply);
        RowsMayGrow(w.db.transactions, w.payments[i], reply, w.payments[i].key, j, kind);
      }
      forall key, kind
        ensures RowsOf(v.db.transactions, key, kind) == Total(v.payments, RowsFor(v.db.transactions, key, kind))
      {
        CallKeepsSums(w, i, reply, key, kind);
      }
    }
  }

  lemma ArriveKeepsTable(w: World, key: WalletKey, amount: int)
    requires TableAgrees(w)
    ensures TableAgrees(Next(w, Arrive(key, amount)))
  {
    if amount > 0 {
      var p := NewPayment(|w.payments|, key, amount);
      forall k, kind
        ensures RowsOf(w.db.transactions, k, kind) == Total(w.payments + [p], RowsFor(w.db.transactions, k, kind))
      {
        TotalAppend(w.payments, p, RowsFor(w.db.transactions, k, kind));
      }
    }
  }

  lemma {:induction false} RunKeepsTable(w: World, start: map<WalletKey, Wallet>, actions: seq<Action>)
    requires Inv(w, start) && TableAgrees(w)
    ensures TableAgrees(Run(w, actions))
    decreases |actions|
  {
    if actions != [] {
      match actions[0] {
        case Arrive(key, amount) =>
          ArriveKeepsInv(w, start, key, amount);
          ArriveKeepsTable(w, key, amount);
        case Call(i, reply) =>
          CallKeepsInv(w, start, i, reply);
          CallKeepsTable(w, start, i, reply);
      }
      RunKeepsTable(Next(w, actions[0]), start, actions[1..]);
    }
  }

  // ---------- main results ----------

  /** The debit row of a payment that has not debited. */
  function OrphanDebit(rows: seq<Transaction>, p: Payment): int
  {
    if p.debited then 0 else RowsBy(rows, p.id, Debit)
  }

  /** The credit row of a payment that has not been refunded. */
  function OrphanCredit(rows: seq<Transaction>, p: Payment): int
  {
    if p.refunded then 0 else RowsBy(rows, p.id, Credit)
  }

  function OrphanDebits(rows: seq<Transaction>, key: WalletKey): Payment -> int
  {
    (p: Payment) => if p.key == key then OrphanDebit(rows, p) else 0
  }

  function OrphanCredits(rows: seq<Transaction>, key: WalletKey): Payment -> int
  {
    (p: Payment) => if p.key == key then OrphanCredit(rows, p) else 0
  }

  function Minus(f: Payment -> int, g: Payment -> int): Payment -> int
  {
    (p: Payment) => f(p) - g(p)
  }

  lemma {:induction false} TotalMinus(ps: seq<Payment>, f: Payment -> int, g: Payment -> int)
    ensures Total(ps, Minus(f, g)) == Total(ps, f) - Total(ps, g)
  {
    if ps != [] {
      TotalMinus(ps[1..], f, g);
    }
  }

  /** At every point of every run, a wallet's debit rows less its credit rows are what
      is missing from it, plus orphan debits, less orphan credits. */
  lemma RowsExplainTheWallet(start: map<WalletKey, Wallet>, actions: seq<Action>, key: WalletKey)
    requires forall k :: k in start ==> start[k].balance >= 0
    requires key in start
    ensures var w := Run(Initial(start), actions);
      && key in w.db.wallets
      && RowsOf(w.db.transactions, key, Debit) - RowsOf(w.db.transactions, key, Credit)
         == (start[key].balance - w.db.wallets[key].balance)
            + Total(w.payments, OrphanDebits(w.db.transactions, key)) - Total(w.payments,
              OrphanCredits(w.db.transactions, key))
  {
    var w := Run(Initial(start), actions);
    InitialInv(start);
    assert TableAgrees(Initial(start));
    RunKeepsTable(Initial(start), start, actions);
    RunKeepsInv(Initial(start), start, actions);
    assert WalletAgrees(w, start, key);
    var rows := w.db.transactions;
    RowsSplit(w, start, key);
    var d, c, od, oc := RowsFor(rows, key, Debit), RowsFor(rows, key, Credit), OrphanDebits(rows, key),
      OrphanCredits(rows, key);
    TotalMinus(w.payments, d, c);
    TotalMinus(w.payments, od, oc);
    TotalAdds(w.payments, Minus(d, c), Held(key), Minus(od, oc));
  }

  lemma RowsSplit(w: World, start: map<WalletKey, Wallet>, key: WalletKey)
    requires Inv(w, start) && TableAgrees(w)
    ensures var rows := w.db.transactions;
      forall p :: p in w.payments ==>
        Minus(RowsFor(rows, key, Debit), RowsFor(rows, key, Credit))(p)
        == Held(key)(p) + Minus(OrphanDebits(rows, key), OrphanCredits(rows, key))(p)
  {
    forall p | p in w.payments
      ensures var rows := w.db.transactions;
        Minus(RowsFor(rows, key, Debit), RowsFor(rows, key, Credit))(p)
        == Held(key)(p) + Minus(OrphanDebits(rows, key), OrphanCredits(rows, key))(p)
    {
      var i :| 0 <= i < |w.payments| && w.payments[i] == p;
      assert PaymentAgrees(w.db, start, p) && RowsAgree(w.db.transactions, p);
    }
  }

  /** Which calls leave an orphan: of those that turn a payment down, exactly the
      conditional update of the deduction leaves its debit row, and exactly that of the
      refund, when it does not match, its credit row. */
  lemma LostUpdatesLeaveOrphans(start: map<WalletKey, Wallet>, actions: seq<Action>, i: nat, reply: bool)
    requires forall k :: k in start ==> start[k].balance >= 0
    requires i < |Run(Initial(start), actions).payments|
    requires !Run(Initial(start), actions).payments[i].pc.MarkingFailed?
    requires Next(Run(Initial(start), actions), Call(i, reply)).payments[i].pc.MarkingFailed?
    ensures var w := Run(Initial(start), actions);
      var v := Next(w, Call(i, reply));
      && OrphanDebit(v.db.transactions, v.payments[i])
         == (if w.payments[i].pc.DeductUpdating? then w.payments[i].amount else 0)
      && OrphanCredit(v.db.transactions, v.payments[i])
         == (if w.payments[i].pc.RefundUpdating? && !v.payments[i].refunded then w.payments[i].amount else 0)
  {
    var w := Run(Initial(start), actions);
    InitialInv(start);
    assert TableAgrees(Initial(start));
    RunKeepsTable(Initial(start), start, actions);
    RunKeepsInv(Initial(start), start, actions);
    assert PaymentAgrees(w.db, start, w.payments[i]) && w.payments[i].id == i;
    assert RowsAgree(w.db.transactions, w.payments[i]);
    StepInserts(w.db, w.payments[i], reply);
    assert w.db.transactions + [] == w.db.transactions;
  }

  /** A payment turned down keeps its rows, and one that succeeds has left none. */
  lemma EndedOrphans(start: map<WalletKey, Wallet>, actions: seq<Action>, i: nat)
    requires forall k :: k in start ==> start[k].balance >= 0
    requires i < |Run(Initial(start), actions).payments| && Run(Initial(start), actions).payments[i].pc.Done?
    ensures var w := Run(Initial(start), actions); var p := w.payments[i];
      && OrphanDebit(w.db.transactions, p) in {0, p.amount} && OrphanCredit(w.db.transactions, p) in {0, p.amount}
      && (OrphanDebit(w.db.transactions, p) != 0 ==> p.pc.verdict == Rejected(DeductionFailed))
      && (OrphanCredit(w.db.transactions, p) != 0 ==> p.pc.verdict == Rejected(GatewayError) && !p.refunded)
  {
    var w := Run(Initial(start), actions);
    InitialInv(start);
    assert TableAgrees(Initial(start));
    RunKeepsTable(Initial(start), start, actions);
    RunKeepsInv(Initial(start), start, actions);
    assert PaymentAgrees(w.db, start, w.payments[i]) && RowsAgree(w.db.transactions, w.payments[i]);
  }
}
