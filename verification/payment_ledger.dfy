/** Any number of payments over any number of wallets, interleaved at every
    repository call: what each step keeps, and what that says of whole runs. */
module PaymentLedger {
  import opened WalletRepository
  import opened PaymentMachine

  datatype World = World(db: Db, payments: seq<Payment>)

  /** `Arrive` is a request that reaches the service; the handler refuses amounts that are not positive. */
  datatype Action = Arrive(key: WalletKey, amount: int) | Call(i: nat, reply: bool)

  function Next(w: World, a: Action): World
  {
    match a
    case Arrive(key, amount) =>
      if amount > 0 then w.(payments := w.payments + [NewPayment(|w.payments|, key, amount)]) else w
    case Call(i, reply) =>
      if i < |w.payments| then
        var (db, p) := Step(w.db, w.payments[i], reply);
        World(db, w.payments[i := p])
      else w
  }

  function Run(w: World, actions: seq<Action>): World
    decreases |actions|
  {
    if actions == [] then w else Run(Next(w, actions[0]), actions[1..])
  }

  function Initial(wallets: map<WalletKey, Wallet>): World
  {
    World(Db(wallets, [], map[]), [])
  }

  // ---------- sums over payments ----------

  function Total(ps: seq<Payment>, f: Payment -> int): int
  {
    if ps == [] then 0 else f(ps[0]) + Total(ps[1..], f)
  }

  /** What a payment holds of wallet `key`: debited and not refunded. */
  function Held(key: WalletKey): Payment -> int
  {
    (p: Payment) => if p.key == key && p.debited && !p.refunded then p.amount else 0
  }

  /** The balance updates a payment committed on wallet `key`. */
  function Updates(key: WalletKey): Payment -> int
  {
    (p: Payment) => if p.key == key then (if p.debited then 1 else 0) + (if p.refunded then 1 else 0) else 0
  }

  lemma {:induction false} TotalUpdate(ps: seq<Payment>, i: nat, p: Payment, f: Payment -> int)
    requires i < |ps|
    ensures Total(ps[i := p], f) == Total(ps, f) - f(ps[i]) + f(p)
  {
    if i == 0 {
      assert ps[i := p][1..] == ps[1..];
    } else {
      assert ps[i := p][1..] == ps[1..][i - 1 := p];
      TotalUpdate(ps[1..], i - 1, p, f);
    }
  }

  lemma {:induction false} TotalAppend(ps: seq<Payment>, p: Payment, f: Payment -> int)
    ensures Total(ps + [p], f) == Total(ps, f) + f(p)
  {
    if ps == [] {
      assert ps + [p] == [p];
      assert [p][1..] == [];
    } else {
      assert (ps + [p])[1..] == ps[1..] + [p];
      TotalAppend(ps[1..], p, f);
    }
  }

  lemma {:induction false} TotalAtLeast(ps: seq<Payment>, i: nat, f: Payment -> int)
    requires i < |ps|
    requires forall p :: p in ps ==> f(p) >= 0
    ensures Total(ps, f) >= f(ps[i])
  {
    TotalNonNegative(ps[1..], f);
    if i > 0 {
      TotalAtLeast(ps[1..], i - 1, f);
    }
  }

  lemma {:induction false} TotalNonNegative(ps: seq<Payment>, f: Payment -> int)
    requires forall p :: p in ps ==> f(p) >= 0
    ensures Total(ps, f) >= 0
  {
    if ps != [] {
      TotalNonNegative(ps[1..], f);
    }
  }

  lemma {:induction false} TotalCongruent(ps: seq<Payment>, f: Payment -> int, g: Payment -> int)
    requires forall p :: p in ps ==> f(p) == g(p)
    ensures Total(ps, f) == Total(ps, g)
  {
    if ps != [] {
      TotalCongruent(ps[1..], f, g);
    }
  }

  // ---------- the invariant ----------

  /** The two history flags as the program counter determines them. */
  predicate FlagsAgree(p: Payment)
  {
    match p.pc
    case Saving => !p.debited && !p.refunded
    case Validating => !p.debited && !p.refunded
    case DeductReading => !p.debited && !p.refunded
    case DeductInserting(_) => !p.debited && !p.refunded
    case DeductUpdating(_) => !p.debited && !p.refunded
    case MarkingFailed(reason) => if reason == GatewayError then p.debited else !p.debited && !p.refunded
    case Done(Rejected(reason)) => if reason == GatewayError then p.debited else !p.debited && !p.refunded
    case Done(NotSaved) => !p.debited && !p.refunded
    case _ => p.debited && !p.refunded
  }

  /** A wallet read in flight is the current row, or an older version of it. */
  predicate ReadIsPast(db: Db, key: WalletKey, seen: Wallet)
  {
    && key in db.wallets
    && seen.version <= db.wallets[key].version
    && (seen.version == db.wallets[key].version ==> seen == db.wallets[key])
  }

  predicate ReadsAgree(db: Db, start: map<WalletKey, Wallet>, p: Payment)
  {
    match p.pc
    case DeductInserting(seen) => DeductReadAgrees(db, start, p, seen)
    case DeductUpdating(seen) => DeductReadAgrees(db, start, p, seen)
    case RefundInserting(seen) => RefundReadAgrees(db, start, p, seen)
    case RefundUpdating(seen) => RefundReadAgrees(db, start, p, seen)
    case _ => true
  }

  predicate DeductReadAgrees(db: Db, start: map<WalletKey, Wallet>, p: Payment, seen: Wallet)
  {
    && ReadIsPast(db, p.key, seen)
    && p.key in start
    && seen.version >= start[p.key].version
    && seen.balance >= p.amount
  }

  /** A refund reads the wallet after its own debit was committed, and what it
      is about to write is no more than the wallet started with. */
  predicate RefundReadAgrees(db: Db, start: map<WalletKey, Wallet>, p: Payment, seen: Wallet)
  {
    && ReadIsPast(db, p.key, seen)
    && p.key in start
    && seen.version > start[p.key].version
    && 0 <= seen.balance
    && seen.balance + p.amount <= start[p.key].balance
  }

  /** The stored row of a payment says completed only for a payment charged and
      not refunded, and failed only for one that was turned down. */
  predicate RowAgrees(db: Db, p: Payment)
  {
    if p.id !in db.payments then p.pc.Saving? || p.pc == Done(NotSaved)
    else match db.payments[p.id]
      case Pending => p.pc != Saving && p.pc != Done(NotSaved)
      case Processing => p.debited
      case Completed => p.pc == Done(Succeeded)
      case Failed => p.pc.Done? && p.pc.verdict.Rejected?
  }

  predicate PaymentAgrees(db: Db, start: map<WalletKey, Wallet>, p: Payment)
  {
    && p.amount > 0
    && FlagsAgree(p)
    && ReadsAgree(db, start, p)
    && RowAgrees(db, p)
    && (p.debited ==> p.key in db.wallets)
  }

  predicate WalletAgrees(w: World, start: map<WalletKey, Wallet>, key: WalletKey)
    requires key in w.db.wallets && key in start
  {
    && w.db.wallets[key].balance >= 0
    && w.db.wallets[key].balance + Total(w.payments, Held(key)) == start[key].balance
    && w.db.wallets[key].version == start[key].version + Total(w.payments, Updates(key))
  }

  predicate Inv(w: World, start: map<WalletKey, Wallet>)
  {
    && w.db.wallets.Keys == start.Keys
    && (forall id :: id in w.db.payments ==> id < |w.payments|)
    && (forall i :: 0 <= i < |w.payments| ==> w.payments[i].id == i && PaymentAgrees(w.db, start, w.payments[i]))
    && (forall key :: key in w.db.wallets ==> WalletAgrees(w, start, key))
  }

  lemma InitialInv(wallets: map<WalletKey, Wallet>)
    requires forall key :: key in wallets ==> wallets[key].balance >= 0
    ensures Inv(Initial(wallets), wallets)
  {
  }

  lemma ArriveKeepsInv(w: World, start: map<WalletKey, Wallet>, key: WalletKey, amount: int)
    requires Inv(w, start)
    ensures Inv(Next(w, Arrive(key, amount)), start)
  {
    if amount > 0 {
      var p := NewPayment(|w.payments|, key, amount);
      var w' := Next(w, Arrive(key, amount));
      forall k | k in w'.db.wallets
        ensures WalletAgrees(w', start, k)
      {
        assert WalletAgrees(w, start, k);
        TotalAppend(w.payments, p, Held(k));
        TotalAppend(w.payments, p, Updates(k));
      }
    }
  }

  /** How one step of payment `i` moves the wallets: not at all, or by
      committing its debit or its refund against the wallet it has just matched. */
  lemma CallMovesWallet(w: World, start: map<WalletKey, Wallet>, i: nat, reply: bool, key: WalletKey)
    requires Inv(w, start) && i < |w.payments| && key in w.db.wallets
    ensures var w' := Next(w, Call(i, reply)); key in w'.db.wallets && WalletAgrees(w', start, key)
    ensures var w' := Next(w, Call(i, reply)); w.db.wallets[key].version <= w'.db.wallets[key].version
    ensures var w' := Next(w, Call(i, reply)); w.db.wallets[key].version == w'.db.wallets[key].version ==>
      w.db.wallets[key] == w'.db.wallets[key]
  {
    var p := w.payments[i];
    var (db, q) := Step(w.db, p, reply);
    assert PaymentAgrees(w.db, start, p);
    assert WalletAgrees(w, start, key);
    TotalUpdate(w.payments, i, q, Held(key));
    TotalUpdate(w.payments, i, q, Updates(key));
  }

  /** A payment's refund never writes more than the wallet started with. */
  lemma RefundFits(w: World, start: map<WalletKey, Wallet>, i: nat)
    requires Inv(w, start) && i < |w.payments|
    requires w.payments[i].debited && !w.payments[i].refunded
    ensures w.payments[i].key in start && w.payments[i].key in w.db.wallets
    ensures w.db.wallets[w.payments[i].key].balance + w.payments[i].amount <= start[w.payments[i].key].balance
    ensures w.db.wallets[w.payments[i].key].version > start[w.payments[i].key].version
  {
    var p := w.payments[i];
    assert PaymentAgrees(w.db, start, p);
    assert WalletAgrees(w, start, p.key);
    SharesNonNegative(w, start, p.key);
    TotalAtLeast(w.payments, i, Held(p.key));
    TotalAtLeast(w.payments, i, Updates(p.key));
  }

  /** Versions only grow: a read never precedes the start. */
  lemma VersionGrew(w: World, start: map<WalletKey, Wallet>, key: WalletKey)
    requires Inv(w, start) && key in w.db.wallets
    ensures key in start && w.db.wallets[key].version >= start[key].version
    ensures w.db.wallets[key].balance <= start[key].balance
  {
    assert WalletAgrees(w, start, key);
    SharesNonNegative(w, start, key);
    TotalNonNegative(w.payments, Held(key));
    TotalNonNegative(w.payments, Updates(key));
  }

  lemma SharesNonNegative(w: World, start: map<WalletKey, Wallet>, key: WalletKey)
    requires Inv(w, start)
    ensures forall q :: q in w.payments ==> Held(key)(q) >= 0 && Updates(key)(q) >= 0
  {
    forall q | q in w.payments
      ensures Held(key)(q) >= 0 && Updates(key)(q) >= 0
    {
      var j :| 0 <= j < |w.payments| && w.payments[j] == q;
      assert PaymentAgrees(w.db, start, w.payments[j]);
    }
  }

  lemma StepKeepsReads(w: World, start: map<WalletKey, Wallet>, i: nat, reply: bool)
    requires Inv(w, start) && i < |w.payments|
    ensures var (db, q) := Step(w.db, w.payments[i], reply); ReadsAgree(db, start, q)
  {
    var p := w.payments[i];
    assert PaymentAgrees(w.db, start, p);
    if p.pc.DeductReading? && p.key in w.db.wallets {
      VersionGrew(w, start, p.key);
    }
    if p.pc.RefundReading? {
      RefundFits(w, start, i);
      assert WalletAgrees(w, start, p.key);
    }
  }

  lemma StepKeepsRow(db: Db, p: Payment, reply: bool)
    requires RowAgrees(db, p) && FlagsAgree(p)
    ensures var (db', q) := Step(db, p, reply); RowAgrees(db', q) && FlagsAgree(q)
  {
  }

  lemma CallKeepsSelf(w: World, start: map<WalletKey, Wallet>, i: nat, reply: bool)
    requires Inv(w, start) && i < |w.payments|
    ensures var (db, q) := Step(w.db, w.payments[i], reply); q.id == i && PaymentAgrees(db, start, q)
  {
    var p := w.payments[i];
    assert PaymentAgrees(w.db, start, p);
    StepKeepsReads(w, start, i, reply);
    StepKeepsRow(w.db, p, reply);
  }

  lemma OtherRowsStay(db: Db, p: Payment, reply: bool, id: nat)
    requires id != p.id
    ensures var db' := Step(db, p, reply).0;
      && (id in db'.payments <==> id in db.payments)
      && (id in db.payments ==> db'.payments[id] == db.payments[id])
  {
  }

  lemma CallKeepsOthers(w: World, start: map<WalletKey, Wallet>, i: nat, reply: bool, j: nat)
    requires Inv(w, start) && i < |w.payments| && j < |w.payments| && i != j
    ensures PaymentAgrees(Step(w.db, w.payments[i], reply).0, start, w.payments[j])
  {
    var p := w.payments[j];
    var db := Step(w.db, w.payments[i], reply).0;
    assert w.payments[i].id == i && p.id == j && PaymentAgrees(w.db, start, p);
    OtherRowsStay(w.db, w.payments[i], reply, j);
    assert RowAgrees(db, p);
    if p.key in w.db.wallets {
      CallMovesWallet(w, start, i, reply, p.key);
    }
  }

  lemma CallKeepsInv(w: World, start: map<WalletKey, Wallet>, i: nat, reply: bool)
    requires Inv(w, start)
    ensures Inv(Next(w, Call(i, reply)), start)
  {
    if i < |w.payments| {
      var w' := Next(w, Call(i, reply));
      CallKeepsSelf(w, start, i, reply);
      forall j | 0 <= j < |w'.payments|
        ensures w'.payments[j].id == j && PaymentAgrees(w'.db, start, w'.payments[j])
      {
        if j != i {
          CallKeepsOthers(w, start, i, reply, j);
        }
      }
      forall key | key in w'.db.wallets
        ensures WalletAgrees(w', start, key)
      {
        CallMovesWallet(w, start, i, reply, key);
      }
    }
  }

  lemma {:induction false} RunKeepsInv(w: World, start: map<WalletKey, Wallet>, actions: seq<Action>)
    requires Inv(w, start)
    ensures Inv(Run(w, actions), start)
    decreases |actions|
  {
    if actions != [] {
      match actions[0] {
        case Arrive(key, amount) => ArriveKeepsInv(w, start, key, amount);
        case Call(i, reply) => CallKeepsInv(w, start, i, reply);
      }
      RunKeepsInv(Next(w, actions[0]), start, actions[1..]);
    }
  }

  lemma {:induction false} RunSplits(w: World, a: seq<Action>, b: seq<Action>)
    ensures Run(w, a + b) == Run(Run(w, a), b)
    decreases |a|
  {
    if a == [] {
      assert a + b == b;
    } else {
      assert (a + b)[1..] == a[1..] + b;
      RunSplits(Next(w, a[0]), a[1..], b);
    }
  }

  // ---------- main results ----------

  /** At every point of every run, each wallet's balance stays between zero and
      its starting balance (so no 64-bit amount overflows), what is missing from
      it is exactly what payments have debited and not refunded, and its version
      has counted every committed update. */
  lemma Ledger(start: map<WalletKey, Wallet>, actions: seq<Action>, key: WalletKey)
    requires forall k :: k in start ==> start[k].balance >= 0
    requires key in start
    ensures var w := Run(Initial(start), actions);
      && key in w.db.wallets
      && 0 <= w.db.wallets[key].balance <= start[key].balance
      && w.db.wallets[key].balance + Total(w.payments, Held(key)) == start[key].balance
      && w.db.wallets[key].version == start[key].version + Total(w.payments, Updates(key))
  {
    InitialInv(start);
    RunKeepsInv(Initial(start), start, actions);
    var w := Run(Initial(start), actions);
    assert WalletAgrees(w, start, key);
    VersionGrew(w, start, key);
  }

  function CompletedAmount(key: WalletKey): Payment -> int
  {
    (p: Payment) => if p.key == key && p.pc == Done(Succeeded) then p.amount else 0
  }

  /** Failed at the gateway after its debit, and its one refund attempt did not commit. */
  function LostRefundAmount(key: WalletKey): Payment -> int
  {
    (p: Payment) => if p.key == key && p.pc == Done(Rejected(GatewayError)) && !p.refunded then p.amount else 0
  }

  lemma {:induction false} TotalAdds(ps: seq<Payment>, f: Payment -> int, g: Payment -> int, h: Payment -> int)
    requires forall p :: p in ps ==> f(p) == g(p) + h(p)
    ensures Total(ps, f) == Total(ps, g) + Total(ps, h)
  {
    if ps != [] {
      TotalAdds(ps[1..], f, g, h);
    }
  }

  lemma EndedHolds(w: World, start: map<WalletKey, Wallet>, key: WalletKey)
    requires Inv(w, start) && forall p :: p in w.payments ==> p.pc.Done?
    ensures forall p :: p in w.payments ==> Held(key)(p) == CompletedAmount(key)(p) + LostRefundAmount(key)(p)
  {
    forall p | p in w.payments
      ensures Held(key)(p) == CompletedAmount(key)(p) + LostRefundAmount(key)(p)
    {
      var i :| 0 <= i < |w.payments| && w.payments[i] == p;
      assert PaymentAgrees(w.db, start, w.payments[i]);
    }
  }

  /** When every payment has ended, a wallet is short of exactly the completed
      payments and the failed ones whose refund was lost. */
  lemma FinalAccounts(start: map<WalletKey, Wallet>, actions: seq<Action>, key: WalletKey)
    requires forall k :: k in start ==> start[k].balance >= 0
    requires key in start
    requires forall p :: p in Run(Initial(start), actions).payments ==> p.pc.Done?
    ensures var w := Run(Initial(start), actions);
      && key in w.db.wallets
      && start[key].balance - w.db.wallets[key].balance
         == Total(w.payments, CompletedAmount(key)) + Total(w.payments, LostRefundAmount(key))
  {
    InitialInv(start);
    RunKeepsInv(Initial(start), start, actions);
    var w := Run(Initial(start), actions);
    assert WalletAgrees(w, start, key);
    EndedHolds(w, start, key);
    TotalAdds(w.payments, Held(key), CompletedAmount(key), LostRefundAmount(key));
  }

  /** Whatever errors the status updates met, a stored row says completed only
      for a payment that was charged and kept, and never for one that failed. */
  lemma StoredStatusIsHonest(start: map<WalletKey, Wallet>, actions: seq<Action>, i: nat)
    requires forall k :: k in start ==> start[k].balance >= 0
    requires i < |Run(Initial(start), actions).payments|
    requires i in Run(Initial(start), actions).db.payments
    ensures var w := Run(Initial(start), actions);
      && (w.db.payments[i] == Completed ==> w.payments[i].debited && !w.payments[i].refunded)
      && (w.payments[i].pc == Done(Succeeded) ==> w.db.payments[i] != Failed)
      && (w.payments[i].pc.Done? && w.payments[i].pc.verdict.Rejected? ==> w.db.payments[i] != Completed)
  {
    InitialInv(start);
    RunKeepsInv(Initial(start), start, actions);
    var w := Run(Initial(start), actions);
    assert w.payments[i].id == i && PaymentAgrees(w.db, start, w.payments[i]);
  }

  lemma StepKeepsIdentity(db: Db, p: Payment, reply: bool)
    ensures var q := Step(db, p, reply).1;
      && q.id == p.id && q.key == p.key && q.amount == p.amount
      && (p.debited ==> q.debited)
  {
  }

  // ---------- a payment alone ----------

  /** The calls of payment `i` from where it stands to its end, with nobody in between. */
  function OwnCalls(db: Db, p: Payment, env: Replies, i: nat): seq<Action>
    decreases Remaining(p.pc)
  {
    if p.pc.Done? then []
    else
      var (d, q) := Step(db, p, ReplyAt(env, p.pc));
      StepDecreases(db, p, ReplyAt(env, p.pc));
      [Call(i, ReplyAt(env, p.pc))] + OwnCalls(d, q, env, i)
  }

  /** What the services do in one go is a run in which only that payment makes calls, so
      everything that holds of runs holds of it. */
  lemma {:induction false} SoloIsARun(w: World, i: nat, env: Replies)
    requires i < |w.payments|
    ensures var (d, q) := Solo(w.db, w.payments[i], env);
      Run(w, OwnCalls(w.db, w.payments[i], env, i)) == World(d, w.payments[i := q])
    decreases Remaining(w.payments[i].pc)
  {
    var p := w.payments[i];
    if p.pc.Done? {
      assert w.payments[i := p] == w.payments;
    } else {
      var a := Call(i, ReplyAt(env, p.pc));
      var v := Next(w, a);
      StepDecreases(w.db, p, ReplyAt(env, p.pc));
      SoloIsARun(v, i, env);
      var calls := OwnCalls(v.db, v.payments[i], env, i);
      assert ([a] + calls)[1..] == calls;
      var q := Solo(v.db, v.payments[i], env).1;
      assert v.payments[i := q] == w.payments[i := q];
    }
  }

  // ---------- when an update is lost ----------

  /** From the read to the update, whatever the others did in between: the debit
      commits if and only if no other update of that wallet was committed meanwhile. */
  lemma DeductCommitsIff(w: World, start: map<WalletKey, Wallet>, i: nat, actions: seq<Action>)
    requires Inv(w, start) && i < |w.payments| && w.payments[i].pc.DeductReading?
    requires var w2 := Run(Next(w, Call(i, true)), actions);
      i < |w2.payments| && w2.payments[i].key == w.payments[i].key
      && w.payments[i].key in w.db.wallets && w2.payments[i].pc == DeductUpdating(w.db.wallets[w.payments[i].key])
    ensures var key := w.payments[i].key;
      var w2 := Run(Next(w, Call(i, true)), actions);
      Next(w2, Call(i, true)).payments[i].debited
      <==> Total(w2.payments, Updates(key)) == Total(w.payments, Updates(key))
  {
    var key := w.payments[i].key;
    var w1 := Next(w, Call(i, true));
    CallKeepsInv(w, start, i, true);
    RunKeepsInv(w1, start, actions);
    var w2 := Run(w1, actions);
    assert WalletAgrees(w, start, key);
    assert WalletAgrees(w2, start, key);
    assert PaymentAgrees(w2.db, start, w2.payments[i]);
  }

  /** From the read to the update, whatever the others did in between: the refund
      commits if and only if no other update of that wallet was committed meanwhile. */
  lemma RefundCommitsIff(w: World, start: map<WalletKey, Wallet>, i: nat, actions: seq<Action>)
    requires Inv(w, start) && i < |w.payments| && w.payments[i].pc.RefundReading?
    requires var w2 := Run(Next(w, Call(i, true)), actions);
      i < |w2.payments| && w2.payments[i].key == w.payments[i].key
      && w.payments[i].key in w.db.wallets && w2.payments[i].pc == RefundUpdating(w.db.wallets[w.payments[i].key])
    ensures var key := w.payments[i].key;
      var w2 := Run(Next(w, Call(i, true)), actions);
      Next(w2, Call(i, true)).payments[i].refunded
      <==> Total(w2.payments, Updates(key)) == Total(w.payments, Updates(key))
  {
    var key := w.payments[i].key;
    var w1 := Next(w, Call(i, true));
    CallKeepsInv(w, start, i, true);
    RunKeepsInv(w1, start, actions);
    var w2 := Run(w1, actions);
    assert WalletAgrees(w, start, key);
    assert WalletAgrees(w2, start, key);
    assert PaymentAgrees(w2.db, start, w2.payments[i]);
  }

  // ---------- the refund result is discarded: a run that shows it ----------

  const ALL_WELL := Replies(true, true, true, true, true, true, true, true, true, true, true)

  /** `n` calls of payment `i` that all succeed. */
  function Steps(i: nat, n: nat): seq<Action>
    decreases n
  {
    if n == 0 then [] else [Call(i, true)] + Steps(i, n - 1)
  }

  lemma {:induction false} StepsRun(w: World, i: nat, n: nat)
    requires i < |w.payments|
    ensures var (db, p) := Alone(w.db, w.payments[i], ALL_WELL, n);
      Run(w, Steps(i, n)) == World(db, w.payments[i := p])
    decreases n
  {
    if n == 0 {
      assert w.payments[i := w.payments[i]] == w.payments;
    } else {
      var w' := Next(w, Call(i, true));
      assert Steps(i, n)[1..] == Steps(i, n - 1);
      StepsRun(w', i, n - 1);
      var q := Alone(w'.db, w'.payments[i], ALL_WELL, n - 1).1;
      assert w'.payments[i := q] == w.payments[i := q];
    }
  }

  lemma LostRefundSteps(db: Db, p: Payment)
    requires p.pc.RefundUpdating? && p.key in db.wallets && db.wallets[p.key].version != p.pc.seen.version
    ensures Alone(db, p, ALL_WELL, 2) == (SetStatus(db, p.id, Failed, true), p.(pc := Done(Rejected(GatewayError))))
  {
  }

  /** A payment alone in its world for `n` calls: only it and the tables move. */
  lemma Extend(start: World, actions: seq<Action>, i: nat, n: nat) returns (longer: seq<Action>, w: World)
    requires i < |Run(start, actions).payments|
    ensures var v := Run(start, actions);
      var (db, p) := Alone(v.db, v.payments[i], ALL_WELL, n);
      w == World(db, v.payments[i := p]) == Run(start, longer)
  {
    longer := actions + Steps(i, n);
    RunSplits(start, actions, Steps(i, n));
    StepsRun(Run(start, actions), i, n);
    w := Run(start, longer);
  }

  lemma ExtendOne(start: World, actions: seq<Action>, a: Action) returns (longer: seq<Action>, w: World)
    ensures w == Next(Run(start, actions), a) == Run(start, longer)
  {
    longer := actions + [a];
    RunSplits(start, actions, [a]);
    assert [a][1..] == [];
    w := Run(start, longer);
  }

  lemma RefundReadSteps(db: Db, p: Payment)
    requires p.pc.RefundReading? && p.key in db.wallets
    ensures Alone(db, p, ALL_WELL, 2)
      == (InsertTransaction(db, Transaction(p.key, p.id, Credit, p.amount), true),
        p.(pc := RefundUpdating(db.wallets[p.key])))
  {
  }

  /** The first of two payments of 10 on a wallet of 100 is declined and reads the wallet for its refund. */
  lemma DeclinedMidRefund(key: WalletKey) returns (actions: seq<Action>, w: World)
    ensures w == Run(Initial(map[key := Wallet(100, 1)]), actions)
    ensures w.payments == [Payment(0, key, 10, RefundUpdating(Wallet(90, 2)), true, false), NewPayment(1, key, 10)]
    ensures w.db.wallets == map[key := Wallet(90, 2)] && 0 in w.db.payments
  {
    var start := Initial(map[key := Wallet(100, 1)]);
    assert Run(start, []) == start;
    actions, w := ExtendOne(start, [], Arrive(key, 10));
    actions, w := ExtendOne(start, actions, Arrive(key, 10));
    assert w.payments == [NewPayment(0, key, 10), NewPayment(1, key, 10)];
    ChargeSteps(w.db, w.payments[0], ALL_WELL);
    actions, w := Extend(start, actions, 0, 5);
    actions, w := ExtendOne(start, actions, Call(0, true));
    actions, w := ExtendOne(start, actions, Call(0, false));
    assert w.payments == [Payment(0, key, 10, RefundReading, true, false), NewPayment(1, key, 10)];
    RefundReadSteps(w.db, w.payments[0]);
    actions, w := Extend(start, actions, 0, 2);
  }

  /** Two payments of 10 on a wallet of 100.  Between the read and the update of
      the first one's refund the second debits.  The first then ends as failed
      with its 10 still missing: 80 remain. */
  lemma DeclinedAndNotRefunded(key: WalletKey)
    ensures exists actions :: LosesMoney(map[key := Wallet(100, 1)], actions, key)
  {
    var start := Initial(map[key := Wallet(100, 1)]);
    var actions, w := DeclinedMidRefund(key);
    ChargeSteps(w.db, w.payments[1], ALL_WELL);
    actions, w := Extend(start, actions, 1, 5);
    assert w.payments == [Payment(0, key, 10, RefundUpdating(Wallet(90, 2)), true, false),
                          Payment(1, key, 10, MarkingProcessing, true, false)];
    assert w.db.wallets[key] == Wallet(80, 3) && 0 in w.db.payments;
    LostRefundSteps(w.db, w.payments[0]);
    actions, w := Extend(start, actions, 0, 2);
    assert w.payments == [Payment(0, key, 10, Done(Rejected(GatewayError)), true, false),
                          Payment(1, key, 10, MarkingProcessing, true, false)];
    assert w.db.wallets[key] == Wallet(80, 3) && 0 in w.db.payments && w.db.payments[0] == Failed;
    AcceptSteps(w.db, w.payments[1], ALL_WELL);
    actions, w := Extend(start, actions, 1, 3);
    assert w.payments == [Payment(0, key, 10, Done(Rejected(GatewayError)), true, false),
                          Payment(1, key, 10, Done(Succeeded), true, false)];
    assert LosesMoney(map[key := Wallet(100, 1)], actions, key);
  }

  /** Every payment ended, one completed and one failed, yet both amounts are gone. */
  predicate LosesMoney(start: map<WalletKey, Wallet>, actions: seq<Action>, key: WalletKey)
  {
    var w := Run(Initial(start), actions);
    && key in start && key in w.db.wallets
    && |w.payments| == 2
    && w.payments[0].pc == Done(Rejected(GatewayError))
    && w.payments[1].pc == Done(Succeeded)
    && 0 in w.db.payments && w.db.payments[0] == Failed
    && w.db.wallets[key].balance == start[key].balance - w.payments[0].amount - w.payments[1].amount
  }
}
