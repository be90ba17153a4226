/** The tables behind payments and wallets, and the one repository call each
    step of a payment makes.

    `Db` is the value of the three tables; `Repository` is the object the
    services call, its fields reassigned in place.  Every call takes a `reply`
    flag: false is a database error, which leaves the tables unchanged. */
module WalletRepository {

  import opened Optional

  /** A wallet is identified by its user and currency, which are unique together. */
  datatype WalletKey = WalletKey(userID: string, currency: string)

  datatype Wallet = Wallet(balance: int, version: int)

  datatype TransactionType = Debit | Credit

  datatype Transaction = Transaction(wallet: WalletKey, paymentID: nat, kind: TransactionType, amount: int)

  datatype PaymentStatus = Pending | Processing | Completed | Failed

  datatype Db = Db(
    wallets: map<WalletKey, Wallet>,
    transactions: seq<Transaction>,
    payments: map<nat, PaymentStatus>)

  function FindWallet(db: Db, key: WalletKey, reply: bool): (w: Option<Wallet>)
  {
    if reply && key in db.wallets then Some(db.wallets[key]) else None
  }

  function InsertTransaction(db: Db, txn: Transaction, reply: bool): Db
  {
    if reply then db.(transactions := db.transactions + [txn]) else db
  }

  /** The guard of `UPDATE ... WHERE id = $3 AND version = $4`. */
  predicate CasMatches(db: Db, key: WalletKey, version: int, reply: bool)
  {
    reply && key in db.wallets && db.wallets[key].version == version
  }

  function CasBalance(db: Db, key: WalletKey, newBalance: int, version: int, reply: bool): Db
  {
    if CasMatches(db, key, version, reply)
    then db.(wallets := db.wallets[key := Wallet(newBalance, version + 1)])
    else db
  }

  function SavePayment(db: Db, id: nat, reply: bool): Db
  {
    if reply then db.(payments := db.payments[id := Pending]) else db
  }

  /** An update that names no row is not an error; it changes nothing. */
  function SetStatus(db: Db, id: nat, status: PaymentStatus, reply: bool): Db
  {
    if reply && id in db.payments then db.(payments := db.payments[id := status]) else db
  }

  class Repository {
    var wallets: map<WalletKey, Wallet>
    var transactions: seq<Transaction>
    var payments: map<nat, PaymentStatus>

    constructor (wallets: map<WalletKey, Wallet>)
      ensures State() == Db(wallets, [], map[])
    {
      this.wallets, transactions, payments := wallets, [], map[];
    }

    function State(): Db
      reads this
    {
      Db(wallets, transactions, payments)
    }

    method GetWalletByUserID(key: WalletKey, reply: bool) returns (w: Option<Wallet>)
      ensures w == FindWallet(State(), key, reply)
    {
      if !reply {
        return None;
      }
      if key !in wallets {
        return None;
      }
      return Some(wallets[key]);
    }

    method CreateTransaction(txn: Transaction, reply: bool) returns (ok: bool)
      modifies this
      ensures ok == reply
      ensures State() == InsertTransaction(old(State()), txn, reply)
    {
      if reply {
        transactions := transactions + [txn];
      }
      return reply;
    }

    method UpdateBalance(key: WalletKey, newBalance: int, version: int, reply: bool) returns (ok: bool)
      modifies this
      ensures ok == CasMatches(old(State()), key, version, reply)
      ensures State() == CasBalance(old(State()), key, newBalance, version, reply)
    {
      if !reply {
        return false;
      }
      var rowsAffected := 0;
      if key in wallets && wallets[key].version == version {
        wallets := wallets[key := Wallet(newBalance, wallets[key].version + 1)];
        rowsAffected := 1;
      }
      return rowsAffected != 0;
    }

    method Save(id: nat, reply: bool) returns (ok: bool)
      modifies this
      ensures ok == reply
      ensures State() == SavePayment(old(State()), id, reply)
    {
      if reply {
        payments := payments[id := Pending];
      }
      return reply;
    }

    method UpdateStatus(id: nat, status: PaymentStatus, reply: bool)
      modifies this
      ensures State() == SetStatus(old(State()), id, status, reply)
      ensures payments == if reply && id in old(payments) then old(payments)[id := status] else old(payments)
    {
      if reply && id in payments {
        payments := payments[id := status];
      }
    }
  }
}
