/** The wallet services of app/services.py over the tables of app/models.py.
    The database session is a `WalletService` object whose tables the four writing services
    update in place; `GetBalance` and `TransactionHistory` only read the tables.
    A failing commit (the store raising during `db.session.commit()`) is the parameter
    `commitFails`: the session is rolled back and the tables stay as they were. */
module Services {
  import opened Models
  import opened Errors

  /** Some user has registered `phone` (`User.query.filter_by(phone_number=...).first()`). */
  predicate PhoneRegistered(users: map<int, User>, phone: string)
  {
    exists u :: u in users && users[u].phoneNumber == phone
  }

  /** Some wallet is owned by `userId` (`Wallet.query.filter_by(user_id=...).first()`). */
  predicate HasWallet(wallets: map<int, Wallet>, userId: int)
  {
    exists w :: w in wallets && wallets[w].userId == userId
  }

  /** The services never give a user a second wallet; the schema alone would allow it. */
  ghost predicate OneWalletPerUser(wallets: map<int, Wallet>)
  {
    forall w, v :: w in wallets && v in wallets && wallets[w].userId == wallets[v].userId ==> w == v
  }

  /** The `wallets` backref makes user-to-wallet one-to-many: a database can satisfy every
      column constraint and still hold two wallets of one user. */
  lemma SchemaAllowsSeveralWalletsPerUser()
    ensures exists db :: SchemaValid(db) && !OneWalletPerUser(db.wallets)
  {
    var db := Db(map[1 := User("1234567890")], map[1 := Wallet(1, 0), 2 := Wallet(1, 0)], []);
    assert db.wallets[1].userId == db.wallets[2].userId;
    assert SchemaValid(db) && !OneWalletPerUser(db.wallets);
  }

  /** One row of a transaction history: `{'amount': ..., 'type': ..., 'date': ...}`. */
  datatype HistoryEntry = HistoryEntry(amount: int, kind: string, date: int)

  function EntryOf(t: WalletTransaction): HistoryEntry
  {
    HistoryEntry(t.amount, t.kind, t.timestamp)
  }

  /** `t` belongs to the wallet and `timestamp.between(start, end)` holds (both ends included). */
  predicate InRange(t: WalletTransaction, walletId: int, start: int, end: int)
  {
    t.walletId == walletId && start <= t.timestamp <= end
  }

  /** The entries of the transactions in `txns` that lie in range, in table order. */
  function Matching(txns: seq<WalletTransaction>, walletId: int, start: int, end: int): (r: seq<HistoryEntry>)
    ensures |r| <= |txns|
    ensures forall k :: 0 <= k < |r| ==> start <= r[k].date <= end
  {
    if txns == [] then []
    else
      (if InRange(txns[0], walletId, start, end) then [EntryOf(txns[0])] else [])
      + Matching(txns[1..], walletId, start, end)
  }

  /** The history of a table is the history of its first part followed by that of the rest:
      each transaction contributes on its own and order is kept. */
  lemma {:induction false} MatchingAppend(a: seq<WalletTransaction>, b: seq<WalletTransaction>, walletId: int, start: int, end: int)
    ensures Matching(a + b, walletId, start, end) == Matching(a, walletId, start, end) + Matching(b, walletId, start, end)
  {
    if a == [] {
      assert a + b == b;
    } else {
      assert (a + b)[0] == a[0];
      assert (a + b)[1..] == a[1..] + b;
      MatchingAppend(a[1..], b, walletId, start, end);
    }
  }

  /** An entry is in the history exactly when some transaction of the wallet within the
      range produced it. */
  lemma {:induction false} MatchingMembership(txns: seq<WalletTransaction>, walletId: int, start: int, end: int, e: HistoryEntry)
    ensures e in Matching(txns, walletId, start, end) <==>
            exists i :: 0 <= i < |txns| && InRange(txns[i], walletId, start, end) && EntryOf(txns[i]) == e
  {
    if txns != [] {
      MatchingMembership(txns[1..], walletId, start, end, e);
      if e in Matching(txns[1..], walletId, start, end) {
        var i :| 0 <= i < |txns[1..]| && InRange(txns[1..][i], walletId, start, end) && EntryOf(txns[1..][i]) == e;
        assert txns[i + 1] == txns[1..][i];
      }
      if exists i :: 0 <= i < |txns| && InRange(txns[i], walletId, start, end) && EntryOf(txns[i]) == e {
        var i :| 0 <= i < |txns| && InRange(txns[i], walletId, start, end) && EntryOf(txns[i]) == e;
        if i > 0 {
          assert txns[1..][i - 1] == txns[i];
        }
      }
    }
  }

  /** A range whose start lies after its end selects nothing, as SQL's BETWEEN does. */
  lemma {:induction false} MatchingEmptyRange(txns: seq<WalletTransaction>, walletId: int, start: int, end: int)
    requires end < start
    ensures Matching(txns, walletId, start, end) == []
  {
    if txns != [] {
      MatchingEmptyRange(txns[1..], walletId, start, end);
    }
  }

  /** `get_balance`: the stored balance, or "Wallet not found". */
  function GetBalance(db: Db, walletId: int): (r: Result<int>)
    ensures r.Err? <==> walletId !in db.wallets
    ensures r.Err? ==> r.error == WalletNotFound
    ensures r.Ok? ==> r.value == db.wallets[walletId].balance
  {
    if walletId in db.wallets then Ok(db.wallets[walletId].balance) else Err(WalletNotFound)
  }

  /** `transaction_history`: the wallet's transactions stamped within [start, end], each as
      (amount, type, date), or "Wallet not found". */
  function TransactionHistory(db: Db, walletId: int, start: int, end: int): (r: Result<seq<HistoryEntry>>)
    ensures r.Err? <==> walletId !in db.wallets
    ensures r.Err? ==> r.error == WalletNotFound
    ensures r.Ok? ==> r.value == Matching(db.transactions, walletId, start, end)
  {
    if walletId in db.wallets then Ok(Matching(db.transactions, walletId, start, end)) else Err(WalletNotFound)
  }

  /** On a valid database, every history entry comes from a transaction of the asked-for wallet. */
  lemma HistoryEntriesBelongToWallet(db: Db, walletId: int, start: int, end: int, e: HistoryEntry)
    requires SchemaValid(db)
    requires TransactionHistory(db, walletId, start, end).Ok?
    requires e in TransactionHistory(db, walletId, start, end).value
    ensures IsTransactionType(e.kind)
    ensures exists i :: 0 <= i < |db.transactions| && db.transactions[i].walletId == walletId
                        && EntryOf(db.transactions[i]) == e
  {
    MatchingMembership(db.transactions, walletId, start, end, e);
  }

  /** A database session over the `user`, `wallet` and `wallet_transaction` tables. */
  class WalletService {
    var db: Db
    /** The ids the store gives the next inserted user and wallet (auto-increment keys). */
    var nextUserId: int
    var nextWalletId: int

    /** The store invariant. Under it the next keys the store hands out are unused. */
    ghost predicate Valid()
      reads this
      ensures Valid() ==> nextUserId !in db.users && nextWalletId !in db.wallets
    {
      && SchemaValid(db)
      && OneWalletPerUser(db.wallets)
      && 0 < nextUserId && 0 < nextWalletId
      && (forall u :: u in db.users ==> 0 < u < nextUserId)
      && (forall w :: w in db.wallets ==> 0 < w < nextWalletId)
    }

    /** `db.create_all()` on an empty database. */
    constructor ()
      ensures Valid()
      ensures db == Db(map[], map[], [])
      ensures nextUserId == 1 && nextWalletId == 1
      ensures FitsDeclaredWidths(db)
    {
      db := Db(map[], map[], []);
      nextUserId := 1;
      nextWalletId := 1;
    }

    /** `create_user`: rejects a registered phone number, otherwise inserts one user. */
    method CreateUser(phoneNumber: string, commitFails: bool) returns (r: Result<int>)
      requires Valid()
      modifies this
      ensures Valid()
      ensures PhoneRegistered(old(db.users), phoneNumber) ==> r == Err(UserAlreadyExists)
      ensures !PhoneRegistered(old(db.users), phoneNumber) && commitFails ==> r == Err(CreateUserFailed)
      ensures r.Ok? <==> !PhoneRegistered(old(db.users), phoneNumber) && !commitFails
      ensures r.Err? ==> db == old(db) && nextUserId == old(nextUserId)
      ensures r.Ok? ==> r.value == old(nextUserId) && nextUserId == old(nextUserId) + 1
      ensures r.Ok? ==> r.value !in old(db.users)
                        && db == old(db).(users := old(db.users)[r.value := User(phoneNumber)])
      ensures r.Ok? ==> (FitsDeclaredWidths(db) <==> FitsDeclaredWidths(old(db)) && |phoneNumber| <= MAX_STRING_COLUMN)
      ensures nextWalletId == old(nextWalletId)
    {
      if PhoneRegistered(db.users, phoneNumber) {
        return Err(UserAlreadyExists);
      }
      if commitFails {
        return Err(CreateUserFailed);
      }
      var id := nextUserId;
      ghost var before := db;
      db := db.(users := db.users[id := User(phoneNumber)]);
      nextUserId := nextUserId + 1;
      r := Ok(id);
      assert forall u :: u in before.users ==> u in db.users && db.users[u] == before.users[u];
      assert id in db.users && db.users[id].phoneNumber == phoneNumber;
    }

    /** `create_wallet`: the user must exist and own no wallet; inserts a wallet with balance 0. */
    method CreateWallet(userId: int, commitFails: bool) returns (r: Result<int>)
      requires Valid()
      modifies this
      ensures Valid()
      ensures userId !in old(db.users) ==> r == Err(UserDoesNotExist)
      ensures userId in old(db.users) && HasWallet(old(db.wallets), userId) ==>
                r.Err? && r.error.UserAlreadyHasWallet?
                && r.error.walletId in old(db.wallets) && old(db.wallets)[r.error.walletId].userId == userId
      ensures userId in old(db.users) && !HasWallet(old(db.wallets), userId) && commitFails ==>
                r == Err(CreateWalletFailed)
      ensures r.Ok? <==> userId in old(db.users) && !HasWallet(old(db.wallets), userId) && !commitFails
      ensures r.Err? ==> db == old(db) && nextWalletId == old(nextWalletId)
      ensures r.Ok? ==> r.value == old(nextWalletId) && nextWalletId == old(nextWalletId) + 1
      ensures r.Ok? ==> r.value !in old(db.wallets)
                        && db == old(db).(wallets := old(db.wallets)[r.value := Wallet(userId, 0)])
      ensures nextUserId == old(nextUserId)
    {
      if userId !in db.users {
        return Err(UserDoesNotExist);
      }
      if HasWallet(db.wallets, userId) {
        var existing :| existing in db.wallets && db.wallets[existing].userId == userId;
        return Err(UserAlreadyHasWallet(existing));
      }
      if commitFails {
        return Err(CreateWalletFailed);
      }
      var id := nextWalletId;
      db := db.(wallets := db.wallets[id := Wallet(userId, 0)]);
      nextWalletId := nextWalletId + 1;
      r := Ok(id);
    }

    /** `credit_money`: adds `amount` to the balance, with no check on the amount or the result. */
    method Credit(walletId: int, amount: int, commitFails: bool) returns (r: Result<int>)
      requires Valid()
      modifies this
      ensures Valid()
      ensures walletId !in old(db.wallets) ==> r == Err(WalletNotFound)
      ensures walletId in old(db.wallets) && commitFails ==> r == Err(CreditFailed)
      ensures r.Ok? <==> walletId in old(db.wallets) && !commitFails
      ensures r.Err? ==> db == old(db)
      ensures r.Ok? ==> r.value == old(db.wallets[walletId].balance) + amount
                        && db == old(db).(wallets := old(db.wallets)[walletId := old(db.wallets[walletId]).(balance := r.value)])
                        && GetBalance(db, walletId) == Ok(r.value)
      ensures nextUserId == old(nextUserId) && nextWalletId == old(nextWalletId)
    {
      if walletId !in db.wallets {
        return Err(WalletNotFound);
      }
      if commitFails {
        return Err(CreditFailed);
      }
      var wallet := db.wallets[walletId];
      var balance := wallet.balance + amount;
      db := db.(wallets := db.wallets[walletId := wallet.(balance := balance)]);
      r := Ok(balance);
    }

    /** `debit_money`: refuses when the balance after the debit would be below
        `minimumBalance`; otherwise subtracts `amount`. */
    method Debit(walletId: int, amount: int, minimumBalance: int, commitFails: bool) returns (r: Result<int>)
      requires Valid()
      modifies this
      ensures Valid()
      ensures walletId !in old(db.wallets) ==> r == Err(WalletNotFound)
      ensures walletId in old(db.wallets) && old(db.wallets[walletId].balance) - amount < minimumBalance ==>
                r == Err(BelowMinimumBalance(minimumBalance))
      ensures walletId in old(db.wallets) && old(db.wallets[walletId].balance) - amount >= minimumBalance && commitFails ==>
                r == Err(DebitFailed)
      ensures r.Ok? <==> walletId in old(db.wallets) && old(db.wallets[walletId].balance) - amount >= minimumBalance
                         && !commitFails
      ensures r.Err? ==> db == old(db)
      ensures r.Ok? ==> r.value >= minimumBalance
      ensures r.Ok? ==> r.value == old(db.wallets[walletId].balance) - amount
                        && db == old(db).(wallets := old(db.wallets)[walletId := old(db.wallets[walletId]).(balance := r.value)])
                        && GetBalance(db, walletId) == Ok(r.value)
      ensures nextUserId == old(nextUserId) && nextWalletId == old(nextWalletId)
    {
      if walletId !in db.wallets {
        return Err(WalletNotFound);
      }
      var wallet := db.wallets[walletId];
      if wallet.balance - amount < minimumBalance {
        return Err(BelowMinimumBalance(minimumBalance));
      }
      if commitFails {
        return Err(DebitFailed);
      }
      var balance := wallet.balance - amount;
      db := db.(wallets := db.wallets[walletId := wallet.(balance := balance)]);
      r := Ok(balance);
    }
  }
}
