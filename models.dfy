/** The record shapes of the wallet database and the constraints their columns declare
    (app/models.py). Primary keys are the keys of the table maps; the transaction table is
    kept as a sequence in primary-key order. Money is the source's own unit restricted to
    whole numbers, and timestamps are an ordered clock value, so no floating-point rounding
    is modelled. */
module Models {

  /** Column `String(20)` width of `User.phone_number` and `WalletTransaction.type`. */
  const MAX_STRING_COLUMN := 20

  /** The two values the `type` column holds by convention (a comment on the column; the
      schema itself declares no check). */
  const CREDIT := "credit"
  const DEBIT := "debit"

  datatype User = User(phoneNumber: string)

  datatype Wallet = Wallet(userId: int, balance: int)

  datatype WalletTransaction = WalletTransaction(walletId: int, amount: int, kind: string, timestamp: int)

  /** The three tables: `user`, `wallet` (both keyed by id) and `wallet_transaction`. */
  datatype Db = Db(users: map<int, User>, wallets: map<int, Wallet>, transactions: seq<WalletTransaction>)

  /** `unique=True` on `User.phone_number`: no two users share a phone number. */
  ghost predicate PhoneNumbersUnique(users: map<int, User>)
  {
    forall u, v :: u in users && v in users && users[u].phoneNumber == users[v].phoneNumber ==> u == v
  }

  /** `ForeignKey('user.id')` on `Wallet.user_id`: every wallet belongs to an existing user. */
  ghost predicate WalletOwnersExist(users: map<int, User>, wallets: map<int, Wallet>)
  {
    forall w :: w in wallets ==> wallets[w].userId in users
  }

  ghost predicate IsTransactionType(kind: string)
  {
    kind == CREDIT || kind == DEBIT
  }

  /** `ForeignKey('wallet.id')` on `WalletTransaction.wallet_id`, and the documented convention,
      assumed here, that `type` is "credit" or "debit". */
  ghost predicate TransactionsWellFormed(wallets: map<int, Wallet>, transactions: seq<WalletTransaction>)
  {
    forall i :: 0 <= i < |transactions| ==>
      transactions[i].walletId in wallets && IsTransactionType(transactions[i].kind)
  }

  /** The constraints that hold of every stored database. Non-null columns hold by typing.
      Following the two foreign keys, every transaction leads to an existing user. */
  ghost predicate SchemaValid(db: Db)
    ensures SchemaValid(db) ==>
      forall i :: 0 <= i < |db.transactions| ==>
        db.transactions[i].walletId in db.wallets && db.wallets[db.transactions[i].walletId].userId in db.users
  {
    && PhoneNumbersUnique(db.users)
    && WalletOwnersExist(db.users, db.wallets)
    && TransactionsWellFormed(db.wallets, db.transactions)
  }

  /** The declared `String(20)` widths. SQLite, the engine the application is configured
      with, does not enforce them, so this is tracked apart from `SchemaValid`. */
  ghost predicate FitsDeclaredWidths(db: Db)
  {
    && (forall u :: u in db.users ==> |db.users[u].phoneNumber| <= MAX_STRING_COLUMN)
    && (forall i :: 0 <= i < |db.transactions| ==> |db.transactions[i].kind| <= MAX_STRING_COLUMN)
  }
}
