/** The scenarios of tests/test_services.py, stated as verified methods over the model of
    the services. Both debit tests call `debit_money` without a minimum; the message the
    second one expects shows the minimum they take for granted, 100, and both scenarios
    pass that minimum explicitly. */
module Scenarios {
  import opened Models
  import opened Errors
  import opened Services

  /** test_debit_money: a new wallet credited with 200 and debited 50 against the minimum
      of 100 holds 150. */
  method DebitAfterCredit() returns (debited: Result<int>, balance: Result<int>)
    ensures debited == Ok(150)
    ensures balance == Ok(150)
  {
    var service := new WalletService();
    var user := service.CreateUser("1234567890", false);
    var wallet := service.CreateWallet(user.value, false);
    var credited := service.Credit(wallet.value, 200, false);
    debited := service.Debit(wallet.value, 50, 100, false);
    balance := GetBalance(service.db, wallet.value);
  }

  /** test_debit_below_minimum_balance: with 150 in the wallet, debiting 100 against the
      minimum of 100 is refused with the message the test expects, and the balance stays 150. */
  method DebitBelowMinimum() returns (debited: Result<int>, message: string, balance: Result<int>)
    ensures debited == Err(BelowMinimumBalance(100))
    ensures message == "Balance cannot drop below minimum required balance of 100"
    ensures balance == Ok(150)
  {
    var service := new WalletService();
    var user := service.CreateUser("1234567890", false);
    var wallet := service.CreateWallet(user.value, false);
    var credited := service.Credit(wallet.value, 150, false);
    debited := service.Debit(wallet.value, 100, 100, false);
    message := Message(debited.error);
    BelowMinimumMessageText();
    balance := GetBalance(service.db, wallet.value);
  }

  /** The text test_debit_below_minimum_balance expects for the minimum 100. */
  lemma BelowMinimumMessageText()
    ensures Message(BelowMinimumBalance(100)) == "Balance cannot drop below minimum required balance of 100"
  {
  }

  /** A second `create_wallet` for the same user is refused and names the first wallet. */
  method SecondWalletRefused() returns (first: Result<int>, second: Result<int>, message: string)
    ensures first == Ok(1)
    ensures second == Err(UserAlreadyHasWallet(1))
    ensures message == "User already has a wallet with id:1"
  {
    var service := new WalletService();
    var user := service.CreateUser("1234567890", false);
    first := service.CreateWallet(user.value, false);
    second := service.CreateWallet(user.value, false);
    assert NatToString(1) == "1";
    message := Message(second.error);
  }

  /** The balance after `rounds` successive debits of `amount` against `minimum`: each debit
      either goes through or, refused, leaves the balance, and so every later check, as it was.
      So either no debit is applied or the balance ends at or above the minimum, and debits
      of a non-negative amount never raise it. */
  function BalanceAfterDebits(balance: int, amount: int, minimum: int, rounds: nat): (r: int)
    ensures r == balance || r >= minimum
    ensures amount >= 0 ==> r <= balance
    decreases rounds
  {
    if rounds == 0 || balance - amount < minimum then balance
    else BalanceAfterDebits(balance - amount, amount, minimum, rounds - 1)
  }

  /** Debits of a non-negative amount take off at most `rounds` times the amount
      (the assertion of test_race_condition_debit_money, read sequentially). */
  lemma {:induction false} DebitsTakeAtMost(balance: int, amount: int, minimum: int, rounds: nat)
    requires amount >= 0
    ensures BalanceAfterDebits(balance, amount, minimum, rounds) >= balance - rounds * amount
    decreases rounds
  {
    if rounds > 0 && balance - amount >= minimum {
      DebitsTakeAtMost(balance - amount, amount, minimum, rounds - 1);
      assert (rounds - 1) * amount + amount == rounds * amount;
    }
  }

  /** When the floor allows all of them, every debit is applied and none is lost:
      the balance ends exactly `rounds` times the amount lower. */
  lemma {:induction false} DebitsAllApplied(balance: int, amount: int, minimum: int, rounds: nat)
    requires amount >= 0
    requires balance - rounds * amount >= minimum
    ensures BalanceAfterDebits(balance, amount, minimum, rounds) == balance - rounds * amount
    decreases rounds
  {
    if rounds > 0 {
      assert (rounds - 1) * amount + amount == rounds * amount;
      assert (rounds - 1) * amount >= 0;
      DebitsAllApplied(balance - amount, amount, minimum, rounds - 1);
    }
  }

  /** One thread's loop of test_race_condition_debit_money, run alone: `rounds` calls of
      `debit_money` on one wallet. Only that wallet's balance changes. */
  method DebitRepeatedly(service: WalletService, walletId: int, amount: int, minimum: int, rounds: nat)
    requires service.Valid()
    requires walletId in service.db.wallets
    modifies service
    ensures service.Valid()
    ensures walletId in service.db.wallets
    ensures service.db == old(service.db).(wallets := old(service.db.wallets)[walletId :=
              old(service.db.wallets[walletId]).(balance := BalanceAfterDebits(old(service.db.wallets[walletId].balance), amount, minimum, rounds))])
    ensures service.nextUserId == old(service.nextUserId) && service.nextWalletId == old(service.nextWalletId)
  {
    ghost var start := service.db;
    ghost var initial := service.db.wallets[walletId].balance;
    var i := 0;
    while i < rounds
      invariant 0 <= i <= rounds
      invariant service.Valid()
      invariant walletId in service.db.wallets
      invariant service.db == start.(wallets := start.wallets[walletId :=
                  start.wallets[walletId].(balance := service.db.wallets[walletId].balance)])
      invariant service.nextUserId == old(service.nextUserId) && service.nextWalletId == old(service.nextWalletId)
      invariant BalanceAfterDebits(service.db.wallets[walletId].balance, amount, minimum, rounds - i)
                == BalanceAfterDebits(initial, amount, minimum, rounds)
    {
      var r := service.Debit(walletId, amount, minimum, false);
      i := i + 1;
    }
  }
}
