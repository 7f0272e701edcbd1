/** The errors the wallet services raise (each a `ValueError` in app/services.py) and the
    exact message text each one carries, including Python's `str` of an integer. */
module Errors {

  /** One constructor per `raise ValueError(...)` in the services. */
  datatype Error =
    | UserDoesNotExist
    | UserAlreadyHasWallet(walletId: int)
    | CreateWalletFailed
    | WalletNotFound
    | CreditFailed
    | BelowMinimumBalance(minimum: int)
    | DebitFailed
    | UserAlreadyExists
    | CreateUserFailed

  datatype Result<T> = Ok(value: T) | Err(error: Error)

  predicate IsDigit(c: char)
  {
    '0' <= c <= '9'
  }

  function DigitChar(d: nat): (c: char)
    requires d < 10
    ensures IsDigit(c) && (c as int) - ('0' as int) == d
  {
    (('0' as int) + d) as char
  }

  /** The decimal digits of `n`, most significant first, without leading zeros. */
  function NatToString(n: nat): (s: string)
    ensures |s| >= 1
    ensures forall i :: 0 <= i < |s| ==> IsDigit(s[i])
    ensures |s| > 1 ==> s[0] != '0'
    decreases n
  {
    if n < 10 then [DigitChar(n)] else NatToString(n / 10) + [DigitChar(n % 10)]
  }

  /** The value of a string of decimal digits. */
  function DigitsValue(s: string): nat
    requires forall i :: 0 <= i < |s| ==> IsDigit(s[i])
  {
    if s == [] then 0
    else
      assert IsDigit(s[|s| - 1]);
      10 * DigitsValue(s[..|s| - 1]) + ((s[|s| - 1] as int) - ('0' as int))
  }

  /** Reading back the digits of `n` gives `n`. */
  lemma {:induction false} NatToStringRoundTrip(n: nat)
    ensures DigitsValue(NatToString(n)) == n
    decreases n
  {
    if n >= 10 {
      NatToStringRoundTrip(n / 10);
      var s := NatToString(n);
      assert s[..|s| - 1] == NatToString(n / 10);
    }
  }

  /** Python's `str` of an integer. */
  function IntToString(i: int): (s: string)
    ensures |s| >= 1
    ensures (s[0] == '-') <==> i < 0
  {
    if i < 0 then "-" + NatToString(-i) else NatToString(i)
  }

  /** Distinct integers print differently. */
  lemma IntToStringInjective(i: int, j: int)
    requires IntToString(i) == IntToString(j)
    ensures i == j
  {
    if i < 0 {
      assert IntToString(i)[1..] == NatToString(-i);
      assert IntToString(j)[1..] == NatToString(-j);
      NatToStringRoundTrip(-i);
      NatToStringRoundTrip(-j);
    } else {
      NatToStringRoundTrip(i);
      NatToStringRoundTrip(j);
    }
  }

  /** The store faults: the errors raised after a rollback. */
  predicate IsDatabaseError(e: Error)
  {
    e.CreateWalletFailed? || e.CreditFailed? || e.DebitFailed?
  }

  const DATABASE_ERROR_PREFIX := "Database error: "

  /** The text before the minimum in the below-minimum message (written in two pieces, which
      keeps the literal's first character visible to the verifier). */
  const BELOW_MINIMUM_TEXT := "Balance cannot drop below " + "minimum required balance of "

  /** The text of the `ValueError` the services raise for `e`. The three store faults of
      `create_wallet`, `credit_money` and `debit_money`, and no other error, start with
      "Database error: ". */
  function Message(e: Error): (s: string)
    ensures |s| > 0
    ensures IsDatabaseError(e) <==>
            |s| >= |DATABASE_ERROR_PREFIX| && s[..|DATABASE_ERROR_PREFIX|] == DATABASE_ERROR_PREFIX
  {
    match e
    case UserDoesNotExist =>
      var t := "User does not exist";
      assert t[0] != DATABASE_ERROR_PREFIX[0];
      t
    case UserAlreadyHasWallet(w) =>
      var t := "User already has a wallet with id:";
      assert (t + IntToString(w))[0] == t[0] != DATABASE_ERROR_PREFIX[0];
      t + IntToString(w)
    case CreateWalletFailed => "Database error: Unable to create wallet"
    case WalletNotFound =>
      var t := "Wallet not found";
      assert t[0] != DATABASE_ERROR_PREFIX[0];
      t
    case CreditFailed => "Database error: Unable to credit money"
    case BelowMinimumBalance(m) =>
      assert BELOW_MINIMUM_TEXT[0] != DATABASE_ERROR_PREFIX[0];
      assert (BELOW_MINIMUM_TEXT + IntToString(m))[0] == BELOW_MINIMUM_TEXT[0];
      BELOW_MINIMUM_TEXT + IntToString(m)
    case DebitFailed => "Database error: Unable to debit money"
    case UserAlreadyExists =>
      var t := "User already exists";
      assert t[0] != DATABASE_ERROR_PREFIX[0];
      t
    case CreateUserFailed =>
      var t := "Failed to create user";
      assert t[0] != DATABASE_ERROR_PREFIX[0];
      t
  }

  /** The message carries the number it mentions: two messages of the same kind are equal
      only when their wallet ids, or their minimums, are equal. */
  lemma MessageDeterminesNumber(e1: Error, e2: Error)
    requires e1.UserAlreadyHasWallet? == e2.UserAlreadyHasWallet?
    requires e1.BelowMinimumBalance? == e2.BelowMinimumBalance?
    requires e1.UserAlreadyHasWallet? || e1.BelowMinimumBalance?
    requires Message(e1) == Message(e2)
    ensures e1 == e2
  {
    var p := if e1.UserAlreadyHasWallet? then |"User already has a wallet with id:"|
             else |BELOW_MINIMUM_TEXT|;
    var n1 := if e1.UserAlreadyHasWallet? then e1.walletId else e1.minimum;
    var n2 := if e2.UserAlreadyHasWallet? then e2.walletId else e2.minimum;
    assert Message(e1)[p..] == IntToString(n1);
    assert Message(e2)[p..] == IntToString(n2);
    IntToStringInjective(n1, n2);
  }
}
