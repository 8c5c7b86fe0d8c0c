/**
 * The banking example of the exception-handling demonstration: an account
 * whose balance and active flag change in place, operations that validate
 * their inputs in a fixed order and fail with typed exceptions, and a
 * transfer that rolls the sender back if the deposit fails.
 *
 * Amounts are whole cents (`int`); the checks for NaN and infinite
 * `double` amounts have no counterpart.
 */
module Banking {
  import opened Results
  import Text

  /** The exceptions the account operations throw. */
  datatype BankError =
    | IllegalArgument(message: string)                   // IllegalArgumentException
    | InvalidAccount(accountId: string, reason: string)  // InvalidAccountException
    | InsufficientFunds(requested: int, available: int)  // InsufficientFundsException
    | TransferFailed(causeMessage: string)               // BankingException "TRANSFER_FAILED"
  {
    /** `getErrorCode()` of the BankingException subtypes; IllegalArgumentException has none. */
    function ErrorCode(): Option<string>
    {
      match this
      case IllegalArgument(_) => None
      case InvalidAccount(_, _) => Some("INVALID_ACCT")
      case InsufficientFunds(_, _) => Some("INSUF_FUNDS")
      case TransferFailed(_) => Some("TRANSFER_FAILED")
    }

    /** `getShortfall()`: how much the request exceeds the balance. */
    function Shortfall(): int
      requires InsufficientFunds?
    {
      requested - available
    }
  }

  const INACTIVE := "Account is inactive"

  class BankAccount {
    const accountId: string
    var balance: int
    var active: bool

    /** What every constructed account satisfies. */
    ghost predicate Valid()
      reads this
    {
      balance >= 0 && Text.Trim(accountId) != []
    }

    /** The constructor's body once its argument checks have passed. */
    constructor (accountId: string, initialBalance: int)
      requires Text.Trim(accountId) != [] && initialBalance >= 0
      ensures Valid()
      ensures this.accountId == accountId && balance == initialBalance && active
    {
      this.accountId := accountId;
      balance := initialBalance;
      active := true;
    }

    /** `new BankAccount(accountId, initialBalance)`: rejects a null or blank id,
        then a negative balance, with an IllegalArgumentException. */
    static method Open(accountId: Option<string>, initialBalance: int) returns (r: Result<BankAccount, BankError>)
      ensures r.Ok? <==> accountId.Some? && Text.Trim(accountId.value) != [] && initialBalance >= 0
      ensures r.Ok? ==> fresh(r.value) && r.value.Valid() && r.value.accountId == accountId.value &&
                        r.value.balance == initialBalance && r.value.active
      ensures r.Err? && (accountId.None? || Text.Trim(accountId.value) == []) ==>
                r.error == IllegalArgument("Account ID cannot be null or empty")
      ensures r.Err? && accountId.Some? && Text.Trim(accountId.value) != [] ==>
                r.error == IllegalArgument("Initial balance cannot be negative")
    {
      if accountId.None? || Text.Trim(accountId.value) == [] {
        return Err(IllegalArgument("Account ID cannot be null or empty"));
      }
      if initialBalance < 0 {
        return Err(IllegalArgument("Initial balance cannot be negative"));
      }
      var account := new BankAccount(accountId.value, initialBalance);
      return Ok(account);
    }

    /** `withdraw`: inactive account, then non-positive amount, then insufficient
        funds; only success moves the balance, by exactly `amount`. */
    method Withdraw(amount: int) returns (e: Option<BankError>)
      requires Valid()
      modifies this`balance
      ensures Valid()
      ensures !active ==> e == Some(InvalidAccount(accountId, INACTIVE))
      ensures active && amount <= 0 ==> e == Some(IllegalArgument("Amount must be positive"))
      ensures active && 0 < amount && amount > old(balance) ==> e == Some(InsufficientFunds(amount, old(balance)))
      ensures e.None? <==> active && 0 < amount <= old(balance)
      ensures balance == if e.None? then old(balance) - amount else old(balance)
      ensures e.Some? && e.value.InsufficientFunds? ==> e.value.Shortfall() > 0
    {
      if !active {
        return Some(InvalidAccount(accountId, INACTIVE));
      }
      if amount <= 0 {
        return Some(IllegalArgument("Amount must be positive"));
      }
      if amount > balance {
        return Some(InsufficientFunds(amount, balance));
      }
      balance := balance - amount;
      return None;
    }

    /** `deposit`: inactive account, then non-positive amount. */
    method Deposit(amount: int) returns (e: Option<BankError>)
      requires Valid()
      modifies this`balance
      ensures Valid()
      ensures !active ==> e == Some(InvalidAccount(accountId, INACTIVE))
      ensures active && amount <= 0 ==> e == Some(IllegalArgument("Deposit amount must be positive"))
      ensures e.None? <==> active && amount > 0
      ensures balance == if e.None? then old(balance) + amount else old(balance)
    {
      if !active {
        return Some(InvalidAccount(accountId, INACTIVE));
      }
      if amount <= 0 {
        return Some(IllegalArgument("Deposit amount must be positive"));
      }
      balance := balance + amount;
      return None;
    }

    /** `transferTo`: a null recipient first, then both accounts' status, the
        amount and the funds, all before any balance changes; a failed deposit
        restores the sender and is reported as TRANSFER_FAILED. */
    method TransferTo(recipient: BankAccount?, amount: int) returns (e: Option<BankError>)
      requires Valid() && (recipient != null ==> recipient.Valid())
      modifies this`balance, recipient
      ensures Valid() && (recipient != null ==> recipient.Valid())
      ensures recipient == null ==> e == Some(IllegalArgument("Recipient account cannot be null"))
      ensures recipient != null && !active ==> e == Some(InvalidAccount(accountId, INACTIVE))
      ensures recipient != null && active && !recipient.active ==>
                e == Some(InvalidAccount(recipient.accountId, INACTIVE))
      ensures recipient != null && active && recipient.active && amount <= 0 ==>
                e == Some(IllegalArgument("Amount must be positive"))
      ensures recipient != null && active && recipient.active && 0 < amount && amount > old(balance) ==>
                e == Some(InsufficientFunds(amount, old(balance)))
      ensures e.None? <==> recipient != null && active && recipient.active && 0 < amount <= old(balance)
      ensures recipient != null ==> recipient.active == old(recipient.active)
      ensures e.Some? ==> balance == old(balance) && (recipient != null ==> recipient.balance == old(recipient.balance))
      ensures e.None? && recipient != this ==>
                balance == old(balance) - amount && recipient.balance == old(recipient.balance) + amount
      ensures e.None? && recipient == this ==> balance == old(balance)
      ensures recipient != null ==> balance + recipient.balance == old(balance) + old(recipient.balance)
    {
      if recipient == null {
        return Some(IllegalArgument("Recipient account cannot be null"));
      }
      if !active {
        return Some(InvalidAccount(accountId, INACTIVE));
      }
      if !recipient.active {
        return Some(InvalidAccount(recipient.accountId, INACTIVE));
      }
      if amount <= 0 {
        return Some(IllegalArgument("Amount must be positive"));
      }
      if amount > balance {
        return Some(InsufficientFunds(amount, balance));
      }
      balance := balance - amount;
      var failure := recipient.Deposit(amount);
      // the rollback of the catch block; the checks above leave the deposit no way to fail
      var outcome := match failure {
        case None => (balance, None)
        case Some(cause) => (balance + amount, Some(TransferFailed("Transfer failed: " + Message(cause))))
      };
      balance := outcome.0;
      return outcome.1;
    }

    /** `deactivate`. */
    method Deactivate()
      modifies this`active
      ensures !active
    {
      active := false;
    }
  }

  /** `getMessage()` of the exceptions a deposit throws. */
  function Message(e: BankError): string
  {
    match e
    case IllegalArgument(message) => message
    case InvalidAccount(id, reason) => "Invalid account " + id + ": " + reason
    case InsufficientFunds(_, _) => "Insufficient funds"
    case TransferFailed(cause) => "Transfer failed: " + cause
  }

  /** Once an account is deactivated, every operation involving it fails
      with InvalidAccountException and no balance changes. */
  method DeactivatedAccountRefusesAll(a: BankAccount, b: BankAccount, amount: int)
      returns (withdrawn: Option<BankError>, deposited: Option<BankError>,
               sent: Option<BankError>, received: Option<BankError>)
    requires a.Valid() && b.Valid() && a != b
    modifies a, b
    ensures !a.active && a.balance == old(a.balance) && b.balance == old(b.balance)
    ensures withdrawn == deposited == sent == Some(InvalidAccount(a.accountId, INACTIVE))
    ensures received.Some? && received.value.InvalidAccount?
  {
    a.Deactivate();
    withdrawn := a.Withdraw(amount);
    deposited := a.Deposit(amount);
    sent := a.TransferTo(b, amount);
    received := b.TransferTo(a, amount);
  }

  /** `demonstrateBankingExceptions`, amounts in cents: the two accounts are
      opened, then the withdrawal and the transfer succeed, and the oversized
      withdrawal, the withdrawal from the deactivated account and the negative
      deposit fail with the exceptions the demonstration catches. */
  method BankingDemonstration() returns (outcomes: seq<Option<BankError>>, checking: int, savings: int)
    ensures outcomes == [None, None, Some(InsufficientFunds(100000, 50000)),
                         Some(InvalidAccount("SAV-001", INACTIVE)),
                         Some(IllegalArgument("Deposit amount must be positive"))]
    ensures outcomes[2].value.Shortfall() == 50000
    ensures checking == 50000 && savings == 80000
  {
    var c := BankAccount.Open(Some("CHK-001"), 100000);
    var s := BankAccount.Open(Some("SAV-001"), 50000);
    if c.Err? || s.Err? {
      assert false;
      return [], 0, 0;
    }
    var checkingAccount, savingsAccount := c.value, s.value;
    var e1 := checkingAccount.Withdraw(20000);
    var e2 := checkingAccount.TransferTo(savingsAccount, 30000);
    var e3 := checkingAccount.Withdraw(100000);
    savingsAccount.Deactivate();
    var e4 := savingsAccount.Withdraw(5000);
    var e5 := checkingAccount.Deposit(-5000);
    outcomes := [e1, e2, e3, e4, e5];
    checking, savings := checkingAccount.balance, savingsAccount.balance;
  }
}
