/** The banking ledger of `examples/banking_smr`. Balances are 64-bit integers; clock
    readings and transaction ids are inputs of each command. */
module Banking {
  import opened Types
  import opened NewestFirst

  const MAX_I64: int := 0x7FFF_FFFF_FFFF_FFFF
  const MIN_I64: int := -0x8000_0000_0000_0000

  type I64 = x: int | MIN_I64 <= x <= MAX_I64

  /** An addition that is not checked wraps around. */
  function WrapI64(x: int): (r: I64)
    ensures MIN_I64 <= x <= MAX_I64 <==> r == x
  {
    (x - MIN_I64) % 0x1_0000_0000_0000_0000 + MIN_I64
  }

  type AccountId = string

  datatype Account = Account(
    accountId: AccountId,
    balance: I64,
    createdAt: nat,
    lastTransactionAt: nat,
    transactionCount: nat)

  datatype TransactionType = DepositType | WithdrawalType | TransferType

  datatype Transaction = Transaction(
    transactionId: string,
    from: Option<AccountId>,
    to: Option<AccountId>,
    amount: I64,
    timestamp: nat,
    kind: TransactionType)

  datatype Command =
    | CreateAccount(id: AccountId, initialBalance: I64)
    | Deposit(id: AccountId, amount: I64)
    | Withdraw(id: AccountId, amount: I64)
    | Transfer(from: AccountId, to: AccountId, amount: I64)
    | GetBalance(id: AccountId)
    | GetAccount(id: AccountId)
    | ListAccounts
    | GetTransactionHistory(account: Option<AccountId>, limit: Option<nat>)

  /** What a command reads from outside: up to three clock readings and a fresh id. */
  datatype Env = Env(first: nat, second: nat, third: nat, transactionId: string)

  /** Accounts are listed in the order of a hash map, so the listing is taken as a set. */
  datatype Data =
    | NoData
    | AccountData(account: Account)
    | BalanceData(balance: I64)
    | AccountsData(accounts: set<Account>)
    | TransactionsData(transactions: seq<Transaction>)

  datatype Response = Success(data: Data, transactionId: Option<string>) | Error(message: string)

  datatype State = State(accounts: map<AccountId, Account>, transactions: seq<Transaction>, operationCount: nat)

  const EMPTY := State(map[], [], 0)

  predicate AmountValid(amount: I64) {
    0 < amount <= 1_000_000_000
  }

  function AmountError(amount: I64): string
    requires !AmountValid(amount)
  {
    if amount <= 0 then "Amount must be positive" else "Amount exceeds maximum limit"
  }

  predicate AccountIdValid(id: AccountId) {
    0 < |id| <= 50
  }

  function AccountIdError(id: AccountId): string
    requires !AccountIdValid(id)
  {
    if |id| == 0 then "Account ID cannot be empty" else "Account ID too long"
  }

  function UpdateBalance(a: Account, balance: I64, now: nat): Account {
    a.(balance := balance, lastTransactionAt := now, transactionCount := a.transactionCount + 1)
  }

  function Create(s: State, id: AccountId, initial: I64, e: Env): (State, Response) {
    if !AccountIdValid(id) then (s, Error(AccountIdError(id)))
    else if initial < 0 then (s, Error("Initial balance cannot be negative"))
    else if id in s.accounts then (s, Error("Account already exists"))
    else
      var a := Account(id, initial, e.first, e.first, 0);
      (s.(accounts := s.accounts[id := a]), Success(AccountData(a), None))
  }

  function MakeDeposit(s: State, id: AccountId, amount: I64, e: Env): (State, Response) {
    if !AmountValid(amount) then (s, Error(AmountError(amount)))
    else if id !in s.accounts then (s, Error("Account not found"))
    else
      var a := s.accounts[id];
      if a.balance + amount > MAX_I64 then (s, Error("Deposit would cause overflow"))
      else
        var balance := a.balance + amount;
        var t := Transaction(e.transactionId, None, Some(id), amount, e.second, DepositType);
        (s.(accounts := s.accounts[id := UpdateBalance(a, balance, e.first)], transactions := s.transactions + [t]),
        Success(BalanceData(balance), Some(e.transactionId)))
  }

  function MakeWithdrawal(s: State, id: AccountId, amount: I64, e: Env): (State, Response) {
    if !AmountValid(amount) then (s, Error(AmountError(amount)))
    else if id !in s.accounts then (s, Error("Account not found"))
    else
      var a := s.accounts[id];
      if a.balance < amount then (s, Error("Insufficient funds"))
      else
        var balance := a.balance - amount;
        var t := Transaction(e.transactionId, Some(id), None, amount, e.second, WithdrawalType);
        (s.(accounts := s.accounts[id := UpdateBalance(a, balance, e.first)], transactions := s.transactions + [t]),
        Success(BalanceData(balance), Some(e.transactionId)))
  }

  /** The addition to the receiving account is the one that is not checked. */
  function MakeTransfer(s: State, from: AccountId, to: AccountId, amount: I64, e: Env): (State, Response) {
    if !AmountValid(amount) then (s, Error(AmountError(amount)))
    else if from == to then (s, Error("Cannot transfer to same account"))
    else if from !in s.accounts then (s, Error("Source account not found"))
    else if to !in s.accounts then (s, Error("Destination account not found"))
    else if s.accounts[from].balance < amount then (s, Error("Insufficient funds"))
    else
      var a, b := s.accounts[from], s.accounts[to];
      var t := Transaction(e.transactionId, Some(from), Some(to), amount, e.third, TransferType);
      (s.(accounts := s.accounts[from := UpdateBalance(a, a.balance - amount, e.first)]
                                [to := UpdateBalance(b, WrapI64(b.balance + amount), e.second)],
      transactions := s.transactions + [t]),
      Success(NoData, Some(e.transactionId)))
  }

  function Listed(accounts: map<AccountId, Account>): set<Account> {
    set id | id in accounts :: accounts[id]
  }

  predicate Names(t: Transaction, id: AccountId) {
    t.from == Some(id) || t.to == Some(id)
  }

  /** The log entries that name the account, or all of them. */
  function Matching(log: seq<Transaction>, account: Option<AccountId>): seq<Transaction> {
    if log == [] then []
    else
      var last := log[|log| - 1];
      Matching(log[..|log| - 1], account) + if account.None? || Names(last, account.value) then [last] else []
  }

  function Times(log: seq<Transaction>): seq<nat> {
    seq(|log|, i requires 0 <= i < |log| => log[i].timestamp)
  }

  /** The positions of the entries shown: newest first, as many as asked for. */
  function Shown(log: seq<Transaction>, limit: Option<nat>): (r: seq<nat>)
    ensures forall a | 0 <= a < |r| :: r[a] < |log|
  {
    Take(Order(Times(log), |log|), if limit.Some? then limit.value else |log|)
  }

  function PickAt(log: seq<Transaction>, positions: seq<nat>): seq<Transaction>
    requires forall a | 0 <= a < |positions| :: positions[a] < |log|
  {
    seq(|positions|, a requires 0 <= a < |positions| => log[positions[a]])
  }

  function History(log: seq<Transaction>, account: Option<AccountId>, limit: Option<nat>): seq<Transaction> {
    var matching := Matching(log, account);
    PickAt(matching, Shown(matching, limit))
  }

  function Apply(s: State, c: Command, e: Env): (State, Response) {
    var s1 := s.(operationCount := s.operationCount + 1);
    match c
    case CreateAccount(id, initial) => Create(s1, id, initial, e)
    case Deposit(id, amount) => MakeDeposit(s1, id, amount, e)
    case Withdraw(id, amount) => MakeWithdrawal(s1, id, amount, e)
    case Transfer(from, to, amount) => MakeTransfer(s1, from, to, amount, e)
    case GetBalance(id) =>
      (s1, if id in s.accounts then Success(BalanceData(s.accounts[id].balance), None) else Error("Account not found"))
    case GetAccount(id) =>
      (s1, if id in s.accounts then Success(AccountData(s.accounts[id]), None) else Error("Account not found"))
    case ListAccounts => (s1, Success(AccountsData(Listed(s.accounts)), None))
    case GetTransactionHistory(account, limit) =>
      (s1, Success(TransactionsData(History(s.transactions, account, limit)), None))
  }

  // ---- Sums of balances ----

  ghost function Total(accounts: map<AccountId, Account>): int {
    if accounts == map[] then 0
    else
      var id :| id in accounts;
      accounts[id].balance + Total(accounts - {id})
  }

  lemma {:induction false} TotalRemove(accounts: map<AccountId, Account>, id: AccountId)
    requires id in accounts
    ensures Total(accounts) == accounts[id].balance + Total(accounts - {id})
    decreases |accounts|
  {
    var k :| k in accounts && Total(accounts) == accounts[k].balance + Total(accounts - {k});
    if k != id {
      TotalRemove(accounts - {k}, id);
      TotalRemove(accounts - {id}, k);
      assert accounts - {k} - {id} == accounts - {id} - {k};
    }
  }

  lemma TotalUpdate(accounts: map<AccountId, Account>, id: AccountId, a: Account)
    ensures Total(accounts[id := a]) ==
            Total(accounts) + a.balance - if id in accounts then accounts[id].balance else 0
  {
    var updated := accounts[id := a];
    TotalRemove(updated, id);
    assert updated - {id} == accounts - {id};
    if id in accounts {
      TotalRemove(accounts, id);
    } else {
      assert accounts - {id} == accounts;
    }
  }

  class BankingSMR {
    var accounts: map<AccountId, Account>
    var transactions: seq<Transaction>
    var operationCount: nat

    function View(): State
      reads this
    {
      State(accounts, transactions, operationCount)
    }

    constructor ()
      ensures View() == EMPTY
    {
      accounts, transactions, operationCount := map[], [], 0;
    }

    method ApplyCommand(c: Command, e: Env) returns (r: Response)
      modifies this
      ensures (View(), r) == Apply(old(View()), c, e)
    {
      operationCount := operationCount + 1;
      match c {
        case CreateAccount(id, initial) =>
          if !AccountIdValid(id) { return Error(AccountIdError(id)); }
          if initial < 0 { return Error("Initial balance cannot be negative"); }
          if id in accounts { return Error("Account already exists"); }
          var account := Account(id, initial, e.first, e.first, 0);
          accounts := accounts[id := account];
          return Success(AccountData(account), None);
        case Deposit(id, amount) =>
          if !AmountValid(amount) { return Error(AmountError(amount)); }
          if id !in accounts { return Error("Account not found"); }
          if accounts[id].balance + amount > MAX_I64 { return Error("Deposit would cause overflow"); }
          var balance := accounts[id].balance + amount;
          accounts := accounts[id := UpdateBalance(accounts[id], balance, e.first)];
          transactions := transactions + [Transaction(e.transactionId, None, Some(id), amount, e.second, DepositType)];
          return Success(BalanceData(balance), Some(e.transactionId));
        case Withdraw(id, amount) =>
          if !AmountValid(amount) { return Error(AmountError(amount)); }
          if id !in accounts { return Error("Account not found"); }
          if accounts[id].balance < amount { return Error("Insufficient funds"); }
          var balance := accounts[id].balance - amount;
          accounts := accounts[id := UpdateBalance(accounts[id], balance, e.first)];
          transactions := transactions + [Transaction(e.transactionId, Some(id), None, amount, e.second, WithdrawalType)];
          return Success(BalanceData(balance), Some(e.transactionId));
        case Transfer(from, to, amount) =>
          if !AmountValid(amount) { return Error(AmountError(amount)); }
          if from == to { return Error("Cannot transfer to same account"); }
          if from !in accounts { return Error("Source account not found"); }
          if to !in accounts { return Error("Destination account not found"); }
          if accounts[from].balance < amount { return Error("Insufficient funds"); }
          accounts := accounts[from := UpdateBalance(accounts[from], accounts[from].balance - amount, e.first)];
          var toBalance := WrapI64(accounts[to].balance + amount);
          accounts := accounts[to := UpdateBalance(accounts[to], toBalance, e.second)];
          transactions := transactions + [Transaction(e.transactionId, Some(from), Some(to), amount, e.third, TransferType)];
          return Success(NoData, Some(e.transactionId));
        case GetBalance(id) =>
          if id in accounts { return Success(BalanceData(accounts[id].balance), None); }
          return Error("Account not found");
        case GetAccount(id) =>
          if id in accounts { return Success(AccountData(accounts[id]), None); }
          return Error("Account not found");
        case ListAccounts => return Success(AccountsData(Listed(accounts)), None);
        case GetTransactionHistory(account, limit) =>
          return Success(TransactionsData(History(transactions, account, limit)), None);
      }
    }

    method TotalValue() returns (total: I64)
      ensures total == WrapI64(Total(accounts))
    {
      total := SumBalances(accounts);
    }
  }

  /** Adds up the balances in an arbitrary order, wrapping at every addition. */
  method SumBalances(accounts: map<AccountId, Account>) returns (total: I64)
    ensures total == WrapI64(Total(accounts))
  {
    total := 0;
    ghost var summed, left := 0, Total(accounts);
    var todo := accounts;
    while todo != map[]
      invariant left == Total(todo) && summed + left == Total(accounts)
      invariant total == WrapI64(summed)
      decreases |todo|
    {
      var id :| id in todo;
      var balance := todo[id].balance;
      TotalRemove(todo, id);
      WrapAdds(summed, balance);
      total := WrapI64(total + balance);
      summed, left := summed + balance, left - balance;
      todo := todo - {id};
    }
  }

  /** Wrapping early or late makes no difference. */
  lemma WrapAdds(x: int, y: int)
    ensures WrapI64(WrapI64(x) + y) == WrapI64(x + y)
  {
  }
}
