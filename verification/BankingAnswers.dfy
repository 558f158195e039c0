/** What the ledger answers, told from the log: every answer in any run follows from the
    opening balances, the logged transactions and the command alone. */
module BankingAnswers {
  import opened Types
  import opened NewestFirst
  import opened Banking
  import opened BankingRuns

  /** What the log says account `id` holds: opening balance plus the entries naming it. */
  function Ledger(run: seq<State>, cs: seq<Command>, n: nat, id: AccountId): I64
    requires n <= |cs| < |run| && id in Openings(run, cs, n)
  {
    WrapI64(Openings(run, cs, n)[id] + Net(run[n].transactions, id))
  }

  lemma ReconciledFor(run: seq<State>, cs: seq<Command>, es: seq<Env>, n: nat, id: AccountId)
    requires IsRun(run, cs, es) && n <= |cs|
    ensures ReconciledAt(run[n], Openings(run, cs, n), id)
  {
    LedgerReconciles(run, cs, es, n);
  }

  lemma HoldsLedger(run: seq<State>, cs: seq<Command>, es: seq<Env>, n: nat, id: AccountId)
    requires IsRun(run, cs, es) && n <= |cs|
    ensures id in run[n].accounts <==> id in Openings(run, cs, n)
    ensures id in run[n].accounts ==> run[n].accounts[id].balance == Ledger(run, cs, n, id)
    ensures id in run[n].accounts ==> run[n].accounts[id].transactionCount == Mentions(run[n].transactions, id)
  {
    ReconciledFor(run, cs, es, n, id);
  }

  /** Without an overflowing transfer, that is the plain sum. */
  lemma LedgerIsExact(run: seq<State>, cs: seq<Command>, es: seq<Env>, n: nat, id: AccountId)
    requires IsRun(run, cs, es) && n <= |cs| && AllFit(run, cs, n) && id in Openings(run, cs, n)
    ensures Ledger(run, cs, n, id) == Openings(run, cs, n)[id] + Net(run[n].transactions, id)
  {
    ExactIff(run, cs, es, n);
    assert ExactAfter(run, cs, n);
    HoldsLedger(run, cs, es, n, id);
    assert ExactAt(run[n], Openings(run, cs, n), id);
  }

  // ---- Commands that move money ----

  ghost predicate OnlyCounts(s: State, s': State) {
    s' == s.(operationCount := s.operationCount + 1)
  }

  /** A withdrawal pays out exactly when the amount is in range and the account exists and
      holds it; it then answers what is left. */
  lemma WithdrawAnswers(run: seq<State>, cs: seq<Command>, es: seq<Env>, n: nat, id: AccountId, amount: I64, e: Env)
    requires IsRun(run, cs, es) && n <= |cs|
    ensures var (s', r) := Apply(run[n], Withdraw(id, amount), e);
            && (amount <= 0 ==> r == Error("Amount must be positive"))
            && (amount > 1_000_000_000 ==> r == Error("Amount exceeds maximum limit"))
            && (0 < amount <= 1_000_000_000 ==>
                  if id !in Openings(run, cs, n) then r == Error("Account not found")
                  else if amount > Ledger(run, cs, n, id) then r == Error("Insufficient funds")
                  else
                    && r.Success? && r.data.BalanceData? && r.data.balance == Ledger(run, cs, n, id) - amount
                    && r.transactionId == Some(e.transactionId)
                    && s'.transactions == run[n].transactions
                       + [Transaction(e.transactionId, Some(id), None, amount, e.second, WithdrawalType)])
            && (r.Error? ==> OnlyCounts(run[n], s'))
  {
    HoldsLedger(run, cs, es, n, id);
  }

  /** A deposit is taken exactly when the amount is in range, the account exists and the sum
      fits in 64 bits; it then answers the sum. */
  lemma DepositAnswers(run: seq<State>, cs: seq<Command>, es: seq<Env>, n: nat, id: AccountId, amount: I64, e: Env)
    requires IsRun(run, cs, es) && n <= |cs|
    ensures var (s', r) := Apply(run[n], Deposit(id, amount), e);
            && (amount <= 0 ==> r == Error("Amount must be positive"))
            && (amount > 1_000_000_000 ==> r == Error("Amount exceeds maximum limit"))
            && (0 < amount <= 1_000_000_000 ==>
                  if id !in Openings(run, cs, n) then r == Error("Account not found")
                  else if Ledger(run, cs, n, id) + amount > MAX_I64 then r == Error("Deposit would cause overflow")
                  else
                    && r.Success? && r.data.BalanceData? && r.data.balance == Ledger(run, cs, n, id) + amount
                    && r.transactionId == Some(e.transactionId)
                    && s'.transactions == run[n].transactions
                       + [Transaction(e.transactionId, None, Some(id), amount, e.second, DepositType)])
            && (r.Error? ==> OnlyCounts(run[n], s'))
  {
    HoldsLedger(run, cs, es, n, id);
  }

  /** A transfer is made exactly when the amount is in range, both accounts exist and
      differ, and the sender holds it. */
  lemma TransferAnswers(run: seq<State>, cs: seq<Command>, es: seq<Env>, n: nat,
                        from: AccountId, to: AccountId, amount: I64, e: Env)
    requires IsRun(run, cs, es) && n <= |cs|
    ensures var (s', r) := Apply(run[n], Transfer(from, to, amount), e);
            && (amount <= 0 ==> r == Error("Amount must be positive"))
            && (amount > 1_000_000_000 ==> r == Error("Amount exceeds maximum limit"))
            && (0 < amount <= 1_000_000_000 ==>
                  if from == to then r == Error("Cannot transfer to same account")
                  else if from !in Openings(run, cs, n) then r == Error("Source account not found")
                  else if to !in Openings(run, cs, n) then r == Error("Destination account not found")
                  else if amount > Ledger(run, cs, n, from) then r == Error("Insufficient funds")
                  else
                    && r == Success(NoData, Some(e.transactionId))
                    && s'.transactions == run[n].transactions
                       + [Transaction(e.transactionId, Some(from), Some(to), amount, e.third, TransferType)])
            && (r.Error? ==> OnlyCounts(run[n], s'))
  {
    HoldsLedger(run, cs, es, n, from);
    HoldsLedger(run, cs, es, n, to);
  }

  /** An account is created exactly when its name and opening balance are allowed and the
      name is new. */
  lemma CreateAnswers(run: seq<State>, cs: seq<Command>, es: seq<Env>, n: nat, id: AccountId, initial: I64, e: Env)
    requires IsRun(run, cs, es) && n <= |cs|
    ensures var (s', r) := Apply(run[n], CreateAccount(id, initial), e);
            && (id == "" ==> r == Error("Account ID cannot be empty"))
            && (|id| > 50 ==> r == Error("Account ID too long"))
            && (0 < |id| <= 50 ==>
                  if initial < 0 then r == Error("Initial balance cannot be negative")
                  else if id in Openings(run, cs, n) then r == Error("Account already exists")
                  else
                    && r == Success(AccountData(Account(id, initial, e.first, e.first, 0)), None)
                    && s'.transactions == run[n].transactions)
            && (r.Error? ==> OnlyCounts(run[n], s'))
  {
    HoldsLedger(run, cs, es, n, id);
  }

  /** In particular, when no transfer has overflowed, a withdrawal succeeds exactly for the
      accounts whose opening balance and entries add up to the amount. */
  lemma WithdrawSucceedsIff(run: seq<State>, cs: seq<Command>, es: seq<Env>, n: nat, id: AccountId, amount: I64, e: Env)
    requires IsRun(run, cs, es) && n <= |cs| && AllFit(run, cs, n)
    ensures Apply(run[n], Withdraw(id, amount), e).1.Success? <==>
            && 0 < amount <= 1_000_000_000 && id in Openings(run, cs, n)
            && amount <= Openings(run, cs, n)[id] + Net(run[n].transactions, id)
  {
    WithdrawAnswers(run, cs, es, n, id, amount, e);
    if id in Openings(run, cs, n) {
      LedgerIsExact(run, cs, es, n, id);
    }
  }

  lemma DepositSucceedsIff(run: seq<State>, cs: seq<Command>, es: seq<Env>, n: nat, id: AccountId, amount: I64, e: Env)
    requires IsRun(run, cs, es) && n <= |cs| && AllFit(run, cs, n)
    ensures Apply(run[n], Deposit(id, amount), e).1.Success? <==>
            && 0 < amount <= 1_000_000_000 && id in Openings(run, cs, n)
            && Openings(run, cs, n)[id] + Net(run[n].transactions, id) + amount <= MAX_I64
  {
    DepositAnswers(run, cs, es, n, id, amount, e);
    if id in Openings(run, cs, n) {
      LedgerIsExact(run, cs, es, n, id);
    }
  }

  // ---- Queries ----

  /** When the account was opened, and when it was last booked on, by the clock. */
  function OpenedAt(run: seq<State>, cs: seq<Command>, es: seq<Env>, n: nat, id: AccountId): nat
    requires n <= |cs| == |es| < |run|
  {
    if n == 0 then 0
    else if Creates(run[n - 1], cs[n - 1]) && cs[n - 1].id == id then es[n - 1].first
    else OpenedAt(run, cs, es, n - 1, id)
  }

  function TouchedAt(run: seq<State>, cs: seq<Command>, es: seq<Env>, n: nat, id: AccountId): nat
    requires n <= |cs| == |es| < |run|
  {
    if n == 0 then 0
    else if Creates(run[n - 1], cs[n - 1]) && cs[n - 1].id == id then es[n - 1].first
    else if |run[n].transactions| > |run[n - 1].transactions| && Names(run[n].transactions[|run[n].transactions| - 1], id) then
      if cs[n - 1].Transfer? && cs[n - 1].to == id then es[n - 1].second else es[n - 1].first
    else TouchedAt(run, cs, es, n - 1, id)
  }

  /** The account as the history of the ledger describes it. */
  ghost predicate Described(run: seq<State>, cs: seq<Command>, es: seq<Env>, n: nat, id: AccountId, a: Account)
    requires n <= |cs| == |es| < |run|
  {
    && id in Openings(run, cs, n)
    && a.accountId == id
    && a.balance == Ledger(run, cs, n, id)
    && a.transactionCount == Mentions(run[n].transactions, id)
    && a.createdAt == OpenedAt(run, cs, es, n, id)
    && a.lastTransactionAt == TouchedAt(run, cs, es, n, id)
  }

  ghost predicate StampedAt(s: State, id: AccountId, born: nat, touched: nat) {
    id in s.accounts ==>
      s.accounts[id].accountId == id && s.accounts[id].createdAt == born && s.accounts[id].lastTransactionAt == touched
  }

  lemma QuietStamps(s: State, c: Command, e: Env, id: AccountId, born: nat, touched: nat)
    requires StampedAt(s, id, born, touched) && Apply(s, c, e).0.transactions == s.transactions
    ensures if Creates(s, c) && c.id == id then StampedAt(Apply(s, c, e).0, id, e.first, e.first)
            else StampedAt(Apply(s, c, e).0, id, born, touched)
  {
  }

  lemma LoggedStamps(s: State, c: Command, e: Env, id: AccountId, born: nat, touched: nat)
    requires StampedAt(s, id, born, touched) && Apply(s, c, e).0.transactions != s.transactions
    ensures var log := Apply(s, c, e).0.transactions;
            && |log| == |s.transactions| + 1 && !Creates(s, c)
            && StampedAt(Apply(s, c, e).0, id, born,
                         if !Names(log[|log| - 1], id) then touched
                         else if c.Transfer? && c.to == id then e.second else e.first)
  {
  }

  lemma {:induction false} AccountsStamped(run: seq<State>, cs: seq<Command>, es: seq<Env>, n: nat, id: AccountId)
    requires IsRun(run, cs, es) && n <= |cs|
    ensures StampedAt(run[n], id, OpenedAt(run, cs, es, n, id), TouchedAt(run, cs, es, n, id))
  {
    if n > 0 {
      var s, c, e := run[n - 1], cs[n - 1], es[n - 1];
      AccountsStamped(run, cs, es, n - 1, id);
      assert run[n - 1 + 1] == Apply(s, c, e).0;
      var born, touched := OpenedAt(run, cs, es, n - 1, id), TouchedAt(run, cs, es, n - 1, id);
      if Apply(s, c, e).0.transactions == s.transactions {
        QuietStamps(s, c, e, id, born, touched);
      } else {
        LoggedStamps(s, c, e, id, born, touched);
      }
    }
  }

  lemma AccountsDescribed(run: seq<State>, cs: seq<Command>, es: seq<Env>, n: nat, id: AccountId)
    requires IsRun(run, cs, es) && n <= |cs| && id in Openings(run, cs, n)
    ensures id in run[n].accounts && Described(run, cs, es, n, id, run[n].accounts[id])
  {
    HoldsLedger(run, cs, es, n, id);
    AccountsStamped(run, cs, es, n, id);
  }

  /** A balance or account query succeeds exactly for opened accounts, and tells what the
      history of the ledger says of them. */
  lemma QueriesAnswer(run: seq<State>, cs: seq<Command>, es: seq<Env>, n: nat, id: AccountId, e: Env)
    requires IsRun(run, cs, es) && n <= |cs|
    ensures var b, a := Apply(run[n], GetBalance(id), e).1, Apply(run[n], GetAccount(id), e).1;
            if id in Openings(run, cs, n) then
              && b == Success(BalanceData(Ledger(run, cs, n, id)), None)
              && a.Success? && a.transactionId == None && a.data.AccountData?
              && Described(run, cs, es, n, id, a.data.account)
            else b == a == Error("Account not found")
  {
    HoldsLedger(run, cs, es, n, id);
    if id in Openings(run, cs, n) {
      AccountsDescribed(run, cs, es, n, id);
    }
  }

  /** The listing holds every opened account, once, and nothing else. */
  lemma ListingAnswers(run: seq<State>, cs: seq<Command>, es: seq<Env>, n: nat, e: Env)
    requires IsRun(run, cs, es) && n <= |cs|
    ensures var r := Apply(run[n], ListAccounts, e).1;
            && r.Success? && r.data.AccountsData? && r.transactionId == None
            && (forall a | a in r.data.accounts :: Described(run, cs, es, n, a.accountId, a))
            && (forall id | id in Openings(run, cs, n) :: exists a :: a in r.data.accounts && a.accountId == id)
  {
    forall a | a in Listed(run[n].accounts)
      ensures Described(run, cs, es, n, a.accountId, a)
    {
      var id :| id in run[n].accounts && a == run[n].accounts[id];
      HoldsLedger(run, cs, es, n, id);
      AccountsDescribed(run, cs, es, n, id);
    }
    forall id | id in Openings(run, cs, n)
      ensures exists a :: a in Listed(run[n].accounts) && a.accountId == id
    {
      AccountsDescribed(run, cs, es, n, id);
      assert run[n].accounts[id] in Listed(run[n].accounts);
    }
  }

  /** Every command is counted, whatever it answers. */
  lemma {:induction false} OperationsCounted(run: seq<State>, cs: seq<Command>, es: seq<Env>, n: nat)
    requires IsRun(run, cs, es) && n <= |cs|
    ensures run[n].operationCount == n
  {
    if n > 0 {
      OperationsCounted(run, cs, es, n - 1);
      assert run[n - 1 + 1] == Apply(run[n - 1], cs[n - 1], es[n - 1]).0;
    }
  }

  // ---- The history ----

  lemma {:induction false} MatchingConcat(a: seq<Transaction>, b: seq<Transaction>, account: Option<AccountId>)
    ensures Matching(a + b, account) == Matching(a, account) + Matching(b, account)
    decreases |b|
  {
    if b == [] {
      assert a + b == a && Matching(a, account) + [] == Matching(a, account);
    } else {
      var most, last := b[..|b| - 1], b[|b| - 1];
      MatchingConcat(a, most, account);
      assert (a + b)[..|a + b| - 1] == a + most && (a + b)[|a + b| - 1] == last;
      ConcatAssociates(Matching(a, account), Matching(most, account),
                       if account.None? || Names(last, account.value) then [last] else []);
    }
  }

  lemma MatchingOne(t: Transaction, id: AccountId)
    ensures Matching([t], Some(id)) == if t.from == Some(id) || t.to == Some(id) then [t] else []
    ensures Matching([t], None) == [t]
  {
    assert [t][..0] == [];
  }

  lemma {:induction false} MatchingCounts(log: seq<Transaction>, id: AccountId)
    ensures |Matching(log, Some(id))| == Mentions(log, id) && |Matching(log, None)| == |log|
  {
    if log != [] {
      MatchingCounts(log[..|log| - 1], id);
    }
  }

  lemma TakeLength(order: seq<nat>, k: nat)
    ensures |Take(order, k)| == if k < |order| then k else |order|
    ensures forall a | 0 <= a < |Take(order, k)| :: Take(order, k)[a] == order[a]
  {
  }

  /** The positions shown: how many, in which order of time, and which entry stands where. */
  ghost predicate ShownRight(log: seq<Transaction>, ranks: seq<nat>, limit: Option<nat>, positions: seq<nat>)
    requires (forall a | 0 <= a < |positions| :: positions[a] < |log|) && |ranks| == |log|
  {
    && |positions| == (if limit.Some? && limit.value < |log| then limit.value else |log|)
    && (forall a, b | 0 <= a < b < |positions| :: log[positions[a]].timestamp >= log[positions[b]].timestamp)
    && (forall i | 0 <= i < |log| && ranks[i] < |positions| :: positions[ranks[i]] == i)
  }

  lemma TakenRight(log: seq<Transaction>, order: seq<nat>, ranks: seq<nat>, limit: Option<nat>)
    requires Places(order, ranks) && |ranks| == |log|
    requires (forall k | 0 <= k < |order| :: order[k] < |Times(log)|) && Descending(order, Times(log))
    ensures ShownRight(log, ranks, limit, Take(order, if limit.Some? then limit.value else |log|))
  {
    var positions := Take(order, if limit.Some? then limit.value else |log|);
    TakeLength(order, if limit.Some? then limit.value else |log|);
    forall a, b | 0 <= a < b < |positions|
      ensures log[positions[a]].timestamp >= log[positions[b]].timestamp
    {
      DescendingAt(order, Times(log), a, b);
    }
  }

  lemma ShownPositions(log: seq<Transaction>, limit: Option<nat>)
    ensures ShownRight(log, Ranks(Times(log)), limit, Shown(log, limit))
  {
    OrderIsRanked(Times(log), |log|);
    RanksPlace(Times(log));
    TakenRight(log, Order(Times(log), |log|), Ranks(Times(log)), limit);
  }

  lemma DescendingAt(order: seq<nat>, times: seq<nat>, a: nat, b: nat)
    requires (forall k | 0 <= k < |order| :: order[k] < |times|) && Descending(order, times) && a < b < |order|
    ensures times[order[a]] >= times[order[b]]
  {
  }

  /** `h` shows the entries `m`: newest first and otherwise in the order of the log, entry
      `i` standing where its rank says, and as many as there are or as the limit allows. */
  ghost predicate Shows(m: seq<Transaction>, limit: Option<nat>, h: seq<Transaction>) {
    && |h| == (if limit.Some? && limit.value < |m| then limit.value else |m|)
    && (forall a, b | 0 <= a < b < |h| :: h[a].timestamp >= h[b].timestamp)
    && var ranks := Ranks(Times(m));
       forall i | 0 <= i < |m| && ranks[i] < |h| :: h[ranks[i]] == m[i]
  }

  lemma PickedPositions(log: seq<Transaction>, positions: seq<nat>, ranks: seq<nat>)
    requires (forall a | 0 <= a < |positions| :: positions[a] < |log|) && |ranks| == |log|
    requires forall a, b | 0 <= a < b < |positions| :: log[positions[a]].timestamp >= log[positions[b]].timestamp
    requires forall i | 0 <= i < |log| && ranks[i] < |positions| :: positions[ranks[i]] == i
    ensures var h := PickAt(log, positions);
            && |h| == |positions|
            && (forall a, b | 0 <= a < b < |h| :: h[a].timestamp >= h[b].timestamp)
            && (forall i | 0 <= i < |log| && ranks[i] < |h| :: h[ranks[i]] == log[i])
  {
  }

  lemma HistoryIsShown(log: seq<Transaction>, account: Option<AccountId>, limit: Option<nat>)
    ensures Shows(Matching(log, account), limit, History(log, account, limit))
  {
    var m := Matching(log, account);
    ShownPositions(m, limit);
    PickedPositions(m, Shown(m, limit), Ranks(Times(m)));
  }

  lemma HistoryAnswered(s: State, account: Option<AccountId>, limit: Option<nat>, e: Env)
    ensures Apply(s, GetTransactionHistory(account, limit), e).1 ==
            Success(TransactionsData(History(s.transactions, account, limit)), None)
  {
  }

  /** The history answer shows the entries that name the account. */
  lemma HistoryShows(s: State, account: Option<AccountId>, limit: Option<nat>, e: Env) returns (h: seq<Transaction>)
    ensures Apply(s, GetTransactionHistory(account, limit), e).1 == Success(TransactionsData(h), None)
    ensures Shows(Matching(s.transactions, account), limit, h)
  {
    HistoryAnswered(s, account, limit, e);
    HistoryIsShown(s.transactions, account, limit);
    h := History(s.transactions, account, limit);
  }
}
