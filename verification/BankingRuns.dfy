/** Laws of whole runs of the banking ledger: conservation of money, reconciliation
    with the transaction log, and determinism across replicas. */
module BankingRuns {
  import opened Types
  import opened Banking

  ghost predicate IsRun(run: seq<State>, cs: seq<Command>, es: seq<Env>) {
    && |run| == |cs| + 1 == |es| + 1
    && run[0] == EMPTY
    && forall i | 0 <= i < |cs| :: run[i + 1] == Apply(run[i], cs[i], es[i]).0
  }

  // ---- What the log says ----

  function SumOf(log: seq<Transaction>, kind: TransactionType): int {
    if log == [] then 0
    else SumOf(log[..|log| - 1], kind) + if log[|log| - 1].kind == kind then log[|log| - 1].amount else 0
  }

  /** What one log entry adds to the balance of `id`. */
  function Effect(t: Transaction, id: AccountId): int {
    (if t.to == Some(id) then t.amount else 0) - (if t.from == Some(id) then t.amount else 0)
  }

  function Net(log: seq<Transaction>, id: AccountId): int {
    if log == [] then 0 else Net(log[..|log| - 1], id) + Effect(log[|log| - 1], id)
  }

  function Mentions(log: seq<Transaction>, id: AccountId): nat {
    if log == [] then 0 else Mentions(log[..|log| - 1], id) + if Names(log[|log| - 1], id) then 1 else 0
  }

  lemma LogAppend(log: seq<Transaction>, t: Transaction)
    ensures forall kind :: SumOf(log + [t], kind) == SumOf(log, kind) + if t.kind == kind then t.amount else 0
    ensures forall id :: Net(log + [t], id) == Net(log, id) + Effect(t, id)
    ensures forall id :: Mentions(log + [t], id) == Mentions(log, id) + if Names(t, id) then 1 else 0
  {
    assert (log + [t])[..|log|] == log;
  }

  // ---- Money entering by new accounts ----

  predicate Creates(s: State, c: Command) {
    c.CreateAccount? && AccountIdValid(c.id) && c.initialBalance >= 0 && c.id !in s.accounts
  }

  /** The opening balances of the accounts created so far. */
  function Openings(run: seq<State>, cs: seq<Command>, n: nat): map<AccountId, int>
    requires n <= |cs| <= |run|
  {
    if n == 0 then map[]
    else if Creates(run[n - 1], cs[n - 1]) then Openings(run, cs, n - 1)[cs[n - 1].id := cs[n - 1].initialBalance]
    else Openings(run, cs, n - 1)
  }

  function OpeningTotal(run: seq<State>, cs: seq<Command>, n: nat): int
    requires n <= |cs| <= |run|
  {
    if n == 0 then 0
    else OpeningTotal(run, cs, n - 1) + if Creates(run[n - 1], cs[n - 1]) then cs[n - 1].initialBalance else 0
  }

  /** All money that ever entered: opening balances and logged deposits. */
  function Introduced(run: seq<State>, cs: seq<Command>, n: nat): int
    requires n <= |cs| < |run|
  {
    OpeningTotal(run, cs, n) + SumOf(run[n].transactions, DepositType)
  }

  // ---- One command ----

  /** A transfer that passes every check. */
  predicate Transfers(s: State, c: Command) {
    && c.Transfer? && AmountValid(c.amount) && c.from != c.to
    && c.from in s.accounts && c.to in s.accounts && s.accounts[c.from].balance >= c.amount
  }

  /** The unchecked addition of a transfer does not overflow. */
  predicate Fits(s: State, c: Command) {
    Transfers(s, c) ==> s.accounts[c.to].balance + c.amount <= MAX_I64
  }

  ghost predicate NonNegative(s: State) {
    forall id | id in s.accounts :: s.accounts[id].balance >= 0
  }

  lemma StepKeepsNonNegative(s: State, c: Command, e: Env)
    requires NonNegative(s) && Fits(s, c)
    ensures NonNegative(Apply(s, c, e).0)
  {
  }

  lemma SingleUpdate(s: State, s': State, id: AccountId, a: Account, t: Transaction)
    requires id in s.accounts && s'.accounts == s.accounts[id := a] && s'.transactions == s.transactions + [t]
    requires a.balance == s.accounts[id].balance + Effect(t, id)
    ensures Total(s'.accounts) == Total(s.accounts) + Effect(t, id)
  {
    TotalUpdate(s.accounts, id, a);
  }

  lemma TransferTotal(s: State, c: Command, e: Env)
    requires Transfers(s, c)
    ensures Total(Apply(s, c, e).0.accounts) ==
            Total(s.accounts) - c.amount - s.accounts[c.to].balance + WrapI64(s.accounts[c.to].balance + c.amount)
  {
    var a := UpdateBalance(s.accounts[c.from], s.accounts[c.from].balance - c.amount, e.first);
    var b := UpdateBalance(s.accounts[c.to], WrapI64(s.accounts[c.to].balance + c.amount), e.second);
    TotalUpdate(s.accounts, c.from, a);
    TotalUpdate(s.accounts[c.from := a], c.to, b);
  }

  /** A transfer that passes every check keeps the total exactly when its unchecked
      addition fits in 64 bits. */
  lemma TransferConservesIff(s: State, c: Command, e: Env)
    requires Transfers(s, c)
    ensures Total(Apply(s, c, e).0.accounts) == Total(s.accounts) <==> Fits(s, c)
  {
    TransferTotal(s, c, e);
  }

  /** What one command creates, deposits or withdraws, according to the log. */
  function Entitled(s: State, c: Command, e: Env): int {
    var log, log' := s.transactions, Apply(s, c, e).0.transactions;
    (if Creates(s, c) then c.initialBalance else 0)
    + SumOf(log', DepositType) - SumOf(log, DepositType)
    - (SumOf(log', WithdrawalType) - SumOf(log, WithdrawalType))
  }

  lemma SingleTotal(s: State, c: Command, e: Env)
    requires (c.Deposit? || c.Withdraw?) && Apply(s, c, e).0.transactions != s.transactions
    ensures Total(Apply(s, c, e).0.accounts) - Total(s.accounts) == Entitled(s, c, e)
  {
    var s' := Apply(s, c, e).0;
    var t := s'.transactions[|s.transactions|];
    LogAppend(s.transactions, t);
    SingleUpdate(s, s', c.id, s'.accounts[c.id], t);
  }

  lemma TransferEntitlesNothing(s: State, c: Command, e: Env)
    requires Transfers(s, c)
    ensures Entitled(s, c, e) == 0
  {
    LogAppend(s.transactions, Apply(s, c, e).0.transactions[|s.transactions|]);
  }

  /** The total moves by just that. */
  lemma StepTotal(s: State, c: Command, e: Env)
    requires Fits(s, c)
    ensures Total(Apply(s, c, e).0.accounts) - Total(s.accounts) == Entitled(s, c, e)
  {
    var s' := Apply(s, c, e).0;
    if Transfers(s, c) {
      TransferTotal(s, c, e);
      TransferEntitlesNothing(s, c, e);
    } else if s'.transactions != s.transactions {
      SingleTotal(s, c, e);
    } else if Creates(s, c) {
      TotalUpdate(s.accounts, c.id, s'.accounts[c.id]);
    }
  }

  // ---- Conservation ----

  lemma {:induction false} NonNegativeBound(accounts: map<AccountId, Account>)
    requires forall id | id in accounts :: accounts[id].balance >= 0
    ensures Total(accounts) >= 0
    ensures forall id | id in accounts :: accounts[id].balance <= Total(accounts)
    decreases |accounts|
  {
    forall id | id in accounts
      ensures accounts[id].balance <= Total(accounts)
    {
      TotalRemove(accounts, id);
      NonNegativeBound(accounts - {id});
    }
    if accounts != map[] {
      var id :| id in accounts;
      assert accounts[id].balance <= Total(accounts);
    }
  }

  /** Any two accounts together hold no more than the total. */
  lemma PairBound(accounts: map<AccountId, Account>, x: AccountId, y: AccountId)
    requires forall id | id in accounts :: accounts[id].balance >= 0
    requires x in accounts && y in accounts && x != y
    ensures accounts[x].balance + accounts[y].balance <= Total(accounts)
  {
    TotalRemove(accounts, x);
    NonNegativeBound(accounts - {x});
    assert y in accounts - {x} && (accounts - {x})[y] == accounts[y];
  }

  ghost predicate Balanced(run: seq<State>, cs: seq<Command>, n: nat)
    requires n <= |cs| < |run|
  {
    && NonNegative(run[n])
    && Total(run[n].accounts) == Introduced(run, cs, n) - SumOf(run[n].transactions, WithdrawalType)
    && SumOf(run[n].transactions, WithdrawalType) >= 0
  }

  lemma StepIntroduces(s: State, c: Command, e: Env)
    ensures SumOf(Apply(s, c, e).0.transactions, DepositType) >= SumOf(s.transactions, DepositType)
    ensures SumOf(Apply(s, c, e).0.transactions, WithdrawalType) >= SumOf(s.transactions, WithdrawalType)
  {
    var s' := Apply(s, c, e).0;
    if s'.transactions != s.transactions {
      LogAppend(s.transactions, s'.transactions[|s.transactions|]);
    }
  }

  lemma BalancedFits(run: seq<State>, cs: seq<Command>, n: nat, c: Command)
    requires n <= |cs| < |run| && Balanced(run, cs, n) && Introduced(run, cs, n) <= MAX_I64
    ensures Fits(run[n], c)
  {
    if Transfers(run[n], c) {
      PairBound(run[n].accounts, c.from, c.to);
    }
  }

  /** Money is conserved: as long as all the money ever introduced fits in 64 bits, no
      balance is negative and the balances add up to opening balances plus logged
      deposits minus logged withdrawals. */
  lemma {:induction false} MoneyConserved(run: seq<State>, cs: seq<Command>, es: seq<Env>, n: nat)
    requires IsRun(run, cs, es) && n <= |cs|
    requires Introduced(run, cs, n) <= MAX_I64
    ensures Balanced(run, cs, n)
  {
    if n > 0 {
      var s, c, e := run[n - 1], cs[n - 1], es[n - 1];
      assert run[n - 1 + 1] == Apply(s, c, e).0;
      StepIntroduces(s, c, e);
      MoneyConserved(run, cs, es, n - 1);
      BalancedFits(run, cs, n - 1, c);
      StepKeepsNonNegative(s, c, e);
      StepTotal(s, c, e);
    }
  }

  /** Under that bound no 64-bit addition overflows: not the unchecked one of the next
      transfer, and not the sum of any of the balances, in whatever order they are added. */
  lemma NoOverflow(run: seq<State>, cs: seq<Command>, es: seq<Env>, n: nat, some: set<AccountId>)
    requires IsRun(run, cs, es) && n <= |cs|
    requires Introduced(run, cs, n) <= MAX_I64
    ensures forall c :: Fits(run[n], c)
    ensures 0 <= Total(run[n].accounts - some) <= Total(run[n].accounts) <= MAX_I64
    ensures WrapI64(Total(run[n].accounts)) == Total(run[n].accounts)
  {
    MoneyConserved(run, cs, es, n);
    forall c
      ensures Fits(run[n], c)
    {
      BalancedFits(run, cs, n, c);
    }
    NonNegativeBound(run[n].accounts - some);
    PartBound(run[n].accounts, some);
  }

  lemma {:induction false} PartBound(accounts: map<AccountId, Account>, some: set<AccountId>)
    requires forall id | id in accounts :: accounts[id].balance >= 0
    ensures Total(accounts - some) <= Total(accounts)
    decreases |accounts|
  {
    if id :| id in accounts && id in some {
      TotalRemove(accounts, id);
      PartBound(accounts - {id}, some);
      assert accounts - {id} - some == accounts - some;
    } else {
      assert accounts - some == accounts;
    }
  }

  /** The balances add up to what was introduced less what was withdrawn. */
  ghost predicate AddsUp(run: seq<State>, cs: seq<Command>, n: nat)
    requires n <= |cs| < |run|
  {
    Total(run[n].accounts) == Introduced(run, cs, n) - SumOf(run[n].transactions, WithdrawalType)
  }

  lemma StepTotalIff(s: State, c: Command, e: Env)
    ensures Total(Apply(s, c, e).0.accounts) - Total(s.accounts) == Entitled(s, c, e) <==> Fits(s, c)
  {
    if Fits(s, c) {
      StepTotal(s, c, e);
    } else {
      TransferEntitlesNothing(s, c, e);
      TransferConservesIff(s, c, e);
    }
  }

  lemma StepAddsUpIff(run: seq<State>, cs: seq<Command>, es: seq<Env>, n: nat)
    requires IsRun(run, cs, es) && n < |cs| && AddsUp(run, cs, n)
    ensures AddsUp(run, cs, n + 1) <==> Fits(run[n], cs[n])
  {
    StepTotalIff(run[n], cs[n], es[n]);
    IntroducedMoves(run, cs, es, n);
  }

  lemma IntroducedMoves(run: seq<State>, cs: seq<Command>, es: seq<Env>, n: nat)
    requires IsRun(run, cs, es) && n < |cs|
    ensures run[n + 1].accounts == Apply(run[n], cs[n], es[n]).0.accounts
    ensures Introduced(run, cs, n + 1) - SumOf(run[n + 1].transactions, WithdrawalType) ==
            Introduced(run, cs, n) - SumOf(run[n].transactions, WithdrawalType) + Entitled(run[n], cs[n], es[n])
  {
    var s' := Apply(run[n], cs[n], es[n]).0;
    assert run[n + 1] == s';
  }

  ghost predicate AddedUp(run: seq<State>, cs: seq<Command>, n: nat)
    requires n <= |cs| < |run|
  {
    forall i: nat | i <= n :: AddsUp(run, cs, i)
  }

  ghost predicate AllFit(run: seq<State>, cs: seq<Command>, n: nat)
    requires n <= |cs| < |run|
  {
    forall i: nat | i < n :: Fits(run[i], cs[i])
  }

  /** Whatever the amounts, the books of a run add up throughout exactly when each of its
      transfers that passed the checks left the receiving balance within 64 bits. */
  lemma {:induction false} AddsUpIff(run: seq<State>, cs: seq<Command>, es: seq<Env>, n: nat)
    requires IsRun(run, cs, es) && n <= |cs|
    ensures AddedUp(run, cs, n) <==> AllFit(run, cs, n)
  {
    if n == 0 {
      assert AddsUp(run, cs, 0);
    } else {
      AddsUpIff(run, cs, es, n - 1);
      assert AddedUp(run, cs, n) <==> AddedUp(run, cs, n - 1) && AddsUp(run, cs, n);
      assert AllFit(run, cs, n) <==> AllFit(run, cs, n - 1) && Fits(run[n - 1], cs[n - 1]);
      if AddedUp(run, cs, n - 1) {
        assert AddsUp(run, cs, n - 1);
        StepAddsUpIff(run, cs, es, n - 1);
      }
    }
  }

  /** A transfer that overflows leaves a negative balance. */
  lemma StepNonNegativeIff(s: State, c: Command, e: Env)
    requires NonNegative(s)
    ensures NonNegative(Apply(s, c, e).0) <==> Fits(s, c)
  {
    if Fits(s, c) {
      StepKeepsNonNegative(s, c, e);
    } else {
      WrapsNegative(s.accounts[c.to].balance + c.amount);
      assert c.to in Apply(s, c, e).0.accounts;
    }
  }

  lemma WrapsNegative(x: int)
    requires MAX_I64 < x <= MAX_I64 + 1_000_000_000
    ensures WrapI64(x) < 0
  {
  }

  ghost predicate NeverNegative(run: seq<State>, n: nat)
    requires n < |run|
  {
    forall i: nat | i <= n :: NonNegative(run[i])
  }

  /** No balance is ever negative in a run if and only if none of its transfers overflowed. */
  lemma {:induction false} NonNegativeIff(run: seq<State>, cs: seq<Command>, es: seq<Env>, n: nat)
    requires IsRun(run, cs, es) && n <= |cs|
    ensures NeverNegative(run, n) <==> AllFit(run, cs, n)
  {
    if n == 0 {
      assert NonNegative(run[0]);
    } else {
      NonNegativeIff(run, cs, es, n - 1);
      NeverNegativeStep(run, cs, n);
      if NeverNegative(run, n - 1) {
        StepNonNegativeIff(run[n - 1], cs[n - 1], es[n - 1]);
        assert run[n - 1 + 1] == Apply(run[n - 1], cs[n - 1], es[n - 1]).0;
      }
    }
  }

  lemma NeverNegativeStep(run: seq<State>, cs: seq<Command>, n: nat)
    requires 0 < n <= |cs| < |run|
    ensures NeverNegative(run, n) <==> NeverNegative(run, n - 1) && NonNegative(run[n])
    ensures NeverNegative(run, n - 1) ==> NonNegative(run[n - 1])
    ensures AllFit(run, cs, n) <==> AllFit(run, cs, n - 1) && Fits(run[n - 1], cs[n - 1])
  {
  }

  // ---- Reconciliation ----

  /** An account is explained by its opening balance and the entries naming it, up to
      wrap-around; no entry names an account that does not exist. */
  ghost predicate ReconciledAt(s: State, opening: map<AccountId, int>, id: AccountId) {
    if id in s.accounts then
      && id in opening
      && s.accounts[id].balance == WrapI64(opening[id] + Net(s.transactions, id))
      && s.accounts[id].transactionCount == Mentions(s.transactions, id)
    else
      id !in opening && Mentions(s.transactions, id) == 0 && Net(s.transactions, id) == 0
  }

  ghost predicate Reconciled(s: State, opening: map<AccountId, int>) {
    forall id :: ReconciledAt(s, opening, id)
  }

  /** The entry `t` is booked on account `id` if it names it. */
  ghost predicate BookedAt(s: State, s': State, t: Transaction, id: AccountId) {
    && (id in s.accounts <==> id in s'.accounts)
    && (Names(t, id) ==> id in s.accounts)
    && (id in s.accounts ==>
          && s'.accounts[id].balance == WrapI64(s.accounts[id].balance + Effect(t, id))
          && s'.accounts[id].transactionCount == s.accounts[id].transactionCount + if Names(t, id) then 1 else 0)
  }

  /** `s'` is `s` with the entry `t` logged and booked. */
  ghost predicate Books(s: State, s': State, t: Transaction) {
    s'.transactions == s.transactions + [t] && forall id :: BookedAt(s, s', t, id)
  }

  lemma TransferBooksAt(s: State, c: Command, e: Env, id: AccountId)
    requires Transfers(s, c)
    ensures BookedAt(s, Apply(s, c, e).0, Apply(s, c, e).0.transactions[|s.transactions|], id)
  {
  }

  lemma SingleBooksAt(s: State, c: Command, e: Env, id: AccountId)
    requires (c.Deposit? || c.Withdraw?) && Apply(s, c, e).0.transactions != s.transactions
    ensures BookedAt(s, Apply(s, c, e).0, Apply(s, c, e).0.transactions[|s.transactions|], id)
  {
  }

  lemma LoggedStepBooks(s: State, c: Command, e: Env)
    requires Apply(s, c, e).0.transactions != s.transactions
    ensures exists t :: Books(s, Apply(s, c, e).0, t)
  {
    var s' := Apply(s, c, e).0;
    var t := s'.transactions[|s.transactions|];
    forall id
      ensures BookedAt(s, s', t, id)
    {
      if c.Transfer? {
        TransferBooksAt(s, c, e, id);
      } else {
        SingleBooksAt(s, c, e, id);
      }
    }
    assert Books(s, s', t);
  }

  lemma BookingReconcilesAt(s: State, s': State, t: Transaction, opening: map<AccountId, int>, id: AccountId)
    requires ReconciledAt(s, opening, id) && BookedAt(s, s', t, id) && s'.transactions == s.transactions + [t]
    ensures ReconciledAt(s', opening, id)
  {
    LogAppend(s.transactions, t);
    if id in s.accounts {
      WrapAdds(opening[id] + Net(s.transactions, id), Effect(t, id));
    }
  }

  lemma BookingReconciles(s: State, s': State, t: Transaction, opening: map<AccountId, int>)
    requires Reconciled(s, opening) && Books(s, s', t)
    ensures Reconciled(s', opening)
  {
    forall id
      ensures ReconciledAt(s', opening, id)
    {
      assert ReconciledAt(s, opening, id) && BookedAt(s, s', t, id);
      BookingReconcilesAt(s, s', t, opening, id);
    }
  }

  function Opened(s: State, c: Command, opening: map<AccountId, int>): map<AccountId, int> {
    if Creates(s, c) then opening[c.id := c.initialBalance] else opening
  }

  lemma QuietStepReconcilesAt(s: State, c: Command, e: Env, opening: map<AccountId, int>, id: AccountId)
    requires ReconciledAt(s, opening, id) && Apply(s, c, e).0.transactions == s.transactions
    ensures ReconciledAt(Apply(s, c, e).0, Opened(s, c, opening), id)
  {
  }

  lemma QuietStepReconciles(s: State, c: Command, e: Env, opening: map<AccountId, int>)
    requires Reconciled(s, opening) && Apply(s, c, e).0.transactions == s.transactions
    ensures Reconciled(Apply(s, c, e).0, Opened(s, c, opening))
  {
    forall id
      ensures ReconciledAt(Apply(s, c, e).0, Opened(s, c, opening), id)
    {
      assert ReconciledAt(s, opening, id);
      QuietStepReconcilesAt(s, c, e, opening, id);
    }
  }

  lemma LoggedStepReconciles(s: State, c: Command, e: Env, opening: map<AccountId, int>)
    requires Reconciled(s, opening) && Apply(s, c, e).0.transactions != s.transactions
    ensures Reconciled(Apply(s, c, e).0, Opened(s, c, opening))
  {
    LoggedStepBooks(s, c, e);
    var t :| Books(s, Apply(s, c, e).0, t);
    BookingReconciles(s, Apply(s, c, e).0, t, opening);
  }

  /** In every run each balance is the account's opening balance plus the log entries
      naming it, in 64-bit arithmetic, and its transaction count is their number. */
  lemma {:induction false} LedgerReconciles(run: seq<State>, cs: seq<Command>, es: seq<Env>, n: nat)
    requires IsRun(run, cs, es) && n <= |cs|
    ensures Reconciled(run[n], Openings(run, cs, n))
  {
    if n > 0 {
      var s, c, e := run[n - 1], cs[n - 1], es[n - 1];
      LedgerReconciles(run, cs, es, n - 1);
      if Apply(s, c, e).0.transactions == s.transactions {
        QuietStepReconciles(s, c, e, Openings(run, cs, n - 1));
      } else {
        LoggedStepReconciles(s, c, e, Openings(run, cs, n - 1));
      }
      assert run[n - 1 + 1] == Apply(s, c, e).0;
    }
  }

  // ---- Exact balances ----

  /** Every balance is explained exactly, without wrap-around. */
  ghost predicate Exact(s: State, opening: map<AccountId, int>) {
    forall id | id in s.accounts :: ExactAt(s, opening, id)
  }

  ghost predicate ExactAt(s: State, opening: map<AccountId, int>, id: AccountId)
    requires id in s.accounts
  {
    id in opening && s.accounts[id].balance == opening[id] + Net(s.transactions, id)
  }

  lemma BookedExactIff(s: State, s': State, t: Transaction, opening: map<AccountId, int>, id: AccountId)
    requires id in s.accounts && ExactAt(s, opening, id)
    requires BookedAt(s, s', t, id) && s'.transactions == s.transactions + [t]
    ensures ExactAt(s', opening, id) <==> MIN_I64 <= s.accounts[id].balance + Effect(t, id) <= MAX_I64
  {
    LogAppend(s.transactions, t);
  }

  lemma TransferExactAt(s: State, c: Command, e: Env, opening: map<AccountId, int>, id: AccountId)
    requires Transfers(s, c) && id in s.accounts && ExactAt(s, opening, id)
    ensures id in Apply(s, c, e).0.accounts
    ensures ExactAt(Apply(s, c, e).0, opening, id) <==> id != c.to || Fits(s, c)
  {
    var s' := Apply(s, c, e).0;
    var t := s'.transactions[|s.transactions|];
    TransferBooksAt(s, c, e, id);
    BookedExactIff(s, s', t, opening, id);
    assert Effect(t, id) == (if id == c.to then c.amount else 0) - if id == c.from then c.amount else 0;
  }

  lemma TransferExactIff(s: State, c: Command, e: Env, opening: map<AccountId, int>)
    requires Exact(s, opening) && Transfers(s, c)
    ensures Exact(Apply(s, c, e).0, opening) <==> Fits(s, c)
  {
    var s' := Apply(s, c, e).0;
    forall id | id in s'.accounts
      ensures ExactAt(s', opening, id) <==> id != c.to || Fits(s, c)
    {
      assert ExactAt(s, opening, id);
      TransferExactAt(s, c, e, opening, id);
    }
    assert c.to in s'.accounts;
  }

  lemma OtherStepExactAt(s: State, c: Command, e: Env, opening: map<AccountId, int>, id: AccountId)
    requires !Transfers(s, c) && id in Apply(s, c, e).0.accounts && ReconciledAt(s, opening, id)
    requires id in s.accounts ==> ExactAt(s, opening, id)
    ensures ExactAt(Apply(s, c, e).0, Opened(s, c, opening), id)
  {
    var s' := Apply(s, c, e).0;
    if s'.transactions != s.transactions {
      var t := s'.transactions[|s.transactions|];
      assert s'.transactions == s.transactions + [t];
      LogAppend(s.transactions, t);
    }
  }

  lemma OtherStepExact(s: State, c: Command, e: Env, opening: map<AccountId, int>)
    requires Reconciled(s, opening) && Exact(s, opening) && !Transfers(s, c)
    ensures Exact(Apply(s, c, e).0, Opened(s, c, opening))
  {
    forall id | id in Apply(s, c, e).0.accounts
      ensures ExactAt(Apply(s, c, e).0, Opened(s, c, opening), id)
    {
      assert ReconciledAt(s, opening, id);
      OtherStepExactAt(s, c, e, opening, id);
    }
  }

  ghost predicate ExactAfter(run: seq<State>, cs: seq<Command>, i: nat)
    requires i <= |cs| < |run|
  {
    Exact(run[i], Openings(run, cs, i))
  }

  ghost predicate AllExact(run: seq<State>, cs: seq<Command>, n: nat)
    requires n <= |cs| < |run|
  {
    forall i: nat | i <= n :: ExactAfter(run, cs, i)
  }

  lemma StepExactIff(run: seq<State>, cs: seq<Command>, es: seq<Env>, n: nat)
    requires IsRun(run, cs, es) && n < |cs| && ExactAfter(run, cs, n)
    ensures ExactAfter(run, cs, n + 1) <==> Fits(run[n], cs[n])
  {
    assert run[n + 1] == Apply(run[n], cs[n], es[n]).0;
    assert Openings(run, cs, n + 1) == Opened(run[n], cs[n], Openings(run, cs, n));
    if Transfers(run[n], cs[n]) {
      TransferExactIff(run[n], cs[n], es[n], Openings(run, cs, n));
    } else {
      LedgerReconciles(run, cs, es, n);
      OtherStepExact(run[n], cs[n], es[n], Openings(run, cs, n));
    }
  }

  lemma AllExactStep(run: seq<State>, cs: seq<Command>, n: nat)
    requires 0 < n <= |cs| < |run|
    ensures AllExact(run, cs, n) <==> AllExact(run, cs, n - 1) && ExactAfter(run, cs, n)
    ensures AllFit(run, cs, n) <==> AllFit(run, cs, n - 1) && Fits(run[n - 1], cs[n - 1])
    ensures AllExact(run, cs, n - 1) ==> ExactAfter(run, cs, n - 1)
  {
  }

  /** Balances are exactly opening plus log throughout a run if and only if none of its
      transfers overflowed. */
  lemma {:induction false} ExactIff(run: seq<State>, cs: seq<Command>, es: seq<Env>, n: nat)
    requires IsRun(run, cs, es) && n <= |cs|
    ensures AllExact(run, cs, n) <==> AllFit(run, cs, n)
  {
    if n == 0 {
      assert ExactAfter(run, cs, 0);
    } else {
      ExactIff(run, cs, es, n - 1);
      AllExactStep(run, cs, n);
      if AllExact(run, cs, n - 1) {
        StepExactIff(run, cs, es, n - 1);
      }
    }
  }

  lemma {:induction false} IntroducedGrows(run: seq<State>, cs: seq<Command>, es: seq<Env>, i: nat, n: nat)
    requires IsRun(run, cs, es) && i <= n <= |cs|
    ensures Introduced(run, cs, i) <= Introduced(run, cs, n)
    decreases n
  {
    if i < n {
      IntroducedGrows(run, cs, es, i, n - 1);
      StepIntroduces(run[n - 1], cs[n - 1], es[n - 1]);
      assert run[n - 1 + 1] == Apply(run[n - 1], cs[n - 1], es[n - 1]).0;
    }
  }

  /** In particular while the money introduced fits in 64 bits. */
  lemma LedgerReconcilesExactly(run: seq<State>, cs: seq<Command>, es: seq<Env>, n: nat)
    requires IsRun(run, cs, es) && n <= |cs| && Introduced(run, cs, n) <= MAX_I64
    ensures ExactAfter(run, cs, n)
  {
    forall i: nat | i < n
      ensures Fits(run[i], cs[i])
    {
      IntroducedGrows(run, cs, es, i, n);
      MoneyConserved(run, cs, es, i);
      BalancedFits(run, cs, i, cs[i]);
    }
    ExactIff(run, cs, es, n);
    assert ExactAfter(run, cs, n);
  }

  // ---- A run that overflows ----

  lemma FullAccounts(e: Env) returns (s1: State, s2: State)
    ensures s1 == Apply(EMPTY, CreateAccount("a", MAX_I64), e).0 && s2 == Apply(s1, CreateAccount("b", 1), e).0
    ensures "a" in s2.accounts && "b" in s2.accounts && "a" != "b"
    ensures s2.accounts["a"].balance == MAX_I64 && s2.accounts["b"].balance == 1
  {
    s1 := Apply(EMPTY, CreateAccount("a", MAX_I64), e).0;
    assert |"b"| == 1 && "b"[0] != "a"[0];
    s2 := Apply(s1, CreateAccount("b", 1), e).0;
  }

  /** From the empty ledger the books can fail to add up, and a balance to be explained:
      an account holding the largest balance receives one more. */
  lemma OverflowLosesMoney() returns (run: seq<State>, cs: seq<Command>, es: seq<Env>)
    ensures IsRun(run, cs, es) && |cs| == 3 && Transfers(run[2], cs[2]) && !Fits(run[2], cs[2])
    ensures AddsUp(run, cs, 2) && !AddsUp(run, cs, 3)
    ensures ExactAfter(run, cs, 2) && !ExactAfter(run, cs, 3)
  {
    var e := Env(0, 0, 0, "");
    var s1, s2 := FullAccounts(e);
    cs, es := [CreateAccount("a", MAX_I64), CreateAccount("b", 1), Transfer("b", "a", 1)], [e, e, e];
    run := [EMPTY, s1, s2, Apply(s2, cs[2], e).0];
    assert Fits(run[0], cs[0]) && Fits(run[1], cs[1]);
    assert AllFit(run, cs, 2);
    AddsUpIff(run, cs, es, 2);
    assert AddsUp(run, cs, 2);
    StepAddsUpIff(run, cs, es, 2);
    ExactIff(run, cs, es, 2);
    assert ExactAfter(run, cs, 2);
    StepExactIff(run, cs, es, 2);
  }
}
