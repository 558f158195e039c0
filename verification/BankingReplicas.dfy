/** Replicas of the banking ledger: the same commands lead to the same accounts and log,
    whatever clocks and id generators they use, and to the same answers, except that the
    transaction history is shown in the order of the replica's own clock. */
module BankingReplicas {
  import opened Types
  import opened NewestFirst
  import opened Banking
  import opened BankingRuns

  function ForgetAccount(a: Account): Account {
    a.(createdAt := 0, lastTransactionAt := 0)
  }

  function ForgetTransaction(t: Transaction): Transaction {
    t.(transactionId := "", timestamp := 0)
  }

  /** A state without its timestamps and transaction ids. */
  function Forget(s: State): State {
    State(ForgetAccounts(s.accounts), ForgetLog(s.transactions), s.operationCount)
  }

  function ForgetAccounts(accounts: map<AccountId, Account>): map<AccountId, Account> {
    map id | id in accounts :: ForgetAccount(accounts[id])
  }

  function ForgetLog(log: seq<Transaction>): seq<Transaction> {
    seq(|log|, i requires 0 <= i < |log| => ForgetTransaction(log[i]))
  }

  function ForgetData(d: Data): Data {
    match d
    case AccountData(a) => AccountData(ForgetAccount(a))
    case AccountsData(accounts) => AccountsData(set a | a in accounts :: ForgetAccount(a))
    case TransactionsData(log) => TransactionsData(ForgetLog(log))
    case _ => d
  }

  function ForgetResponse(r: Response): Response {
    match r
    case Success(data, id) =>
      Success(ForgetData(data), if id.Some? then Some("") else None)
    case Error(message) => r
  }

  const NOWHERE := Env(0, 0, 0, "")

  lemma ForgetLogs(log: seq<Transaction>, t: Transaction)
    ensures ForgetLog(log + [t]) == ForgetLog(log) + [ForgetTransaction(t)]
  {
  }

  lemma ForgetUpdate(accounts: map<AccountId, Account>, id: AccountId, a: Account)
    ensures ForgetAccounts(accounts[id := a]) == ForgetAccounts(accounts)[id := ForgetAccount(a)]
  {
  }

  lemma TransferForgetsAccounts(s: State, c: Command, e: Env)
    requires Transfers(s, c)
    ensures Apply(Forget(s), c, NOWHERE).0.accounts == ForgetAccounts(Apply(s, c, e).0.accounts)
  {
    var s' := Apply(s, c, e).0;
    ForgetUpdate(s.accounts, c.from, s'.accounts[c.from]);
    ForgetUpdate(s.accounts[c.from := s'.accounts[c.from]], c.to, s'.accounts[c.to]);
    assert s'.accounts == s.accounts[c.from := s'.accounts[c.from]][c.to := s'.accounts[c.to]];
  }

  lemma CreateForgetsAccounts(s: State, c: Command, e: Env)
    requires c.CreateAccount?
    ensures Apply(Forget(s), c, NOWHERE).0.accounts == ForgetAccounts(Apply(s, c, e).0.accounts)
  {
    ForgetUpdate(s.accounts, c.id, Account(c.id, c.initialBalance, e.first, e.first, 0));
  }

  lemma SingleForgetsAccounts(s: State, c: Command, e: Env)
    requires c.Deposit? || c.Withdraw?
    ensures Apply(Forget(s), c, NOWHERE).0.accounts == ForgetAccounts(Apply(s, c, e).0.accounts)
  {
    if c.id in s.accounts {
      var s' := Apply(s, c, e).0;
      ForgetUpdate(s.accounts, c.id, s'.accounts[c.id]);
    }
  }

  /** Forgetting before a command or after it comes to the same: for the accounts, */
  lemma StepForgetsAccounts(s: State, c: Command, e: Env)
    ensures Apply(Forget(s), c, NOWHERE).0.accounts == ForgetAccounts(Apply(s, c, e).0.accounts)
  {
    if Transfers(s, c) {
      TransferForgetsAccounts(s, c, e);
    } else if c.CreateAccount? {
      CreateForgetsAccounts(s, c, e);
    } else if c.Deposit? || c.Withdraw? {
      SingleForgetsAccounts(s, c, e);
    }
  }

  /** and for the log. */
  lemma StepForgetsLog(s: State, c: Command, e: Env)
    ensures Apply(Forget(s), c, NOWHERE).0.transactions == ForgetLog(Apply(s, c, e).0.transactions)
  {
    var s' := Apply(s, c, e).0;
    if s'.transactions != s.transactions {
      var t := s'.transactions[|s.transactions|];
      assert s'.transactions == s.transactions + [t];
      ForgetLogs(s.transactions, t);
    }
  }

  lemma ForgetListed(accounts: map<AccountId, Account>)
    ensures (set a | a in Listed(accounts) :: ForgetAccount(a)) == Listed(ForgetAccounts(accounts))
  {
    forall x
      ensures x in Listed(ForgetAccounts(accounts)) <==> x in set a | a in Listed(accounts) :: ForgetAccount(a)
    {
      if x in Listed(ForgetAccounts(accounts)) {
        var id :| id in accounts && x == ForgetAccount(accounts[id]);
        assert accounts[id] in Listed(accounts);
      }
      if x in set a | a in Listed(accounts) :: ForgetAccount(a) {
        var id :| id in accounts && x == ForgetAccount(accounts[id]);
        assert id in ForgetAccounts(accounts);
      }
    }
  }

  lemma ListForgets(s: State, e: Env)
    ensures ForgetResponse(Apply(s, ListAccounts, e).1) ==
            Success(AccountsData(Listed(ForgetAccounts(s.accounts))), None)
  {
    ForgetListed(s.accounts);
  }

  lemma StepForgets(s: State, c: Command, e: Env)
    ensures Apply(Forget(s), c, NOWHERE).0 == Forget(Apply(s, c, e).0)
  {
    StepForgetsAccounts(s, c, e);
    StepForgetsLog(s, c, e);
  }

  /** The answer to any command but a history or a listing forgets in the same way. */
  lemma StepForgetsAnswer(s: State, c: Command, e: Env)
    requires !c.ListAccounts? && !c.GetTransactionHistory?
    ensures ForgetResponse(Apply(Forget(s), c, NOWHERE).1) == ForgetResponse(Apply(s, c, e).1)
  {
  }

  /** Replica determinism: two replicas running the same commands, with whatever clocks
      and id generators, agree on everything but timestamps and transaction ids. */
  lemma {:induction false} ReplicasAgree(run1: seq<State>, es1: seq<Env>, run2: seq<State>, es2: seq<Env>,
                                         cs: seq<Command>, n: nat)
    requires IsRun(run1, cs, es1) && IsRun(run2, cs, es2) && n <= |cs|
    ensures Forget(run1[n]) == Forget(run2[n])
  {
    if n > 0 {
      ReplicasAgree(run1, es1, run2, es2, cs, n - 1);
      StepForgets(run1[n - 1], cs[n - 1], es1[n - 1]);
      StepForgets(run2[n - 1], cs[n - 1], es2[n - 1]);
      assert run1[n - 1 + 1] == Apply(run1[n - 1], cs[n - 1], es1[n - 1]).0;
      assert run2[n - 1 + 1] == Apply(run2[n - 1], cs[n - 1], es2[n - 1]).0;
    }
  }

  /** So do their answers to every command but one: see below for the history. */
  lemma AnswersAgree(run1: seq<State>, es1: seq<Env>, run2: seq<State>, es2: seq<Env>, cs: seq<Command>, n: nat)
    requires IsRun(run1, cs, es1) && IsRun(run2, cs, es2) && n < |cs| && !cs[n].GetTransactionHistory?
    ensures ForgetResponse(Apply(run1[n], cs[n], es1[n]).1) == ForgetResponse(Apply(run2[n], cs[n], es2[n]).1)
  {
    ReplicasAgree(run1, es1, run2, es2, cs, n);
    if cs[n].ListAccounts? {
      ListForgets(run1[n], es1[n]);
      ListForgets(run2[n], es2[n]);
    } else {
      StepForgetsAnswer(run1[n], cs[n], es1[n]);
      StepForgetsAnswer(run2[n], cs[n], es2[n]);
    }
  }

  // ---- The transaction history ----

  lemma {:induction false} ForgetMatching(log: seq<Transaction>, account: Option<AccountId>)
    ensures ForgetLog(Matching(log, account)) == Matching(ForgetLog(log), account)
    decreases |log|
  {
    if log != [] {
      var most, last := log[..|log| - 1], log[|log| - 1];
      ForgetMatching(most, account);
      assert ForgetLog(log)[..|log| - 1] == ForgetLog(most);
      ForgetLogs(Matching(most, account), last);
      assert Matching(most, account) + [] == Matching(most, account);
      assert Matching(ForgetLog(most), account) + [] == Matching(ForgetLog(most), account);
    }
  }

  lemma ForgetPick(log1: seq<Transaction>, log2: seq<Transaction>, positions: seq<nat>)
    requires ForgetLog(log1) == ForgetLog(log2)
    requires forall a | 0 <= a < |positions| :: positions[a] < |log1|
    ensures |log1| == |log2| && ForgetLog(PickAt(log1, positions)) == ForgetLog(PickAt(log2, positions))
  {
    assert |ForgetLog(log1)| == |ForgetLog(log2)|;
    forall a | 0 <= a < |positions|
      ensures ForgetTransaction(log1[positions[a]]) == ForgetTransaction(log2[positions[a]])
    {
      assert ForgetLog(log1)[positions[a]] == ForgetLog(log2)[positions[a]];
    }
  }

  /** Both replicas hold equally many entries that answer the request, and show those at
      the same places of the log in the same order. */
  ghost predicate HistoriesAlike(s1: State, s2: State, account: Option<AccountId>, limit: Option<nat>) {
    var m1, m2 := Matching(s1.transactions, account), Matching(s2.transactions, account);
    |m1| == |m2| && Shown(m1, limit) == Shown(m2, limit)
  }

  /** The clocks of both replicas put every entry that either shows behind equally many. */
  ghost predicate ClocksAgree(s1: State, s2: State, account: Option<AccountId>, limit: Option<nat>) {
    var m1, m2 := Matching(s1.transactions, account), Matching(s2.transactions, account);
    && |m1| == |m2|
    && SameRanks(Ranks(Times(m1)), Ranks(Times(m2)), if limit.Some? then limit.value else |m1|)
  }

  lemma LogsMatchAlike(s1: State, s2: State, account: Option<AccountId>)
    requires Forget(s1) == Forget(s2)
    ensures ForgetLog(Matching(s1.transactions, account)) == ForgetLog(Matching(s2.transactions, account))
    ensures |Matching(s1.transactions, account)| == |Matching(s2.transactions, account)|
  {
    ForgetMatching(s1.transactions, account);
    ForgetMatching(s2.transactions, account);
    assert |ForgetLog(Matching(s1.transactions, account))| == |Matching(s1.transactions, account)|;
  }

  /** Two replicas show the same entries of the log in the same order exactly when their
      clocks agree on the entries shown; then their answers agree up to timestamps and ids. */
  lemma HistoryAgreesIff(run1: seq<State>, es1: seq<Env>, run2: seq<State>, es2: seq<Env>, cs: seq<Command>, n: nat,
                         account: Option<AccountId>, limit: Option<nat>)
    requires IsRun(run1, cs, es1) && IsRun(run2, cs, es2) && n <= |cs|
    ensures HistoriesAlike(run1[n], run2[n], account, limit) <==> ClocksAgree(run1[n], run2[n], account, limit)
    ensures HistoriesAlike(run1[n], run2[n], account, limit) ==>
              ForgetLog(History(run1[n].transactions, account, limit)) ==
              ForgetLog(History(run2[n].transactions, account, limit))
  {
    var s1, s2 := run1[n], run2[n];
    ReplicasAgree(run1, es1, run2, es2, cs, n);
    LogsMatchAlike(s1, s2, account);
    var m1, m2 := Matching(s1.transactions, account), Matching(s2.transactions, account);
    TakesAgreeIff(Times(m1), Times(m2), if limit.Some? then limit.value else |m1|);
    if HistoriesAlike(s1, s2, account, limit) {
      ForgetPick(m1, m2, Shown(m1, limit));
    }
  }

  /** Whenever the clocks of both replicas put entries, be they different ones, behind
      equally many among those shown, the entries are alike up to timestamps and ids. */
  ghost predicate RankedAlike(s1: State, s2: State, account: Option<AccountId>, limit: Option<nat>) {
    var m1, m2 := Matching(s1.transactions, account), Matching(s2.transactions, account);
    && |m1| == |m2|
    && SameLabels(ForgetLog(m1), Ranks(Times(m1)), Ranks(Times(m2)), if limit.Some? then limit.value else |m1|)
  }

  lemma ForgetShown(log: seq<Transaction>, positions: seq<nat>)
    requires forall a | 0 <= a < |positions| :: positions[a] < |log|
    ensures ForgetLog(PickAt(log, positions)) == LabelsOf(ForgetLog(log), positions)
  {
  }

  /** The answers themselves agree up to timestamps and ids exactly when entries that the
      two clocks rank alike are alike. */
  lemma HistoryAnswersAgreeIff(run1: seq<State>, es1: seq<Env>, run2: seq<State>, es2: seq<Env>, cs: seq<Command>, n: nat,
                               account: Option<AccountId>, limit: Option<nat>)
    requires IsRun(run1, cs, es1) && IsRun(run2, cs, es2) && n <= |cs|
    ensures ForgetLog(History(run1[n].transactions, account, limit)) ==
            ForgetLog(History(run2[n].transactions, account, limit))
            <==> RankedAlike(run1[n], run2[n], account, limit)
  {
    var s1, s2 := run1[n], run2[n];
    ReplicasAgree(run1, es1, run2, es2, cs, n);
    LogsMatchAlike(s1, s2, account);
    var m1, m2 := Matching(s1.transactions, account), Matching(s2.transactions, account);
    ForgetShown(m1, Shown(m1, limit));
    ForgetShown(m2, Shown(m2, limit));
    RanksPlace(Times(m1));
    RanksPlace(Times(m2));
    LabelsAgreeIff(ForgetLog(m1), Order(Times(m1), |m1|), Ranks(Times(m1)), Order(Times(m2), |m2|), Ranks(Times(m2)),
                   if limit.Some? then limit.value else |m1|);
  }

  lemma TwoDeposits(first: nat, second: nat) returns (run: seq<State>, es: seq<Env>)
    ensures IsRun(run, [CreateAccount("a", 0), Deposit("a", 1), Deposit("a", 2)], es)
    ensures run[3].transactions == [Transaction("", None, Some("a"), 1, first, DepositType),
                                    Transaction("", None, Some("a"), 2, second, DepositType)]
  {
    var cs := [CreateAccount("a", 0), Deposit("a", 1), Deposit("a", 2)];
    es := [Env(0, 0, 0, ""), Env(0, first, 0, ""), Env(0, second, 0, "")];
    var s1 := Apply(EMPTY, cs[0], es[0]).0;
    var s2 := Apply(s1, cs[1], es[1]).0;
    run := [EMPTY, s1, s2, Apply(s2, cs[2], es[2]).0];
  }

  lemma {:induction false} MatchingAll(log: seq<Transaction>)
    ensures Matching(log, None) == log
  {
    if log != [] {
      MatchingAll(log[..|log| - 1]);
    }
  }

  lemma NewestOfTwo(log: seq<Transaction>)
    requires |log| == 2
    ensures History(log, None, Some(1)) == [if log[0].timestamp >= log[1].timestamp then log[0] else log[1]]
  {
    var times := Times(log);
    MatchingAll(log);
    assert Order(times, 1) == [0];
    assert Order(times, 2) == if times[0] >= times[1] then [0, 1] else [1, 0];
  }

  /** Without any clock going backwards: one replica takes two deposits at the same moment,
      the other one after the other, and asked for the latest entry they name different ones. */
  lemma HistoriesDiffer() returns (run1: seq<State>, es1: seq<Env>, run2: seq<State>, es2: seq<Env>, cs: seq<Command>)
    ensures IsRun(run1, cs, es1) && IsRun(run2, cs, es2) && |cs| == 3
    ensures ForgetLog(History(run1[3].transactions, None, Some(1))) !=
            ForgetLog(History(run2[3].transactions, None, Some(1)))
  {
    cs := [CreateAccount("a", 0), Deposit("a", 1), Deposit("a", 2)];
    run1, es1 := TwoDeposits(0, 0);
    run2, es2 := TwoDeposits(0, 1);
    NewestOfTwo(run1[3].transactions);
    NewestOfTwo(run2[3].transactions);
    assert ForgetLog(History(run1[3].transactions, None, Some(1)))[0].amount == 1;
    assert ForgetLog(History(run2[3].transactions, None, Some(1)))[0].amount == 2;
  }
}
