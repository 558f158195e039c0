# Rabia: verified model

This project models the Rabia state machine replication system in Dafny and proves what
its parts guarantee over whole runs.

- **Weak MVC** (`Quorum`, `WeakMvc`, `WeakMvcInvariant`, `WeakMvcSafety`, `WeakMvcProgress`,
  `WeakMvcUnanimity`, `WeakMvcActions`).
  The randomized consensus protocol of `docs/weak_mvc.ivy`: six actions over any finite
  cluster and unboundedly many phases. Quorum intersection, an axiom of the protocol
  description, is derived from the cluster's quorum size. One inductive invariant is kept
  by every action, and agreement, validity, convergence and the exclusion of decisions and
  coins follow for every state of every run. So does that no state is stuck: any majority can
  go on by itself to a decision, and what all propose is what is decided. The actions are also written as methods that
  assign to the relations, each proved to be a step of the transition system.
- **Vote tally** (`Tally`). `PhaseData` and its counting loop: a tally returns a value
  exactly when a majority of the cluster recorded it, and tallies of votes cast in a run are
  protocol steps that bind every later phase.
- **Commit counter** (`CommitInterleaving`). The compare-exchange loop of `commit_phase`
  under every interleaving with other committers and with `advance_phase`, refined to an
  atomic maximum.
- **Replica** (`Replica`, `DecisionRuns`, `DecisionLog`, `SyncNetwork`, `SyncRestart`,
  `SyncRestore`). The engine's
  handlers for decisions, synchronisation, saving and restoring, as methods on an object;
  runs of decision messages in any order and number, with commands refused; and clusters of replicas over a
  network that delays, loses, duplicates and reorders, with crashes and restarts.
- **Batcher** (`Batcher`, `BatcherRuns`, `BatcherTiming`), **banking ledger** (`Banking`,
  `BankingRuns`, `BankingReplicas`, `BankingAnswers`, `NewestFirst`), **key-value store and
  notifications** (`Notifications`, `KvStore`, `KvBatch`, `KvReplay`, `KvDrops`, `KvReads`),
  **TCP framing** (`Framing`), **network simulator** (`Simulator`, `SimulatorInboxes`) and
  **network monitor** (`Monitor`): each an object with the source's methods, proved against a
  specification function of its state; laws of whole runs proved about that function; and
  what each operation answers, told from the history of the run.

Objects that the source changes in place are classes. Each method's postcondition equates
the object's new state with a specification function of its old state and its inputs; the
laws below are about those functions and about the runs they generate. A run is a sequence
of states in which each follows from the one before by one operation, chosen freely.

Inputs from outside are parameters: clock readings, generated ids, coin tosses, random
latency and loss, the order in which hash maps and hash sets are iterated, spurious
compare-exchange failures, commands the application refuses, and failures to save. A
handler of the engine is one atomic step. A node id is a number, a string stands for its
UTF-8 bytes, and u64 counters are taken below their limit.

Where the code differs from what its documentation suggests, the code is followed; where
that breaks a promise, the lemmas named show an input and say exactly when it happens:

- Adaptive sizing never changes a batch: the adaptive size cannot leave the configured
  maximum (`BatcherRuns.AdaptiveSizeNeverMoves`, `BatcherRuns.AdaptiveIsFixed`).
- The batch of a decision is applied before its commit can be refused, and the state machine
  may refuse a command midway; in both cases what was applied stays without being committed,
  and is applied again when the decision is repeated (`DecisionRuns.ExplainedIff`,
  `DecisionRuns.AppliedOnceIff`, `DecisionRuns.RefusedIsRepeated`,
  `DecisionRuns.AheadIsRepeated`).
- A decision overtaken by one of a later phase is never applied (`DecisionLog.FollowsLogIff`,
  `DecisionLog.OvertakenIsSkipped`).
- A replica that restarts in an earlier phase can be moved on by the answer to a request
  from before, with a state nobody held (`SyncRestart.MisleadingIff`,
  `SyncRestart.MisledByRestart`, `SyncRestart.RestartMisleads`).
- A subscriber to a key prefix does not see that the store was cleared
  (`KvReplay.PrefixListenerRebuildsIff`, `KvReplay.HiddenClear`).
- A batch of key-value operations is documented as atomic, but what ran before a failing
  operation stays (`KvBatch.AllOrNothingIff`, `KvBatch.HalfABatch`).
- A transfer adds to the receiving balance without an overflow check; the addition is
  modelled as wrapping, as in a release build (`BankingRuns.AddsUpIff`, `BankingRuns.ExactIff`,
  `BankingRuns.NonNegativeIff`,
  `BankingRuns.OverflowLosesMoney`).
- The transaction history is sorted by the replica's own clock, so replicas may answer
  differently (`BankingReplicas.HistoryAgreesIff`, `BankingReplicas.HistoryAnswersAgreeIff`,
  `BankingReplicas.HistoriesDiffer`).
- Two conjectures of the protocol description say nothing as written
  (`docs/weak_mvc.ivy:245` and `:356`); their evident intent is part of
  `WeakMvcSafety.DecisionExcludesCoin` and `WeakMvcSafety.StartedPhasesAreGood`.

`dafny verify dfyconfig.toml` checks the whole project.

## Model

| member | source | states |
|---|---|---|
| Quorum.MajoritiesIntersect | docs/weak_mvc.ivy:24-25 | any two majorities of n/2 + 1 nodes share a node, derived by counting |
| Quorum.MajorityMeetsFPlusOne | docs/weak_mvc.ivy:27-28 | a majority and an f+1 set share a node, derived by counting |
| Quorum.MeetsEveryMajorityIff | docs/weak_mvc.ivy:27-28 | a set of nodes meets every majority if and only if it has at least n - n/2 members |
| Quorum.QuorumSizeIsLeast | rabia-core/src/network.rs:14-15 | n/2 + 1 is the least size for which any two sets of that size meet, in every cluster |
| WeakMvcActions.Protocol.constructor | docs/weak_mvc.ivy:70-79 | all relations start empty |
| WeakMvcActions.Protocol.InitialProposal | docs/weak_mvc.ivy:81-90 | the assignments are exactly one protocol step: a node that has done nothing proposes |
| WeakMvcActions.Protocol.DecideFullVal | docs/weak_mvc.ivy:92-100 | the search finds a value common to the majority exactly if there is one and records it; otherwise nothing changes; either way an allowed step |
| WeakMvcActions.Protocol.DecideFullNoVal | docs/weak_mvc.ivy:102-107 | a node that decided reject records that no value is chosen, as an allowed step |
| WeakMvcActions.Protocol.InitialVote1 | docs/weak_mvc.ivy:109-128 | the node votes accept in phase zero if and only if the majority proposed one common value, and enters phase zero |
| WeakMvcActions.Protocol.PhaseRnd1 | docs/weak_mvc.ivy:129-143 | the node votes the value on which the majority's round-1 votes agree, or undecided exactly when there is none |
| WeakMvcActions.Protocol.PhaseRnd2 | docs/weak_mvc.ivy:145-191 | the nested searches take exactly the allowed outcome: decide, else adopt, else follow the coin, else flip it; the node moves to the next phase |
| WeakMvcActions.FPlusOneByCount | docs/weak_mvc.ivy:152-157 | some f+1 set inside the majority voted v if and only if at least f+1 of its members did |
| WeakMvcInvariant.InitialProposalKeeps | docs/weak_mvc.ivy:81-90 | proposing keeps the invariant |
| WeakMvcInvariant.DecideFullKeeps | docs/weak_mvc.ivy:92-107 | both full decisions keep the invariant |
| WeakMvcInvariant.InitialVote1Keeps | docs/weak_mvc.ivy:109-128 | the first vote keeps the invariant |
| WeakMvcInvariant.PhaseRnd1Keeps | docs/weak_mvc.ivy:129-143 | voting in round 2 keeps the invariant |
| WeakMvcInvariant.PhaseRnd2Keeps | docs/weak_mvc.ivy:145-191 | finishing a phase, by any of the four outcomes, keeps the invariant |
| WeakMvcInvariant.NextKeeps | docs/weak_mvc.ivy:198-298 | the invariant is inductive: every action keeps it |
| WeakMvcInvariant.RunInv | docs/weak_mvc.ivy:198-298 | every state of every run satisfies the invariant: one vote per node, phase and round; nobody ahead of its phase; every vote, decision and coin backed by its evidence |
| WeakMvcInvariant.RunGrows | docs/weak_mvc.ivy:70-191 | proposals, votes, decisions and coins are never taken back |
| WeakMvcInvariant.Vote2Agree | docs/weak_mvc.ivy:228 | two round-2 votes of one phase that are not undecided are equal |
| WeakMvcInvariant.SplitVote | docs/weak_mvc.ivy:139-141 | a majority that voted in round 1 without agreeing holds both values |
| WeakMvcInvariant.OutcomeSeen | docs/weak_mvc.ivy:152-188 | a node that only adopts a value also saw an undecided vote; one that follows or flips the coin saw nothing but undecided votes |
| WeakMvcSafety.Vote1WasVotedBefore | docs/weak_mvc.ivy:272 | a value voted in round 1 of a phase was voted in round 1 of the phase before, even when it came from the coin |
| WeakMvcSafety.BackedLocksNext | docs/weak_mvc.ivy:274 | an f+1 set voting v in round 2 locks the next phase on v |
| WeakMvcSafety.LockCarries | docs/weak_mvc.ivy:285 | a lock carries to every later phase, through round 2 and the coin |
| WeakMvcSafety.BackedAgree | docs/weak_mvc.ivy:294-296 | values backed by f+1 sets agree across phases |
| WeakMvcSafety.MajoritiesProposeOneValue | docs/weak_mvc.ivy:203 | two majorities cannot have proposed different values |
| WeakMvcSafety.Agreement | docs/weak_mvc.ivy:294-296 | any two binary decisions, by any nodes, in any phases, at any two moments of a run, are equal |
| WeakMvcSafety.LockPropagation | docs/weak_mvc.ivy:274-285 | a decision, whenever taken, locks every later phase on its value at every moment of the run |
| WeakMvcSafety.Validity | docs/weak_mvc.ivy:272 | a decided value was voted in phase zero; after an accept decision some majority and value enable the full decision |
| WeakMvcSafety.FullDecisionsAgree | docs/weak_mvc.ivy:203-214 | all full decisions return one value, a majority proposed it, and none coexists with a no-value decision |
| WeakMvcSafety.Convergence | docs/weak_mvc.ivy:276-285 | in a locked phase nobody votes undecided, no coin is flipped, all who left it decided its value, and the next to leave it must decide it |
| WeakMvcSafety.NextPhaseDecides | docs/weak_mvc.ivy:287-296 | once anyone decides v in a phase, everyone who finishes the next phase decides v in it |
| WeakMvcSafety.NoCoinAfterDecision | docs/weak_mvc.ivy:247-290 | from the phase of a decision on, no phase has a coin value |
| WeakMvcSafety.DecisionExcludesCoin | docs/weak_mvc.ivy:228-247 | decided round-2 votes of a phase agree; a coin means a full majority was undecided; no phase has both a decision and a coin |
| WeakMvcSafety.StartedPhasesAreGood | docs/weak_mvc.ivy:305-357 | every started phase is good: all earlier phases started, and it is locked on whatever they decided or were locked on |
| WeakMvcProgress.RunWalks | docs/weak_mvc.ivy:81-191 | in every state of every run a node that has started is in some phase and has voted in both rounds of every phase before |
| WeakMvcProgress.PassPhase | docs/weak_mvc.ivy:129-191 | the slowest members of a majority can pass their phase by themselves, all leaving it with one value |
| WeakMvcProgress.DecideTogether | docs/weak_mvc.ivy:129-162 | a majority that enters a phase voting alike can decide that value in it |
| WeakMvcProgress.NonBlocking | docs/weak_mvc.ivy:81-191 | every run can be continued, by actions of any given majority alone and with a suitable coin, until all its members have decided one value |
| WeakMvcUnanimity.UnanimousVotesAccept | docs/weak_mvc.ivy:109-128 | if all nodes proposed one value before anyone voted, every vote of round 1 in phase zero accepts at every later moment |
| WeakMvcUnanimity.UnanimousDecides | docs/weak_mvc.ivy:92-128 | then only acceptance is ever decided, only that value is returned in full, and never that there is none |
| WeakMvcUnanimity.NoMajorityRejects | docs/weak_mvc.ivy:117-125 | as long as no majority proposed one value, every round-1 vote and every decision of every phase rejects |
| WeakMvcUnanimity.ProposalsFixed | docs/weak_mvc.ivy:81-90 | once a node has voted its proposal never changes |
| WeakMvcUnanimity.VotersProposed | docs/weak_mvc.ivy:109-115 | a node that voted has proposed |
| WeakMvcUnanimity.MajoritySettles | docs/weak_mvc.ivy:92-107 | every run can be continued by any majority alone until all its members have decided one value and returned it in full, a value a majority proposed or none |
| Tally.PhaseData.constructor | rabia-core/src/messages.rs:152-167 | a phase starts without votes, decision or commitment |
| Tally.PhaseData.AddRound1Vote | rabia-core/src/messages.rs:169-171 | the voter's round-1 vote is recorded, replacing an earlier one; nothing else changes |
| Tally.PhaseData.AddRound2Vote | rabia-core/src/messages.rs:173-175 | the same for round 2 |
| Tally.PhaseData.HasRound1Majority | rabia-core/src/messages.rs:177-179 | returns the tally of the round-1 votes |
| Tally.PhaseData.HasRound2Majority | rabia-core/src/messages.rs:181-183 | returns the tally of the round-2 votes |
| Tally.PhaseData.SetDecision | rabia-core/src/messages.rs:217-222 | the decision is recorded; the phase is committed from the first decision that is not undecided on |
| Tally.CountVotes | rabia-core/src/messages.rs:185-211 | the loop, visiting votes in any order, returns the first of reject, accept, undecided whose voters reach the quorum |
| Tally.ReachesIffMajority | rabia-core/src/messages.rs:185-211 | a value's voters reach the quorum if and only if some majority of the cluster all recorded it |
| Tally.TallyIffMajority | rabia-core/src/messages.rs:177-211 | a tally returns v if and only if some majority all recorded v, in whatever order the values are tested |
| Tally.TalliesAgree | rabia-core/src/messages.rs:177-211 | nodes that recorded different parts of one vote assignment never count different majorities, and the whole assignment counts the same |
| Tally.Round1TallyIsEnabled | docs/weak_mvc.ivy:129-143 | voting on a round-1 tally of votes cast in a run is a protocol step, with a majority for a value and without |
| Tally.Round2TallyIsBinding | docs/weak_mvc.ivy:274-296 | a decided round-2 tally agrees with every decided tally and every decision of the run, in any phase, and locks every later phase |
| CommitInterleaving.StepShape | rabia-engine/src/state.rs:65-103 | one access changes at most one call, and raises the committed phase exactly together with that call's `Ok(true)` |
| CommitInterleaving.StepKeeps | rabia-engine/src/state.rs:59-103 | every access to a shared counter keeps the invariant of calls and counters |
| CommitInterleaving.StepRefines | rabia-engine/src/state.rs:59-103 | each access to a shared counter is one step of the atomic maximum, or none |
| CommitInterleaving.Linearizable | rabia-engine/src/state.rs:59-103 | under every interleaving, spurious failures included, every call takes effect at one instant |
| CommitInterleaving.CommittedIsMaximum | rabia-engine/src/state.rs:65-103 | the committed phase is at all times the maximum of its first value and the accepted phases, and stays within the current phase |
| CommitInterleaving.RaisedExactlyWhenRaising | rabia-engine/src/state.rs:88-101 | `Ok(true)` goes exactly to the calls that raised the committed phase, each to its own phase, no two calls for the same phase |
| CommitInterleaving.FailureMeansProgress | rabia-engine/src/state.rs:92-98 | a strong compare-exchange fails exactly when another call has raised the committed phase beyond what was seen; the failing call ends with its phase reached, or retries strictly closer to it |
| CommitInterleaving.LoopIsBounded | rabia-engine/src/state.rs:80-99 | without spurious failures a call for phase p fails at most as often as p exceeds the first committed phase, and fewer times while it goes on trying |
| CommitInterleaving.BoundIsMet | rabia-engine/src/state.rs:80-99 | for every phase and every first committed phase below it, a run in which a call fails exactly that often |
| Replica.Engine.constructor | rabia-engine/src/state.rs:32-49 | a new replica starts at phase zero over whatever was saved |
| Replica.Engine.AdvancePhase | rabia-engine/src/state.rs:59-63 | the current phase rises by one and is returned |
| Replica.Engine.CompareExchangeWeak | rabia-engine/src/state.rs:81-86 | the exchange succeeds only on the expected value, may fail spuriously, and reports the actual value |
| Replica.Engine.CommitPhase | rabia-engine/src/state.rs:65-103 | errors exactly beyond the current phase, changing nothing; otherwise the committed phase becomes the larger of the two, and the result tells whether it rose, whatever number of spurious failures |
| Replica.Engine.SaveState | rabia-engine/src/engine.rs:156-182 | both counters and a snapshot are saved; nothing else changes |
| Replica.Engine.InitializeFromSaved | rabia-engine/src/engine.rs:238-269 | counters and machine come back as saved, if anything was saved |
| Replica.Engine.ApplyCommands | rabia-engine/src/engine.rs:684-706 | the machine is extended by the commands up to the first refused one |
| Replica.Engine.HandleDecisionMessage | rabia-engine/src/engine.rs:708-746 | the whole effect of a decision: batch, commit and save in that order, with what each failure leaves behind |
| Replica.Engine.HandleSyncRequestMessage | rabia-engine/src/engine.rs:748-782 | the response names the responder's phase and carries its machine exactly when that phase is beyond the requester's |
| Replica.Engine.LatestResponse | rabia-engine/src/engine.rs:813-816 | the scan finds a response of the largest phase |
| Replica.Engine.HandleSyncResponseMessage | rabia-engine/src/engine.rs:784-844 | the response is stored; with a quorum of them the latest is adopted if it is ahead, and all are forgotten; the committed phase does not move |
| Replica.Engine.InitiateSync | rabia-engine/src/engine.rs:889-907 | every active node but this one is asked, with the current phase |
| Replica.Engine.SendHeartbeat | rabia-engine/src/engine.rs:866-881 | a heartbeat carries both counters |
| DecisionRuns.CommittedTracks | rabia-engine/src/engine.rs:708-746 | in every run, refusals included, the committed phase is the largest phase of a decision that went through (whole batch taken, phase reached), or its first value |
| DecisionRuns.OutcomeTells | rabia-engine/src/engine.rs:684-746 | the handler fails exactly when a due decision does not go through, on a refused command before a phase ahead |
| DecisionRuns.MachineIsApplied | rabia-engine/src/engine.rs:684-746 | in every run the machine is extended by just the commands taken, refused batches contributing the part before the refusal |
| DecisionRuns.AppliedAreRecords | rabia-engine/src/engine.rs:708-746 | while whatever takes effect goes through, the batches applied are exactly those of decisions that go through beyond every earlier one |
| DecisionRuns.DecisionsApplyInOrder | rabia-engine/src/engine.rs:708-746 | under the same condition, duplicated, reordered deliveries apply in strictly increasing phase order, at most once per phase, extend the machine by exactly themselves, and the committed phase is the last applied |
| DecisionRuns.ExplainedIff | rabia-engine/src/engine.rs:684-746 | that order, extension and commit hold throughout a run if and only if no batch left commands behind that was refused midway or was ahead of the replica |
| DecisionRuns.AppliedOnceIff | rabia-engine/src/engine.rs:728-735 | a due decision delivered twice, with refusals or without, is applied once and committed if and only if it goes through at once, or leaves nothing behind at first and goes through the second time |
| DecisionRuns.RefusedIsRepeated | rabia-core/src/state_machine.rs:35-41 | a run in which the second command of a batch is refused twice: the first is applied twice and nothing committed |
| DecisionRuns.AheadIsRepeated | rabia-engine/src/engine.rs:728-735 | a run in which a decision ahead of the replica is applied twice and not committed |
| DecisionLog.FollowsLogIff | rabia-engine/src/engine.rs:708-746 | while whatever takes effect goes through, what a replica applied is the decided log up to its committed phase if and only if no decision took effect while one of a smaller phase was missing |
| DecisionLog.AlwaysFollowsIff | rabia-engine/src/engine.rs:708-746 | it is the decided log throughout a run if and only if whatever takes effect goes through and nothing is skipped |
| DecisionLog.OvertakenIsSkipped | rabia-engine/src/engine.rs:724-729 | a run in which phase 2 is delivered before phase 1 and phase 1 is lost |
| DecisionLog.ReplicasFollowLog | rabia-engine/src/engine.rs:708-746 | replicas that skipped nothing and committed equally far hold the same machine, namely the decided log |
| SyncNetwork.CountersStayOrdered | rabia-core/src/validation.rs:103-114 | in every run, restarts included, committed stays within current on every replica and in every heartbeat ever sent, which so passes the receiver's check |
| SyncNetwork.PhaseNeverDrops | rabia-engine/src/engine.rs:806-844 | between its restarts a replica's current phase never drops |
| SyncNetwork.AnswerIsMeaningful | rabia-engine/src/engine.rs:748-782 | a response either carries a snapshot its sender held in that phase or answers a request from no earlier phase |
| SyncNetwork.ResponsesStayMeaningful | rabia-engine/src/engine.rs:748-804 | in every run, restarts included, every response under way or stored keeps that meaning |
| SyncNetwork.SyncRaises | rabia-engine/src/engine.rs:806-844 | a sync that changes the phase raises it to that of the chosen response |
| SyncNetwork.SnapshotsAreHeld | rabia-engine/src/engine.rs:748-844 | in every run, restarts included, a phase and machine adopted from a snapshot are a pair the responder held |
| SyncNetwork.SyncIsSafe | rabia-engine/src/engine.rs:748-844 | over an asynchronous network, whenever a sync changes a replica's phase, the chosen response carried a snapshot and the new phase and machine are a pair the responder really held, if each restart of the replica restored a phase at least that of its requests; others restart freely |
| SyncRestart.MisleadingIff | rabia-engine/src/engine.rs:748-844 | a replica holding no responses, as after a restart, can be moved on without a snapshot in some continuation if and only if it is behind a phase for which such a response can still reach it and a quorum can answer without exceeding that phase |
| SyncRestart.CaughtUpIsSafe | rabia-engine/src/engine.rs:889-907 | a replica in the phase of all its requests is not in that danger |
| SyncRestart.MisledByRestart | rabia-engine/src/engine.rs:238-269 | in any run, restarts anywhere, a sync without a snapshot goes back to a restart of that replica behind a request for the phase it moves to |
| SyncRestart.RestartMisleads | rabia-engine/src/engine.rs:238-269 | a run of three replicas with a quorum of two in which one asks in phase 5, restarts in phase 2 and ends in phase 5 with a machine the chosen responder never held |
| SyncRestore.SaveRestores | rabia-engine/src/engine.rs:156-269 | saving and restarting brings back both counters and the machine |
| SyncRestore.RestartRestores | rabia-engine/src/engine.rs:238-269 | in a run that starts with nothing saved, a restart puts a replica back in the phase, committed phase and machine it held when it last saved, or at the beginning |
| SyncRestore.SavedIsLast | rabia-engine/src/engine.rs:737-740 | what is saved is what the replica held after its last commit for which saving worked |
| SyncRestore.CountersMoveOnlyBy | rabia-engine/src/engine.rs:708-887 | between restarts the committed phase moves only by a decision that goes through, to its phase, and never by a sync; the current phase only by an advance, by one, or by a sync |
| SyncRestore.ResponsesBelowQuorum | rabia-engine/src/engine.rs:784-844 | responses are gathered up to the quorum and then forgotten |
| SyncRestore.PacketsAreTruthful | rabia-engine/src/engine.rs:748-907 | every heartbeat carries counters its sender had at one moment, every request and response a phase its sender was in |
| SyncRestore.BeatsReachPeers | rabia-engine/src/engine.rs:866-881 | a heartbeat goes to every peer with both counters and passes the check |
| SyncRestore.AcceptedIffOrdered | rabia-core/src/validation.rs:103-114 | a heartbeat is accepted if and only if its committed phase does not exceed its current one |
| Batcher.CommandBatcher.constructor | rabia-core/src/batching.rs:60-70 | a new batcher is empty and its adaptive size is the configured maximum |
| Batcher.CommandBatcher.Add | rabia-core/src/batching.rs:73-94 | the whole effect of an addition: refusal when full, flush by size, flush by time, or buffering |
| Batcher.CommandBatcher.FlushNow | rabia-core/src/batching.rs:97-103 | nothing for an empty buffer, otherwise one batch |
| Batcher.CommandBatcher.Reconfigure | rabia-core/src/batching.rs:111-114 | the configuration is replaced and the adaptive size reset to its maximum |
| Batcher.CommandBatcher.DoFlush | rabia-core/src/batching.rs:126-140 | up to one batch size leaves from the front of the buffer and is counted |
| Batcher.CommandBatcher.AdjustSize | rabia-core/src/batching.rs:150-165 | the growing and shrinking branches, with the source's truncations and bounds |
| BatcherRuns.AdaptiveSizeNeverMoves | rabia-core/src/batching.rs:150-165 | in every run timeouts never exceed batches and the adaptive size equals the configured maximum, so neither branch is ever taken |
| BatcherRuns.StepIgnoresAdaptive | rabia-core/src/batching.rs:73-165 | switching adaptation off commutes with every operation and changes no emitted batch |
| BatcherRuns.AdaptiveIsFixed | rabia-core/src/batching.rs:73-165 | batchers that differ only in their adaptive flags, given the same operations and clocks, reconfiguration included, emit identical batches |
| BatcherRuns.StepMovesCommands | rabia-core/src/batching.rs:73-140 | an operation moves commands from caller to buffer's back and from its front to the batch, and nothing else |
| BatcherRuns.CommandsConserved | rabia-core/src/batching.rs:43-140 | emitted batches followed by the buffer are the accepted commands in order; attempts = emitted + buffered + dropped |
| BatcherRuns.FlushEmpties | rabia-core/src/batching.rs:97-140 | without overflow a flush, and every emitted batch, empties the buffer, and batches are neither empty nor over the maximum |
| BatcherRuns.NothingDroppedIff | rabia-core/src/batching.rs:74-78 | a configuration drops no command in any run if and only if its sizes are positive and the buffer holds a batch or the delay is zero |
| BatcherTiming.AddEmitsIff | rabia-core/src/batching.rs:73-94 | an addition is refused exactly when the buffer is full; otherwise it emits exactly when the buffer then holds a full batch or the delay since the last batch is over, and emits the front of the buffer up to the maximum |
| BatcherTiming.FlushEmitsIff | rabia-core/src/batching.rs:97-140 | a flush emits the front of the buffer up to the maximum unless it is empty; a reconfiguration emits nothing |
| BatcherTiming.BooksKept | rabia-core/src/batching.rs:73-165 | configuration, time of the last batch, number of batches and of timeouts are those of the run |
| BatcherTiming.FirstDelay | rabia-core/src/batching.rs:60-70 | the first delay counts from the creation of the batcher |
| BatcherTiming.AdjustMoves | rabia-core/src/batching.rs:150-165 | when and by how much the adaptive size would move, from any state |
| Banking.BankingSMR.constructor | examples/banking_smr/src/lib.rs:205-210 | a new ledger is empty |
| Banking.BankingSMR.ApplyCommand | examples/banking_smr/src/lib.rs:273-476 | the whole effect and the answer of every command, with the order of its checks |
| Banking.BankingSMR.TotalValue | examples/banking_smr/src/lib.rs:227-233 | returns the sum of all balances in 64-bit arithmetic |
| Banking.SumBalances | examples/banking_smr/src/lib.rs:227-233 | the loop computes that sum whatever the order of the accounts |
| BankingRuns.TransferConservesIff | examples/banking_smr/src/lib.rs:375-425 | a transfer that passes its checks keeps the total if and only if its unchecked addition fits in 64 bits |
| BankingRuns.StepTotalIff | examples/banking_smr/src/lib.rs:273-476 | a command moves the total by what it creates, deposits or withdraws if and only if it is no overflowing transfer |
| BankingRuns.AddsUpIff | examples/banking_smr/src/lib.rs:273-425 | the balances of a run equal openings plus logged deposits minus logged withdrawals throughout if and only if no transfer overflowed |
| BankingRuns.NonNegativeIff | examples/banking_smr/src/lib.rs:273-425 | no balance is ever negative in a run if and only if no transfer overflowed |
| BankingRuns.MoneyConserved | examples/banking_smr/src/lib.rs:227-425 | while the money introduced fits in 64 bits, no balance is negative and the balances add up |
| BankingRuns.NoOverflow | examples/banking_smr/src/lib.rs:227-425 | under that bound neither the next transfer nor any partial sum of balances overflows |
| BankingRuns.LedgerReconciles | examples/banking_smr/src/lib.rs:71-425 | in every run each balance is its opening plus the log entries naming it in 64-bit arithmetic, each transaction count their number, and no entry names an unknown account |
| BankingRuns.ExactIff | examples/banking_smr/src/lib.rs:71-425 | balances are exactly opening plus entries throughout a run if and only if no transfer overflowed |
| BankingRuns.LedgerReconcilesExactly | examples/banking_smr/src/lib.rs:71-425 | in particular while the money introduced fits in 64 bits |
| BankingRuns.OverflowLosesMoney | examples/banking_smr/src/lib.rs:375-425 | a run from the empty ledger whose transfer wraps, so that neither the total nor the balance is explained |
| BankingReplicas.StepForgets | examples/banking_smr/src/lib.rs:273-476 | dropping timestamps and ids commutes with every command |
| BankingReplicas.ReplicasAgree | examples/banking_smr/src/lib.rs:273-476 | replicas running the same commands with any clocks and id generators agree on all but timestamps and ids |
| BankingReplicas.AnswersAgree | examples/banking_smr/src/lib.rs:273-476 | and so do their answers to every command but the transaction history |
| NewestFirst.OrderIsRanked | examples/banking_smr/src/lib.rs:464-465 | the sort is a permutation, newest first and stable: each entry stands behind exactly those that precede it |
| NewestFirst.TakesAgreeIff | examples/banking_smr/src/lib.rs:464-470 | two truncated sorts agree place by place if and only if every entry either shows has equally many entries to stand behind in both |
| BankingReplicas.HistoryAgreesIff | examples/banking_smr/src/lib.rs:449-473 | replicas show the same log entries in the same order if and only if their clocks rank the entries shown alike; then the answers agree up to timestamps and ids |
| NewestFirst.LabelsAgreeIff | examples/banking_smr/src/lib.rs:464-470 | two truncated sorts show alike entries if and only if whatever they rank alike among those shown is alike |
| BankingReplicas.HistoryAnswersAgreeIff | examples/banking_smr/src/lib.rs:449-473 | the history answers agree up to timestamps and ids if and only if entries that the two clocks rank alike among those shown are alike |
| BankingReplicas.HistoriesDiffer | examples/banking_smr/src/lib.rs:464-470 | two runs of the same commands, no clock going backwards, whose latest entries differ |
| BankingAnswers.WithdrawAnswers | examples/banking_smr/src/lib.rs:338-373 | in any run a withdrawal pays exactly when amount, account and what the log says it holds allow, answers what is left and logs it; otherwise which error, and nothing changes |
| BankingAnswers.DepositAnswers | examples/banking_smr/src/lib.rs:301-336 | the same for deposits, refused exactly when the sum exceeds 64 bits |
| BankingAnswers.TransferAnswers | examples/banking_smr/src/lib.rs:375-425 | the same for transfers |
| BankingAnswers.CreateAnswers | examples/banking_smr/src/lib.rs:277-299 | the same for new accounts |
| BankingAnswers.WithdrawSucceedsIff | examples/banking_smr/src/lib.rs:338-373 | without overflow, a withdrawal succeeds if and only if opening balance and log entries add up to the amount |
| BankingAnswers.DepositSucceedsIff | examples/banking_smr/src/lib.rs:301-336 | without overflow, a deposit succeeds if and only if the sum with them fits |
| BankingAnswers.QueriesAnswer | examples/banking_smr/src/lib.rs:427-445 | balance and account queries succeed exactly for opened accounts and tell balance, count and times as the history of the run has them |
| BankingAnswers.ListingAnswers | examples/banking_smr/src/lib.rs:444-447 | the listing holds every opened account, as the history has it, and nothing else |
| BankingAnswers.OperationsCounted | examples/banking_smr/src/lib.rs:273-276 | every command is counted, whatever it answers |
| BankingAnswers.MatchingConcat | examples/banking_smr/src/lib.rs:450-461 | which entries the history filters does not depend on the others |
| BankingAnswers.MatchingOne | examples/banking_smr/src/lib.rs:450-461 | an entry is filtered for exactly the accounts it names |
| BankingAnswers.HistoryShows | examples/banking_smr/src/lib.rs:449-473 | the history shows those entries newest first, each at the place its rank says, as many as there are or the limit allows |
| Notifications.AndSelectsInTurn | rabia-kvstore/src/notifications.rs:79-88 | a conjunction of any filters selects from a stream what its members select one after the other |
| Notifications.OrSelectsAny | rabia-kvstore/src/notifications.rs:79-88 | a disjunction lets through exactly what one of its members does |
| Notifications.SimpleFiltersSelect | rabia-kvstore/src/notifications.rs:79-88 | what the filters for everything, a key, a prefix and a kind of change let through |
| Notifications.SelectCounts | rabia-kvstore/src/notifications.rs:210-218 | what is let through is let through as often as it occurs |
| Notifications.NotificationBus.constructor | rabia-kvstore/src/notifications.rs:131-139 | a new bus has published nothing and has no subscribers |
| Notifications.NotificationBus.AddSubscriber | rabia-kvstore/src/notifications.rs:142-166 | a fresh subscriber starts with an empty inbox and is counted |
| Notifications.NotificationBus.RemoveSubscriber | rabia-kvstore/src/notifications.rs:189-196 | the subscriber is gone; the count falls only if it was there |
| Notifications.NotificationBus.Send | rabia-kvstore/src/notifications.rs:199-235 | the stream grows by the notification, every matching open subscriber receives it, and closed ones are counted as dropped |
| Notifications.Deliver | rabia-kvstore/src/notifications.rs:212-231 | the loop, visiting subscribers in any order, delivers to exactly the matching open ones and counts exactly the matching closed ones |
| KvStore.KVStore.constructor | rabia-kvstore/src/store.rs:126-142 | a new store is empty |
| KvStore.KVStore.SetKey | rabia-kvstore/src/store.rs:144-188 | the whole effect of a set: checks, entry and version, and the notification with the old value |
| KvStore.KVStore.GetKey | rabia-kvstore/src/store.rs:191-199 | the value if present; only the operation count changes |
| KvStore.KVStore.DeleteKey | rabia-kvstore/src/store.rs:217-251 | the key is gone, and its old value is announced if it was there |
| KvStore.KVStore.KeyExists | rabia-kvstore/src/store.rs:254-262 | whether the key is present; only the operation count changes |
| KvStore.KVStore.ClearAll | rabia-kvstore/src/store.rs:287-311 | the store is empty, announced only if it was not before |
| KvStore.KVStore.Publishes | rabia-kvstore/src/store.rs:459-462 | a notification takes the current version and the version advances |
| KvStore.KVStore.OperateOn | rabia-kvstore/src/store.rs:319-341 | one batch operation has the effect and result of the corresponding call |
| KvStore.KVStore.ApplyAll | rabia-kvstore/src/store.rs:314-348 | operations run in order up to the first failure; what ran before it stays |
| KvStore.FailedBatchStops | rabia-kvstore/src/store.rs:314-348 | once a prefix of a batch failed, the rest of the batch has no effect |
| KvBatch.OperateForeseen | rabia-kvstore/src/store.rs:144-262 | whether an operation is refused, and the keys it leaves, can be told from the keys before |
| KvBatch.OperateWritesIff | rabia-kvstore/src/store.rs:144-262 | an accepted operation changes the data if and only if it sets a key or deletes one that is there; each change is announced once |
| KvBatch.BatchForeseen | rabia-kvstore/src/store.rs:314-348 | whether a batch fails, the keys it leaves and whether it wrote are as foreseen from keys and batch |
| KvBatch.AllOrNothingIff | rabia-kvstore/src/store.rs:312-348 | with notifications a batch is all or nothing if and only if no operation is refused or none before the refused one writes |
| KvBatch.NeverVisibleIff | rabia-kvstore/src/store.rs:312-348 | the same condition decides, with or without notifications, whether a failing batch ever showed a partial result |
| KvBatch.HalfABatch | rabia-kvstore/src/store.rs:314-348 | a set followed by an operation without a key fails and leaves the set |
| KvReplay.SetMirrors | rabia-kvstore/src/store.rs:144-188 | a set keeps the stream and the data in step |
| KvReplay.DeleteMirrors | rabia-kvstore/src/store.rs:217-251 | a delete keeps the stream and the data in step |
| KvReplay.ClearMirrors | rabia-kvstore/src/store.rs:287-311 | a clear keeps the stream and the data in step |
| KvReplay.BatchMirrors | rabia-kvstore/src/store.rs:314-348 | a batch, failed or not, keeps the stream and the data in step |
| KvReplay.ReplayRebuildsStore | rabia-kvstore/src/store.rs:144-348 | in every state of every run, replaying the stream over an empty map gives the store's values and entry versions, and every notification described what was replayed before it |
| KvReplay.VersionsCount | rabia-kvstore/src/store.rs:459-462 | notification versions count up from zero without gaps, and each old value is the replayed one |
| KvReads.ReadsAnswer | rabia-kvstore/src/store.rs:191-262 | in any run a get and an existence check answer what the replayed stream holds, refuse exactly the keys not allowed, and change nothing but the count |
| KvReads.DeleteAnswers | rabia-kvstore/src/store.rs:217-251 | a delete answers whether the replayed stream held the key |
| KvReads.SetAnswers | rabia-kvstore/src/store.rs:144-188 | when a set succeeds, told from the replayed stream, and otherwise which error |
| KvReads.OperateWritesValues | rabia-kvstore/src/store.rs:144-262 | an accepted operation writes its own key and no other |
| KvReads.BatchAnswers | rabia-kvstore/src/store.rs:314-348 | a batch that succeeds answers each operation as if those before it had been applied one by one |
| KvReads.BatchWritesValues | rabia-kvstore/src/store.rs:314-348 | and leaves the values they wrote |
| KvReads.SetStamps | rabia-kvstore/src/store.rs:54-80 | value, size, version and times of an entry after a set; the other entries are left alone |
| KvReads.BatchCounted | rabia-kvstore/src/store.rs:453-457 | a batch that succeeds counts each of its operations, one that fails no more than that |
| KvReads.ClearEmpties | rabia-kvstore/src/store.rs:287-311 | after a clear every key reads as absent |
| KvReads.AnnouncedNow | rabia-kvstore/src/store.rs:144-311 | an operation publishes at most one notification, with its own time, and none when notifications are disabled |
| KvReads.DecimalReads | rabia-kvstore/src/store.rs:294-305 | the number of keys that a clear announces can be read back |
| KvReads.SubscribersCounted | rabia-kvstore/src/notifications.rs:142-196 | the bus counts as many subscribers as it has |
| KvReplay.SubscriberReceivesSelection | rabia-kvstore/src/notifications.rs:142-235 | from subscribing to leaving or closing, a subscriber's inbox is exactly what its filter selects from the stream, in order |
| KvDrops.ClosedInboxStays | rabia-kvstore/src/notifications.rs:199-235 | after a subscriber closed its receiver its inbox stays what its filter selected up to then, until it is removed |
| KvDrops.DroppedAreMissed | rabia-kvstore/src/notifications.rs:199-235 | in every run the bus counts as dropped exactly the deliveries to closed subscribers |
| KvDrops.MissedBySubscriber | rabia-kvstore/src/notifications.rs:199-235 | each closed subscriber adds to that count exactly what its filter selects from the stream |
| KvDrops.LeavingEnds | rabia-kvstore/src/notifications.rs:189-196 | after unsubscribing nothing is kept for the subscription until its id subscribes again |
| KvReplay.PrefixListenerRebuilds | rabia-kvstore/src/notifications.rs:79-88 | a prefix subscriber present from the start rebuilds from its inbox the store restricted to its prefix, if no clear was hidden from it |
| KvReplay.HiddenClear | rabia-kvstore/src/store.rs:287-311 | a concrete run, a subscription, a set and a clear, after which the inbox of the prefix subscriber is wrong |
| KvReplay.PrefixListenerRebuildsIff | rabia-kvstore/src/notifications.rs:79-88 | every prefix subscriber can rebuild its keys from its inbox in every run if and only if "*" has its prefix, or no valid key has, or the store holds no keys |
| Framing.U32RoundTrip | rabia-engine/src/network/tcp.rs:143-148 | a length survives its four little-endian bytes |
| Framing.U32Canonical | rabia-engine/src/network/tcp.rs:155-160 | and four bytes survive being read as a length |
| Framing.FromIsLittleEndian | rabia-engine/src/network/tcp.rs:143-160 | the length is read with its least significant byte first |
| Framing.AcceptedLengths | rabia-engine/src/network/tcp.rs:123-140 | a payload of up to 16 MiB, and no longer one, makes a frame, whose length field is its length |
| Framing.ReadTells | rabia-engine/src/network/tcp.rs:151-179 | which of the three errors or which frame a reader finds is told by the first four bytes and how many follow |
| Framing.Reader.constructor | rabia-engine/src/network/tcp.rs:151-154 | a reader starts before its first byte |
| Framing.Reader.ReadExact | rabia-engine/src/network/tcp.rs:168-175 | the buffer is filled with exactly the next bytes if and only if there are enough |
| Framing.Reader.ReadU32Le | rabia-engine/src/network/tcp.rs:155-160 | four bytes are read as a little-endian number if there are four |
| Framing.ReadFrame | rabia-engine/src/network/tcp.rs:151-179 | reads length and payload step by step; result and remaining stream are those of the specification, each error in its place |
| Framing.WriteFrame | rabia-engine/src/network/tcp.rs:143-148 | the buffer holds the length and then the payload |
| Framing.FrameRoundTrip | rabia-engine/src/network/tcp.rs:128-179 | an encoded frame is read back exactly, leaving the rest of the stream |
| Framing.FrameCanonical | rabia-engine/src/network/tcp.rs:128-179 | whatever is read as a frame is the encoding of its payload, and creating that frame succeeds |
| Framing.SameLengthsAccepted | rabia-engine/src/network/tcp.rs:128-166 | creating and reading a frame accept the same lengths and refuse the same as too large |
| Framing.StreamRoundTrip | rabia-engine/src/network/tcp.rs:143-179 | decoding a concatenation of encoded frames gives exactly the payloads, then finds the stream at its end |
| Framing.TruncatedStream | rabia-engine/src/network/tcp.rs:151-179 | decoding any prefix of it gives exactly the payloads of the frames that arrived whole, then reports missing bytes |
| Simulator.NetworkSimulator.constructor | rabia-testing/src/network_sim.rs:88-97 | a new simulator is empty |
| Simulator.NetworkSimulator.AreNodesPartitioned | rabia-testing/src/network_sim.rs:188-204 | the loop finds whether some active partition holds exactly one of the two nodes |
| Simulator.NetworkSimulator.SendMessage | rabia-testing/src/network_sim.rs:138-186 | a message is counted as sent and then dropped by partition, dropped by loss, or queued with its delivery time |
| Simulator.NetworkSimulator.DeliverPendingMessages | rabia-testing/src/network_sim.rs:274-301 | the loop delivers due messages from the front until one is not due |
| Simulator.NetworkSimulator.CleanupExpiredPartitions | rabia-testing/src/network_sim.rs:303-317 | exactly the unexpired partitions remain, in order |
| Simulator.CleanupIsInvisible | rabia-testing/src/network_sim.rs:188-317 | removing expired partitions changes no later answer about who is partitioned |
| Simulator.DeliverTakesDuePrefix | rabia-testing/src/network_sim.rs:274-301 | a delivery takes the front of the queue in order and stops at the first message not due |
| Simulator.QueueIsFifo | rabia-testing/src/network_sim.rs:138-301 | despite random latency, messages leave the queue in exactly the order they were accepted |
| Simulator.NothingLeavesEarly | rabia-testing/src/network_sim.rs:138-301 | the k-th message to leave in a run is the k-th accepted, and leaves no earlier than its own delivery time |
| Simulator.OnlyTheUndueWait | rabia-testing/src/network_sim.rs:274-301 | after a delivery the first accepted message still waiting is not due |
| Simulator.MessagesAccounted | rabia-testing/src/network_sim.rs:138-301 | between operations sent = delivered + dropped + pending + lost for want of a receiver, each counted once |
| SimulatorInboxes.SendQueuesIff | rabia-testing/src/network_sim.rs:138-204 | a message is queued with its delivery time unless it is lost or a partition that has not run out holds exactly one of its ends |
| SimulatorInboxes.UnexpiredAre | rabia-testing/src/network_sim.rs:303-317 | cleaning up keeps exactly the partitions that have not run out |
| SimulatorInboxes.DeliverFills | rabia-testing/src/network_sim.rs:274-301 | a delivery gives each listening node what is due for it, in order, and the others nothing |
| SimulatorInboxes.DeliverAccounts | rabia-testing/src/network_sim.rs:284-289 | the statistics grow by the messages that found a receiver, their sizes and how late each was |
| SimulatorInboxes.InboxIsDue | rabia-testing/src/network_sim.rs:99-301 | from being added to being removed or closed, a node's inbox is exactly what became due for it, in order of delivery |
| SimulatorInboxes.ClosedInboxStays | rabia-testing/src/network_sim.rs:284-293 | a closed receiver's inbox does not change until its node is added anew |
| SimulatorInboxes.PartitionedIff | rabia-testing/src/network_sim.rs:119-317 | over a run two nodes are kept apart exactly by a partition created since the last healing that has not run out and holds one of them; cleaning up makes no difference |
| SimulatorInboxes.NodesAreKnown | rabia-testing/src/network_sim.rs:99-112 | a node is known exactly between being added and being removed |
| Monitor.NetworkMonitor.constructor | rabia-core/src/network.rs:73-82 | all configured nodes count as connected at first |
| Monitor.NetworkMonitor.UpdateConnectedNodes | rabia-core/src/network.rs:84-116 | the events list each newly connected and each newly disconnected node once, then the change of quorum, then the new view if it changed |
| Monitor.QuorumIsMajority | rabia-core/src/network.rs:14-25 | a quorum is more than half of the configured nodes |
| Monitor.QuorumsMeet | rabia-core/src/network.rs:14-25 | two views of the cluster with a quorum share a node |
| Monitor.FollowUpdate | rabia-core/src/network.rs:84-116 | following the events of one update leads from the old view to the new one and from the old quorum to the new one |
| Monitor.EventsReplay | rabia-core/src/network.rs:84-116 | over any run, following the events gives the connected set, and quorum losses and restorations strictly alternate and tell whether more than half of the configured nodes are connected |
| Monitor.ViewsReplay | rabia-core/src/network.rs:106-111 | every change of the view is announced by one partition event, which names the view |
| Monitor.RestorationsNameQuorums | rabia-core/src/network.rs:100-104 | a restoration names a view the monitor took, with more than half of the configured nodes |

## Left out

- Round-1 and round-2 vote handlers of the engine: phase entries are never created, so recording a vote has no effect there, and a node may send its round-2 vote again with another random value; that recorded votes were cast in a protocol run is a hypothesis of `Tally.Round1TallyIsEnabled` and `Tally.Round2TallyIsBinding`.
- Randomisation of votes: the coin is a free choice; probabilities and termination with probability one are not modelled.
- SyncNetwork.SyncIsSafe: its condition on restarts is sufficient for whole runs, and `SyncRestart.MisledByRestart` says what every failure goes back to; the condition that is both necessary and sufficient is that of `SyncRestart.MisleadingIff`, for continuations in which no replica restarts again.
- KvBatch.AllOrNothingIff: needs notifications enabled; without them a set and a delete of the same key may cancel out before the batch fails, and `KvBatch.NeverVisibleIff` says what readers may see meanwhile.
- DecisionRuns.DecisionsApplyInOrder: no sync comes between the decisions; a command that the state machine refuses is taken to leave it as it was.
- Application state machines are represented in the engine by the sequence of commands applied; a snapshot is a copy, its serialisation and checksum are taken to be inverse to its restoration, and restoring does not fail.
- Pending batches, the map of phases, the state version, quorum flags, timeouts and clean-up of the engine.
- Memory orderings: each access to an atomic is one indivisible step.
- Wrap-around of u64 counters, the average batch size (a floating-point statistic) and the floating-point form of the size ratio, which is compared exactly.
- The order of account listings, which is that of a hash map, and the serialisation of the ledger.
- KvStore.KVStore.ApplyAll: one clock reading stands for all those made during a batch, as one does within a set; only timestamps depend on them.
- Key-value snapshots and restoring them, metadata reads, key listings, statistics other than the operation count, and concurrent access to the map.
- Capacity of the broadcast channel, lagging receivers, and removal of closed subscribers.
- The asynchronous batcher around the command batcher.
- Sockets, handshakes, reconnection and the content of frames.
- The simulator's size estimate (an input here), its configuration of conditions, and its latency and throughput averages.
- Leader selection, memory pools, error classification, configuration builders, the counter example and the second copy of the key-value store: only easy properties.
