# Sbmgr: verified models of its stateful core

Sbmgr manages the users of a proxy server, on one machine or on a mesh of machines with one master.
This project models the parts of it that keep durable state and must get it right through crashes,
repeats and partial failures, and proves what those parts promise. `dafny verify dfyconfig.toml`
checks everything.

* **Mesh rollout** (`MeshAgent`, `MeshRollout`, `MeshOrder`, `MeshSplit`, `MeshClosed`,
  `MeshRecovery`). A coordinator distributes plans with a
  two-phase commit: a durable "roll back", prepare, commit the slaves and then the master, a durable
  "finalize", finish. `MeshAgent` is one member's handler over its journal; `MeshRollout` is a state
  machine over coordinator, members and messages in flight, because the coordinator can stop between
  any two messages; `MeshOrder` is the order in which its members prepare and commit, `MeshSplit` the one
  way agreement breaks, `MeshClosed` what a closed rollback can leave behind, and `MeshRecovery` what a recover run
  achieves.
* **Outbound copies** (`OutboundGraph`, `RateClone`). Each node dials through its own copy of an
  outbound graph. What an outbound means is a finite tree; copying keeps the tree.
* **Connection analytics** (`AnalyticsStore`, `AnalyticsReplica`, `AnalyticsSync`, `MapSum`). Cumulative
  readings per connection, daily totals, a log, its replica on the master through cursored pages, and
  whole runs of both.
* **Incremental history save** (`HistoryRows`, `HistorySave`, `HistoryRead`). Digests decide which
  history tables of which users are reconciled; the result must be that of a full write.
* **Machine traffic** (`Calendar`, `TrafficPeriods`, `TrafficRevisions`, `TrafficSamples`,
  `TrafficHistory`). Renewal rules on the calendar, their revisions, sampled intervals, and paged history.
* **Counters** (`NftUsage`, `MeshUsage`). Charging from kernel counters that are rebuilt or lost, and
  from high-water marks of other machines while credentials rotate.
* **Pending apply** (`PendingApply`). Automatic disables must reach the configuration.
* **Bounded structures** (`ConnectionHeap`, `RateMarks`, `SubscriptionLimiter`).
* **Group policies** (`Groups`, `Names`).

SQL tables are maps, times are integers, and saves, applies, messages and kernel events are inputs
that say how far they got. A digest stands for the value it is taken of, so hashing is injective.
A random secret is any unused one.

Where the code does less than its comments suggest the model keeps it as it is, and says exactly when:

* The state lock joins an error from releasing the lock to the result of a save that has already
  committed (`cmd/sbmgr/state_lock.go:46-51`). If that happens to the finalize decision, the
  coordinator rolls back while the stored decision is to finalize. `MeshRollout` is proved for all runs,
  with an exception for such a betrayed transaction where there is one; `MeshSplit` shows that such a
  save can always split a rollout of two members and strand a member of any, and that nothing else can.
* A prepare that arrives after its rollout was closed as rolled back opens the transaction, and no
  step of the program ends it. `MeshClosed` says exactly when that can happen and when it is for ever.
* The migration of a renewal period counts days through a duration that saturates below 106752 days,
  and daylight saving lets a span of 106752 days pass the range check. `TrafficPeriods.MigrateRule`
  gives the exact condition, `TrafficPeriods.LongSpan` a date pair.
* A renamed node keeps its row unless a node saved before it has taken its old name; then that node
  gets the row (`HistorySave.Follows`).
* The query of a traffic view caps its end at the end of the clock's range but not its start. Views
  that start later would count too much (`TrafficRevisions.CountsOnlyInside`); the program asks for none.

## Model

| member | source | states |
|---|---|---|
| MeshAgent.Agent.MeshExecute | cmd/sbmgr/mesh_agent.go:65-238 | The agent handler, save by save and apply by apply, leaves exactly the journal, the running plan and the answer of the execution function, whichever save or apply fails or is cut off. |
| MeshAgent.AnsweredApply | cmd/sbmgr/mesh_runtime.go:18-28 | Done means that the process runs the plan that is now active; after any other answer the transaction is open with both plans kept, or the rollback is on disk and the old plan runs. Which plan runs after which failure is said by the rows below. |
| MeshAgent.WorkedApply | cmd/sbmgr/mesh_runtime.go:18-28 | An apply that works runs the pending plan after a commit and the previous one after a rollback, whatever the save after it does. |
| MeshAgent.FailedApply | cmd/sbmgr/mesh_runtime.go:18-28 | An apply that fails leaves what was there: the previous plan when a commit fails, the active one (the pending one, if there is none) when a rollback fails, and something unknown when restoring fails too. Of the journal only a logged commit is left. |
| MeshAgent.UnloggedCommit | cmd/sbmgr/mesh_agent.go:177-192 | A commit that cannot be logged is not applied. |
| MeshAgent.AnsweredWhenWell | cmd/sbmgr/mesh_agent.go:129-217 | When nothing fails, exactly which requests are answered done, by operation and journal; any other changes nothing. |
| MeshAgent.DoneIsDone | cmd/sbmgr/mesh_agent.go:129-217 | Whatever else failed, after the answer done the journal says what was asked for. |
| MeshAgent.OthersAreRefused | cmd/sbmgr/mesh_agent.go:65-138 | A request for another machine or cluster, or about another transaction than the open one, changes nothing. |
| MeshAgent.LastSave | cmd/sbmgr/mesh_agent.go:139-217 | What the last save of a request stores is on disk or not, whatever the save reports; without it at most the logged commit is. |
| MeshAgent.ExecuteKeepsJournal | cmd/sbmgr/mesh_state.go:92-106 | Every journal a request can leave on disk satisfies the transaction clauses of the state validator, and until the commit is logged the active plan is still the old one. |
| MeshAgent.OpenTransactionChanges | cmd/sbmgr/mesh_agent.go:139-217 | A transaction opens only by an accepted prepare of an unfinished transaction, and closes only by its own rollback (back to the previous plan) or by its own finalize after a commit. |
| MeshAgent.OpenKeepsPrevious | cmd/sbmgr/mesh_agent.go:139-217 | While a transaction stays open its previous and pending plans never change, over any sequence of requests, crashes and failed applies. |
| MeshAgent.RollbackRestores | cmd/sbmgr/mesh_agent.go:193-208 | A rollback that closes a transaction leaves exactly the plan that was active before the prepare, whatever happened in between. |
| MeshAgent.FinalizedRevisionsIncrease | cmd/sbmgr/mesh_agent.go:139-217 | The revisions a member finalizes strictly increase over any sequence of requests, crashes and failures. |
| MeshRollout.NextKeepsInv | cmd/sbmgr/mesh_coordinator.go:102-203 | Every step of coordinator, network and members, with saves that store their state and report an error too, keeps the protocol invariant; the order in which members commit is said by MeshOrder. |
| MeshRollout.Agreement | cmd/sbmgr/mesh_coordinator.go:102-203 | Over every run with crashes, recover runs, lost replies and late executions, no transaction is finalized on one member and rolled back on another; once one member has finalized, the durable decision is finalize and every member has committed or finalized. The exception is a transaction whose own finalize decision was stored by a save that reported an error (a betrayed one); what happens then is stated by the rows of MeshSplit. |
| MeshRollout.LocalRecovery | cmd/sbmgr/mesh_agent.go:129-217 | In every reachable state every journal passes the validator, and a member without an open transaction, or with one only prepared, runs exactly its active plan, unless it has finalized a betrayed transaction and the one it has ended last is not one that it finalized and that was not betrayed. That exception is real: see MeshSplit.DecisionStrands. |
| MeshRollout.ClosedRollout | cmd/sbmgr/mesh_coordinator.go:169-203 | A rollout the coordinator has closed, in every run, if it was not betrayed: after a finalize every member has finalized; after a rollback none has, and a member that has it open is only prepared and runs its active plan (with the exception of LocalRecovery). When a member can have it open is stated by the rows of MeshClosed. |
| MeshRollout.LateRequestsAreHarmless | cmd/sbmgr/mesh_agent.go:129-217 | In every run, after a closed rollback a late request of any kind changes neither the running nor the active plan. |
| MeshRollout.EndedIsFinal | cmd/sbmgr/mesh_agent.go:132-138 | In every run, once a member has rolled back or finalized a transaction, while the rollout is still in progress or later, no late request of it changes the member at all. |
| MeshOrder.NextKeepsOrder | cmd/sbmgr/mesh_coordinator.go:102-203 | Every step keeps the order of a rollout: decision on disk first, all prepared before anybody commits, and everybody ahead of a member committed before it. |
| MeshOrder.UnfinishedIsDurable | cmd/sbmgr/mesh_coordinator.go:102-118 | In every run, as long as a rollout is not closed its decision is on disk before any message of it is sent. |
| MeshOrder.AllPrepareFirst | cmd/sbmgr/mesh_coordinator.go:125-134 | In every run, nobody is told to commit, or has begun to, before every member has taken part in the transaction. |
| MeshOrder.CommitsInOrder | cmd/sbmgr/mesh_coordinator.go:132-147 | In every run, nobody is told to commit before everybody ahead of it has committed or ended: the others in the reverse of their order, and the master last. |
| MeshOrder.MasterCommitsLast | cmd/sbmgr/mesh_coordinator.go:132-147 | In every run, when the master of a rollout is told to commit, or has begun to, every other member has committed or ended the transaction. |
| MeshRecovery.PassReachesTheRest | cmd/sbmgr/mesh_coordinator.go:169-184 | A pass that ends a rollout goes on after a member that does not answer: everybody else has ended the transaction as decided, nobody else has changed, and the pass counts as failed exactly if somebody was lost. |
| MeshRecovery.RecoverRunReaches | cmd/sbmgr/mesh_coordinator.go:169-203 | A recover run that reaches everybody closes the rollout; one that does not leaves the decision on disk, with everybody it reached done. |
| MeshRecovery.DecisionIsCarriedOut | cmd/sbmgr/mesh_coordinator.go:154-184 | From every state in which the decision is due: if it is saved, everybody who answers finalizes; if that is everybody the rollout is closed, and if not it can be recovered. |
| MeshRecovery.FailureIsRolledBack | cmd/sbmgr/mesh_coordinator.go:119-184 | From every state in which a member has not answered while the rollout prepares or commits, all members are asked to roll back, and whoever answers has. |
| MeshRecovery.UnsavedIsRolledBack | cmd/sbmgr/mesh_coordinator.go:154-184 | If the decision cannot be saved, everybody who answers is rolled back. |
| MeshRecovery.AnyRolloutCanFinish | cmd/sbmgr/mesh_coordinator.go:102-203 | Every rollout over members that welcome their plans has a run that carries it through: everybody has finalized it, and it is closed. |
| MeshSplit.SplitsOnlyByBetrayal | cmd/sbmgr/mesh_coordinator.go:154-167 | In any run whatever, with dishonest saves of other decisions too, a transaction ends both ways only if the save of its own finalize decision took effect and reported an error. |
| MeshSplit.SplitFromAnyDecision | cmd/sbmgr/mesh_coordinator.go:154-203 | From every state in which the decision about two or more members is due, if it is saved dishonestly, the first member can be rolled back and a recover run then finalizes the second. |
| MeshSplit.DecisionSplits | cmd/sbmgr/state_lock.go:27-56 | So the decision can split its transaction exactly when its save is dishonest (the lock release failed after the save) and the rollout has two members. |
| MeshSplit.StrandedFromAnyDecision | cmd/sbmgr/mesh_runtime.go:18-28 | From every state in which a decision is due, if it is saved dishonestly, a rollback whose apply and restore both fail and a recover run that then finalizes leave a member without an open transaction and with nobody knowing what it runs. |
| MeshSplit.DecisionStrands | cmd/sbmgr/mesh_coordinator.go:154-203 | So the decision can strand a member, whatever the number of members, exactly when its save is dishonest. |
| MeshSplit.WellRolloutDecides | cmd/sbmgr/mesh_coordinator.go:128-153 | A rollout whose members welcome their plans reaches its decision by honest steps; in which order they commit is said by MeshOrder. |
| MeshSplit.AnyRolloutCanSplit | cmd/sbmgr/mesh_coordinator.go:102-203 | Every rollout over two or more members that welcome their plans has a run that splits it. |
| MeshClosed.ClosedRollbackStays | cmd/sbmgr/mesh_agent.go:139-176 | In every reachable state, a member without another transaction is rid of a closed rollback for good exactly when it does not have it open and no prepare of it that fits the member is still in the network; a busy member is if that holds. |
| MeshClosed.OpenAfterClose | cmd/sbmgr/mesh_agent.go:129-217 | A member that has a closed rollback open can get rid of it exactly when a rollback of it is still in the network; otherwise it has it open for ever. |
| MeshClosed.LatePrepareStays | cmd/sbmgr/mesh_coordinator.go:119-137 | In every new cluster a rollout over a master and another member that welcome their plans has a run in which the other member's prepare is late, everybody answers the rollback, the rollout closes, and that member has it open for ever. |
| OutboundGraph.TreeIffResolvable | cmd/sbmgr/rate.go:383-460 | An outbound has a finite meaning exactly when no walk from it meets a cycle or a missing outbound. |
| OutboundGraph.UnfoldingIsUnique | cmd/sbmgr/rate.go:420-452 | An outbound unfolds to one tree only. |
| OutboundGraph.MarkedIsMarked | cmd/sbmgr/rate.go:425-459 | The marked tree is the tree but for its marks, and has this mark on every dialing leaf and none anywhere else. |
| OutboundGraph.ChoiceTells | cmd/sbmgr/rate.go:438-443 | What a group prefers, a child, something else or nothing, can be read off its choice, so a tree with the same choice prefers the same. |
| RateClone.FreshTag | cmd/sbmgr/rate.go:411-415 | The name of a copy is unused, carries the reserved prefix and is the first free one of its numbered candidates; the search ends. |
| RateClone.Cloner.Clone | cmd/sbmgr/rate.go:383-460 | The memoised depth-first search returns the cached copy of the outbound for the mark, keeps the graph of originals and copies sound, and fails only if the start of the search is not resolvable. Its measure is the unvisited part of the base graph. |
| RateClone.AddRateOutbounds | cmd/sbmgr/rate.go:341-481 | The pass succeeds exactly when every target resolves; the originals stay a prefix of the outbounds, every login is routed to a copy of its target for its mark, and a failure changes nothing. |
| RateClone.CopyUnfolds | cmd/sbmgr/rate.go:383-460 | A copy unfolds to the tree of its original with the mark on every dialing leaf and nowhere else, and with the same preferred choice. |
| RateClone.CopiesShareNothing | cmd/sbmgr/rate.go:341-481 | Nothing reachable from copies of two different marks is shared, and nothing reachable from a copy is an original. |
| RateClone.RoutesPreserveMeaning | cmd/sbmgr/rate.go:341-481 | After a successful pass each login leads to an outbound that does what its own outbound does (or the configured final one, or the first), marked with its own mark, disjoint from the originals and from the copies for other marks. |
| AnalyticsStore.PostConserves | cmd/sbmgr/analytics_store.go:251-313 | Posting a reading moves the daily totals and the connection totals of every account, device and domain by the same bytes and the same count. |
| AnalyticsStore.PostBooks | cmd/sbmgr/analytics_store.go:279-311 | A reading that is taken becomes exactly the reading of its connection; what it is ahead of the one before is added to one day and no other: that of its owner, the domain the connection was opened with and the UTC day the reading was observed on. |
| AnalyticsStore.BehindChangesNothing | cmd/sbmgr/analytics_store.go:260-290 | A reading that is behind in either direction, or notes a lost connection, changes nothing. |
| AnalyticsStore.RefusedExactly | cmd/sbmgr/analytics_store.go:251-277 | A reading is refused exactly when it is out of bounds or its connection has another owner. |
| AnalyticsReplica.Tables.Upsert | cmd/sbmgr/analytics_store.go:251-313 | The upsert, statement by statement, has the effect the rows of AnalyticsStore are about, on the rows of one member and the common days, and logs the reading under the stored domain and the next sequence number when asked to and it is news. |
| AnalyticsReplica.LoggedIsNews | cmd/sbmgr/analytics_store.go:306-311 | A reading is logged exactly when it changes the bytes of a connection, opens one or closes one. |
| AnalyticsReplica.TakeCounts | cmd/sbmgr/analytics_store.go:111-225 | A sample within bounds counts for the owner of its login at the time of the batch, unless its connection was closed more than 30 days ago, its domain is none or its login is nobody's; it is refused exactly when its connection has another owner. |
| AnalyticsReplica.EventOfPage | cmd/sbmgr/analytics_mesh.go:61-107 | Exactly which events of a page refuse it, which are passed over, and that every other is taken as a reading. |
| AnalyticsReplica.NoGapMissesNothing | cmd/sbmgr/analytics_store.go:365-381 | A page is without a gap exactly when the cursor is of this log and had passed everything the log has dropped. |
| AnalyticsReplica.Tables.Ingest | cmd/sbmgr/analytics_store.go:111-225 | A batch of samples has the effect of taking them one by one; a refused sample leaves the tables and the log as they were; the daily table stays in balance with the connections of all members. |
| AnalyticsReplica.TakeAllKeepsFaithful | cmd/sbmgr/analytics_store.go:111-225 | After any batches replaying the log gives the same connections with the same bytes, the same daily table and the same closed connections as the machine's own tables. |
| AnalyticsReplica.AbandonKeepsFaithful | cmd/sbmgr/analytics_store.go:179-215 | Log entries for connections lost in a restart keep the log faithful. |
| AnalyticsReplica.RepostIsIdle | cmd/sbmgr/analytics_store.go:251-313 | Posting an entry that was already replayed changes no row and no day. |
| AnalyticsReplica.OthersPostBeside | cmd/sbmgr/analytics_store.go:291-304 | A reading of another member does to the common daily table what it would do without this member's share, and leaves that share as it is. |
| AnalyticsReplica.ReadPageStretch | cmd/sbmgr/analytics_store.go:365-409 | A page is a stretch of the log right behind the cursor, of 250 entries unless the log ends; its next cursor is the place where it ends. |
| AnalyticsReplica.Tables.MergeRemote | cmd/sbmgr/analytics_mesh.go:27-140 | Merging a page takes exactly its new entries in order, stores the cursor, touches no other member, keeps the daily table in balance with all connections, and changes nothing when it is refused. |
| AnalyticsReplica.MergeKeepsStep | cmd/sbmgr/analytics_mesh.go:47-114 | Merging a page read from the stored cursor, an earlier one or the beginning succeeds, replays exactly the entries the master lacks, and never passes a missing entry, also when the stored cursor is discarded for its epoch or because it is ahead of the log; a page of new entries moves the cursor by 250 or to the end. |
| AnalyticsReplica.GrowthKeepsStep | cmd/sbmgr/analytics_mesh.go:142-209 | Entries the machine logs between two merges leave the master's place in the log valid. |
| AnalyticsReplica.CaughtUp | cmd/sbmgr/analytics_mesh.go:47-114 | With the whole log merged the master has the machine's connections with the same bytes, and exactly its daily rows next to the other members'. |
| AnalyticsReplica.SamplingConserves | cmd/sbmgr/analytics_store.go:251-313 | On the machine the daily sums equal the connection sums and counts per account, device and domain after every batch. |
| AnalyticsReplica.MergeKeepsBalance | cmd/sbmgr/analytics_mesh.go:61-107 | On the master the one daily table equals the sum over the connections of all members after every merge. |
| AnalyticsReplica.SamplingKeepsBalance | cmd/sbmgr/analytics_store.go:251-313 | So it does after every batch of the master's own samples, whatever the other members hold. |
| AnalyticsSync.NextKeepsInv | cmd/sbmgr/analytics_mesh.go:142-209 | Every step of the machine, of the master's poll (which starts over when the answer does not continue what it has read, and can stop anywhere), of other members and of a new epoch keeps the master at a beginning of the log. |
| AnalyticsSync.ReplicaCatchesUp | cmd/sbmgr/analytics_mesh.go:142-209 | After any interleaving of batches, restarts, new epochs, polls and other members' readings the master holds a beginning of the log; when its cursor is at the end it holds the machine's connections with the same bytes and exactly its daily rows next to the others'. |
| AnalyticsSync.RequestAdvances | cmd/sbmgr/analytics_mesh.go:142-209 | Each request of a poll starts it over, ends it at the head of the log, or takes it on by a full page. |
| AnalyticsSync.PollCatchesUp | cmd/sbmgr/analytics_mesh.go:142-209 | After any interleaving, a poll that is left alone ends within two requests more than the log has full pages, and the master then holds the machine's own connections and days. |
| HistoryRows.PartialWriteIsFull | cmd/sbmgr/state_sqlite.go:1586-1766 | A write that skips scopes leaves a table as a full write would exactly when each skipped scope already holds its user's rows. |
| HistoryRows.SkippedIsUnchanged | cmd/sbmgr/state_sqlite_delta.go:61-84 | A scope is skipped only if the database still has the state of the snapshot, and the user's content of that table is the same in both. |
| HistoryRows.SkippedExactly | cmd/sbmgr/state_sqlite_delta.go:61-84 | A scope is skipped exactly when the snapshot is of the same file in the state it has now and has a user of that name with the same content; without a snapshot everything is written. |
| HistoryRows.UnchangedScopeHolds | cmd/sbmgr/state_sqlite_delta.go:24-84 | When the stored tables are what the snapshot's state asked for, every skipped scope holds its user's rows, whatever was renamed, added or deleted around it. |
| HistorySave.Database.Save | cmd/sbmgr/state_sqlite.go:337-396 | With any snapshot of this or another state, a successful save leaves all seven history tables as a full write of the state would; a failed one leaves the database as it was. A state whose names and logins the database knows fails exactly when a user's recent accesses name a route twice. |
| HistorySave.Database.SaveEntities | cmd/sbmgr/state_sqlite.go:1262-1452 | A successful reconciliation leaves exactly the users, devices and nodes of the state and keeps their row ids by name; the row that had a node's login and secret ends up under the node's new name exactly when no node saved before it has taken the old one. |
| HistorySave.Database.RenameNodeRow | cmd/sbmgr/state_sqlite.go:1388-1398 | A row found under another name of its device moves to the node's name with its id, and nothing else changes; it fails exactly when there is such a row and the name is taken. |
| HistorySave.Database.PutNodeRow | cmd/sbmgr/state_sqlite.go:1388-1436 | A node is refused exactly when another row has its login or secret and cannot be renamed; otherwise its row keeps its id, found under the login or the name. |
| HistorySave.NodeStepTraces | cmd/sbmgr/state_sqlite.go:1381-1436 | Which row each node of a user ends up with, traced through the names the rows are given during a save. |
| HistorySave.Database.WriteHistory | cmd/sbmgr/state_sqlite.go:1586-1766 | The upserts and the deletion of what was not kept leave each table as specified; it fails exactly when a written scope has a route twice. |
| HistorySave.Database.PutSequence | cmd/sbmgr/state_sqlite.go:1615-1678 | The occurrence counters give every entry its own key, so duplicates of an identity are all stored. |
| HistorySave.SavedTableIsFull | cmd/sbmgr/state_sqlite.go:337-396 | For every table: what the snapshot allows to skip is no difference to the full write. |
| HistorySave.StoredReadsBack | cmd/sbmgr/state_sqlite.go:2236-2412 | Reading a stored state by ordinal returns every user's in-memory sequences, duplicates included, and the statistics of the user, its devices and its nodes. |
| HistoryRead.StableTextInjective | cmd/sbmgr/state_sqlite.go:1817-1822 | Different identities or occurrences never give the same text to hash, whatever characters the identities contain. |
| HistoryRead.SequenceReadBack | cmd/sbmgr/state_sqlite.go:2299-2340 | Any listing of a user's rows ordered by ordinal is the saved sequence. |
| Calendar.MonthStep | cmd/sbmgr/machine_traffic.go:121-134 | Every Gregorian month ends on the day before the next begins, leap years included. |
| TrafficPeriods.BoundariesIncrease | cmd/sbmgr/machine_traffic.go:109-138 | Boundaries of day, month and year rules strictly increase despite clamping to the last day of a month. |
| TrafficPeriods.BoundaryDate | cmd/sbmgr/machine_traffic.go:120-134 | A boundary of a month or year rule is the day of the anchor in the month so many months later, or the last day of that month if it has no such day. |
| TrafficPeriods.BoundaryFails | cmd/sbmgr/machine_traffic.go:109-138 | Exactly when a boundary can be computed, and that it is the start of its day. |
| TrafficPeriods.EstimateIsClose | cmd/sbmgr/machine_traffic.go:140-170 | The first guess is the right period or the one after it, never too low, so the downward loop runs at most once and the upward loop does not advance. |
| TrafficPeriods.Index | cmd/sbmgr/machine_traffic.go:140-189 | The lookup returns the one period that contains the instant, -1 before the anchor, and fails exactly when no computable period contains it; the downward loop runs at most once and the upward loop never advances. |
| TrafficPeriods.Raise | cmd/sbmgr/machine_traffic.go:178-187 | The upward loop from any lower number ends at the period of the instant after exactly the difference in steps. |
| TrafficPeriods.InOnce | cmd/sbmgr/machine_traffic.go:140-189 | No instant lies in two periods of a rule. |
| TrafficPeriods.MigrateRule | cmd/sbmgr/machine_traffic.go:211-248 | A period with an end date is migrated exactly when its dates can be counted; the first renewal of the new rule is the old exclusive end exactly when the span is at most 106751 days. |
| TrafficPeriods.LongSpan | cmd/sbmgr/machine_traffic.go:235-241 | A concrete accepted period of 106752 days, for which the renewal therefore misses the old end. |
| TrafficPeriods.OldBoundsAre | cmd/sbmgr/machine_traffic.go:56-77 | Exactly which pairs of dates of the older form can be counted. |
| TrafficPeriods.RuleIsValid | cmd/sbmgr/machine_traffic.go:191-209 | Exactly which rules the validator accepts. |
| TrafficRevisions.RuleBook.SetPeriod | cmd/sbmgr/machine_traffic.go:292-327 | Setting a rule closes the one in force at that instant and opens the next; the book stays valid, other members keep their rules, and each refusal has its stated cause. |
| TrafficRevisions.EditIsValid | cmd/sbmgr/machine_traffic.go:250-327 | Closing and opening a revision keeps every clause of the validator, so the save of an edit is never refused for the history. |
| TrafficRevisions.RevisionsAreContiguous | cmd/sbmgr/machine_traffic.go:250-288 | In a valid book a member's revisions run without gap or overlap from zero to open-ended. |
| TrafficRevisions.WindowsDisjoint | cmd/sbmgr/machine_traffic_sqlite.go:290-330 | The windows of two different periods, of one revision or of two, do not overlap. |
| TrafficRevisions.WindowHolds | cmd/sbmgr/machine_traffic_sqlite.go:290-317 | The window of a view holds exactly the instants of its period at which its revision was in force. |
| TrafficRevisions.CountedExactly | cmd/sbmgr/machine_traffic_sqlite.go:290-334 | A view that starts in range counts a stored interval exactly if it lies in the period and in the time the revision was in force. |
| TrafficRevisions.CountedOnce | cmd/sbmgr/machine_traffic_sqlite.go:331-344 | A stored interval is counted in one view at most, for views that start in the range of the clock. |
| TrafficRevisions.CountsOnlyInside | cmd/sbmgr/machine_traffic_sqlite.go:325-331 | A view counts nothing outside its window exactly when the window starts in that range (or wraps around to its very end): the query's end is capped, its start is not. |
| TrafficRevisions.ShownStartsInRange | cmd/sbmgr/machine_traffic_sqlite.go:271-281 | The views the program asks for, of the period of an instant of its clock or an earlier one, start in range. |
| TrafficRevisions.ViewsNeverExceedStored | cmd/sbmgr/machine_traffic_sqlite.go:331-344 | However many different periods are viewed, together they never show more bytes than were stored. |
| TrafficRevisions.ViewsShowExactly | cmd/sbmgr/machine_traffic_sqlite.go:290-344 | Different views together show exactly the bytes of the stored intervals that lie in their periods, each interval once. |
| TrafficSamples.Meter.Sample | cmd/sbmgr/machine_traffic_sqlite.go:59-122 | Within an epoch every byte the counters moved by goes into one new interval; the intervals stay disjoint and add up to the cumulative counters across resets; a restart or a clock that has not moved stores none. |
| TrafficSamples.OneSample | cmd/sbmgr/machine_traffic_sqlite.go:86-121 | What a sample makes of the baseline: it goes on from the last one in the same epoch, starts a new epoch with the cumulative counters kept, or leaves it. |
| TrafficSamples.RemoteMeter.MergeRemote | cmd/sbmgr/machine_traffic_sqlite.go:145-204 | Merging a reading, statement by statement; malformed readings and those too far ahead are refused exactly, and errors change nothing. What it does otherwise is the next row. |
| TrafficSamples.OneReading | cmd/sbmgr/machine_traffic_sqlite.go:172-199 | A first reading, or a later one of another epoch, becomes the last and stores nothing; a later one of the same epoch stores exactly the interval and the growth since the last; older ones, ones behind in the same epoch and repeats change nothing; another one of the same instant is refused. |
| TrafficSamples.RemoteIntervalsNeverOverlap | cmd/sbmgr/machine_traffic_sqlite.go:145-204 | Whatever the order, repetition or loss of the readings, a member's intervals stay disjoint. |
| TrafficSamples.ChargedAtMostGrowth | cmd/sbmgr/machine_traffic_sqlite.go:145-204 | Under reordered, repeated or lost readings and changes of epoch the stored bytes are at most the growth of the machine's counters since the first accepted reading. |
| TrafficSamples.AnswersAreOneMachine | cmd/sbmgr/machine_traffic_sqlite.go:59-143 | The answers of one machine, through any samples, clock jumps, counter resets and changes of interfaces, never show smaller counters later. |
| TrafficSamples.MachineIsNeverOvercharged | cmd/sbmgr/machine_traffic_sqlite.go:59-204 | So however a machine samples and its answers arrive, the master stores at most what its cumulative counter has grown by since the first accepted answer. |
| TrafficSamples.OneEpochIsExact | cmd/sbmgr/machine_traffic_sqlite.go:172-188 | Within one epoch the stored bytes are exactly what the accepted counters grew by, even if a restored database answers with smaller ones. |
| TrafficSamples.InOrderIsExact | cmd/sbmgr/machine_traffic_sqlite.go:145-204 | Readings that arrive in order are all accepted, and the stored bytes are exactly what the counters grew by between neighbours of one epoch. |
| TrafficSamples.EveryByteIsCharged | cmd/sbmgr/machine_traffic_sqlite.go:59-204 | A master that gets every answer in order stores exactly what the machine's interface counters moved by between samples that can be read on. |
| TrafficHistory.RangeOf | cmd/sbmgr/machine_traffic_history.go:79-119 | The listed range of a revision is exactly the periods that reach into the time it was in force and sampled, without the current one; it fails exactly when the rule has no anchor or the first, last or current instant lies in no computable period. |
| TrafficHistory.Page | cmd/sbmgr/machine_traffic_history.go:123-145 | A page is exactly its slice of twenty of the newest-first listing. |
| TrafficHistory.History | cmd/sbmgr/machine_traffic_history.go:29-147 | Page numbers out of range, unknown machines and revisions that cannot be listed are errors, each exactly in its case; a machine without samples has an empty history, and otherwise the answer is the page and the total of a covering listing. |
| TrafficHistory.PagesShowEveryPeriodOnce | cmd/sbmgr/machine_traffic_history.go:78-146 | All pages together show every past period of every revision exactly once, newest first. |
| NftUsage.BytesAreConserved | cmd/sbmgr/usage.go:103-164 | Over any run of traffic, samples, saves, crashes, rebuilds and table losses, charged bytes plus the counter beyond the baseline plus the bytes lost with tables is what was carried. |
| NftUsage.NeverOvercharged | cmd/sbmgr/rate.go:553-561 | Even when counters are also reset from outside, the charged bytes never exceed the carried ones. |
| NftUsage.NextConserves | cmd/sbmgr/rate.go:624-701 | Each single event, a rebuild with traffic in between included, keeps the balance. |
| NftUsage.RebuildLosesOnlyMeanwhile | cmd/sbmgr/rate.go:553-561 | A rebuild of a live table keeps every counter and loses only what passes while it is replaced; one after a table was lost starts from the baseline and loses just what that table counted beyond it. |
| NftUsage.OnlyRebuildsLose | cmd/sbmgr/rate.go:553-701 | Over any run in which no table is lost, every byte but those that pass during rebuilds is charged or still to be charged. |
| NftUsage.SavedIsCharged | cmd/sbmgr/usage.go:103-164 | Once a sample is saved all but the lost bytes are charged, and a crash cannot take them back. |
| NftUsage.Canonical | cmd/sbmgr/counter_keys.go:8-36 | A counter under an old display label goes to the node of that label only if there is exactly one and its mark has no counter; no other counter changes. |
| NftUsage.Ledger.SyncUser | cmd/sbmgr/usage.go:118-157 | A user's totals rise by exactly what its nodes' totals rise by, whatever the counters say; a node whose mark occurs once is charged its own counter's growth. |
| NftUsage.Ledger.Sync | cmd/sbmgr/usage.go:103-164 | The same for all users; with distinct marks every node is charged from the baseline it had at the start, and its account in each direction takes one sample of its live counter, the step the conservation rows are about. |
| MeshUsage.Master.Merge | cmd/sbmgr/mesh_access.go:146-182 | A merged snapshot raises each mark to the highest value seen, charges each node exactly what its mark rose by, and users gain what their nodes gain; for nodes with distinct logins and secrets a snapshot is accepted exactly if its samples are well-formed, name no login twice, and leave all totals in range. |
| MeshUsage.GrowthIsAboveMark | cmd/sbmgr/mesh_access.go:166-178 | All of a first reading is charged, of a later one what it is above the mark, and nothing if it is below. |
| MeshUsage.ReportIsMerged | cmd/sbmgr/mesh_access.go:157-178 | Receiving a report, the step of the rotation runs, is what merging a sample does to the total and the mark of the node, under its current identity or an old one. |
| MeshUsage.MergedTwice | cmd/sbmgr/mesh_access.go:146-182 | Two snapshots in a row charge what one with all their samples would. |
| MeshUsage.HighestIsHighest | cmd/sbmgr/mesh_access.go:166-178 | The mark after merging is the old mark or the value of a matching sample, and no matching sample is higher. |
| MeshUsage.SameSamplesSameCharge | cmd/sbmgr/mesh_access.go:146-182 | Order and repetition of samples do not change what a node is charged. |
| MeshUsage.RotationNeverOvercharges | cmd/sbmgr/device_self_service.go:74-104 | However credential rotations, grants and reports interleave, the master never charges more than the machine's counter ever showed, and a report under the current identity raises the charge to the reported value. |
| MeshUsage.MatchingReportCatchesUp | cmd/sbmgr/mesh_access.go:321-339 | The first report after the machine has the current identity brings the charge up to its counter at least, and to exactly that if the counter was not restored to less than it has been. |
| MeshUsage.TrafficIsCharged | cmd/sbmgr/mesh_access.go:321-339 | From then on every byte the counter moves by is charged with the next report. |
| MeshUsage.NewestGrantHolds | cmd/sbmgr/mesh_access.go:263-275 | However late, repeated or out of order grants arrive, the machine follows the newest it has received, and the next one sent is always newer. |
| PendingApply.DisablesAreNeverForgotten | cmd/sbmgr/daemon.go:115-232 | In every state reached by realtime, maintenance, enforce, sync and apply runs with saves and applies failing, crashing or half done, an automatically disabled user is out of the configuration or the saved state has the pending flag. |
| PendingApply.EnforceDecides | cmd/sbmgr/main.go:1740-1788 | Enforcement, for every outcome of its saves and its apply: exactly those enabled and due are disabled once its first save is on disk, the flag says so until an apply with a saved clear, and after an apply that succeeded file and service have exactly the enabled users that are not hidden. |
| PendingApply.RealtimeDecides | cmd/sbmgr/daemon.go:115-232 | The same of the realtime run, with the counters it read, and what it does to all three flags. |
| PendingApply.SyncDecides | cmd/sbmgr/stats.go:152-213 | The same of sync. |
| PendingApply.CommandDecides | cmd/sbmgr/main.go:1712-1733 | The apply command changes no user, configures exactly the enabled ones, and clears the flags only after a reload and a save. |
| PendingApply.MaintenanceStops | cmd/sbmgr/daemon.go:271-401 | A maintenance run that stops at its new marks has saved nothing new and configured the old users at most; one that stops at the save of its sample has stored all of it or nothing. |
| PendingApply.MaintenanceDecides | cmd/sbmgr/daemon.go:271-461 | Any other maintenance run, for every outcome of what follows, disables exactly those due by its sample, and then those due by its own enforcement or nobody; the burst flag stays until an apply has succeeded. |
| PendingApply.MaintenanceConfigures | cmd/sbmgr/daemon.go:271-461 | A maintenance run whose saves and applies succeed leaves no apply pending, and file and service with exactly the enabled users of its end, if anything asked for an apply. |
| PendingApply.NeverDueIsNeverTouched | cmd/sbmgr/daemon.go:115-461 | Over any runs with any failures, a user that was never found due keeps its switch. |
| PendingApply.MaintenanceIsSafe | cmd/sbmgr/daemon.go:271-461 | A maintenance run keeps that, whichever of its saves and applies fails or crashes. |
| PendingApply.EnforceIsSafe | cmd/sbmgr/main.go:1740-1788 | An enforce run keeps that. |
| PendingApply.SyncIsSafe | cmd/sbmgr/stats.go:152-213 | A sync run keeps that. |
| PendingApply.CommandIsSafe | cmd/sbmgr/main.go:1712-1733 | An apply command keeps that, with and without a reload. |
| PendingApply.RealtimeIsSafe | cmd/sbmgr/daemon.go:115-232 | A realtime run keeps that. |
| PendingApply.ApplyIsSafe | cmd/sbmgr/main.go:1978-2074 | An apply that succeeds, is undone or is cut off brings nobody in whom the state it renders has disabled. |
| PendingApply.MaintenanceSettles | cmd/sbmgr/daemon.go:402-460 | A maintenance run that does not stop at its new marks and whose apply succeeds makes a pending apply good: the flag is cleared and every automatic disable is in effect. |
| PendingApply.Host.RealtimeCycle | cmd/sbmgr/daemon.go:115-232 | The realtime run, statement by statement, has the effect RealtimeDecides is about, and keeps the write-ahead property. |
| PendingApply.Host.DaemonCycle | cmd/sbmgr/daemon.go:271-461 | The maintenance run, with the effect of MaintenanceDecides and MaintenanceConfigures. |
| PendingApply.Host.EnforceCommand | cmd/sbmgr/main.go:1740-1788 | The enforce command, with the effect of EnforceDecides. |
| PendingApply.Host.SyncCommand | cmd/sbmgr/stats.go:152-213 | The sync command, with the effect of SyncDecides. |
| PendingApply.Host.ApplyConfig | cmd/sbmgr/main.go:1712-1733 | The apply command, with the effect of CommandDecides. |
| ConnectionHeap.Heap.Up | cmd/sbmgr/connection_tracking.go:16-27 | Moving a new or changed entry up restores heap order and keeps the index exact and the contents the same. |
| ConnectionHeap.Heap.Down | cmd/sbmgr/connection_tracking.go:16-34 | Moving an entry down does so too, or reports that nothing moved. |
| ConnectionHeap.Heap.Push | cmd/sbmgr/connection_tracking.go:23-27 | Pushing adds exactly the entry. |
| ConnectionHeap.Heap.Pop | cmd/sbmgr/connection_tracking.go:28-34 | Popping removes an entry seen longest ago and nothing else. |
| ConnectionHeap.Heap.Fix | cmd/sbmgr/connection_tracking.go:52-54 | A changed entry is put back in order. |
| ConnectionHeap.Tracker.Track | cmd/sbmgr/connection_tracking.go:36-63 | After a track at most 4096 connections remain. What was evicted had the oldest entries of the index, however stale those are, nothing else changed, and below the limit nothing is evicted; an exact index stays exact, so in runs of tracks alone the evicted connections are those seen longest ago. |
| ConnectionHeap.Tracker.EvictOldest | cmd/sbmgr/connection_tracking.go:59-62 | Popping down to the limit leaves the newest entries and exactly the connections that still have one. |
| ConnectionHeap.Tracker.Close | cmd/sbmgr/usage.go:372-384 | Closing removes the connection and leaves the index covering the rest. |
| ConnectionHeap.Tracker.Attach | cmd/sbmgr/usage.go:654-673 | A late source renews the connection but not its entry, and the index stays a heap that covers the map. |
| ConnectionHeap.Tracker.Prune | cmd/sbmgr/usage.go:631-648 | Pruning keeps the active connections and starts over with the index. |
| RateMarks.EnsureNodeMarks | cmd/sbmgr/main.go:2596-2629 | It fails exactly when used marks and missing ones exceed 65535, and then changes nothing; otherwise every node has a valid mark, valid ones are kept, new ones are unused, and all are distinct if the valid ones were. |
| RateMarks.NextFree | cmd/sbmgr/main.go:2620-2624 | The search for a free number never passes 65535. |
| RateMarks.TakenCount | cmd/sbmgr/main.go:2596-2629 | If all numbers below one are taken, at least that many marks are used. |
| RateMarks.ValidIsNumbered | cmd/sbmgr/rate.go:192-194 | A mark is valid exactly when it is the prefix plus a number from 1 to 65535. |
| SubscriptionLimiter.Limiter.Allow | cmd/sbmgr/subscription_guard.go:25-59 | The limiter decides and counts as specified. |
| SubscriptionLimiter.AnyMinuteIsLimited | cmd/sbmgr/subscription_guard.go:25-59 | With a clock that does not go back, any span shorter than a minute, anywhere in a run, admits at most 120 requests of a peer and 1200 in all. |
| SubscriptionLimiter.MustAdmit | cmd/sbmgr/subscription_guard.go:39-59 | A request must be admitted if within the minute up to it fewer than 60 were admitted of its peer and fewer than 600 in all, and the table knows the peer or has room. |
| SubscriptionLimiter.RunIsBounded | cmd/sbmgr/subscription_guard.go:44-58 | The table of peers never outgrows 4096 and no window its limit. |
| SubscriptionLimiter.PruningIsInvisible | cmd/sbmgr/subscription_guard.go:31-38 | Over a whole run with a clock that does not go back, as long as a table that is never pruned has room for every peer, each request is decided as it would be without pruning. |
| SubscriptionLimiter.ForgetsOnceAMinute | cmd/sbmgr/subscription_guard.go:31-38 | Peers are forgotten once a minute, and then exactly those whose windows are over. |
| Groups.CaptureAddsNothing | cmd/sbmgr/user_groups.go:192-246 | A save adds no exception exactly for members without an uncaptured difference, and capturing twice adds nothing more. |
| Groups.AgreesWith | cmd/sbmgr/user_groups.go:206-244 | What it is to agree with a group in each scope: the same limit, quota and date, the rates on every node and none on the member, and the same routes on every device. |
| Groups.CapturesDifferences | cmd/sbmgr/user_groups.go:192-246 | A save makes an exception exactly of what differs, and changes nothing else. |
| Groups.Admin.Select | cmd/sbmgr/user_groups.go:280-300 | A selection is accepted exactly when its routes are known, resolve to different routes, and mesh routes are applied. |
| Groups.Admin.AssignRoutes | cmd/sbmgr/user_groups.go:302-348 | The device ends up with exactly the chosen routes; kept nodes keep their identity and order; new ones are named after their route, get logins and secrets nobody has, and the lowest rates of the device if the rates are a personal exception; a refused selection changes nothing. |
| Groups.OtherDevices | cmd/sbmgr/user_groups.go:312-321 | Assigning routes to one device leaves the routes of the others alone. |
| Groups.AssignedLoginsDistinct | cmd/sbmgr/user_groups.go:322-346 | Logins stay distinct, and no new one belongs to anybody else. |
| Groups.LeastIsLeast | cmd/sbmgr/user_groups.go:328-339 | The rate a new node gets is that of a node of the device, and no node with a rate has a lower one. |
| Groups.Admin.ApplyPolicy | cmd/sbmgr/user_groups.go:248-278 | It succeeds exactly when the group exists and routes it gives to a device can be selected. In every scope set again that is not an exception the member agrees with the group afterwards; in every other it differs as before. The fields of exceptions and of scopes not set again are untouched, nodes on chosen routes stay, and every node is an old one but for its rates or has a new secret. |
| Groups.Admin.SetMembers | cmd/sbmgr/group_admin.go:94-128 | It succeeds exactly when the group exists, every name is of a member without regard to case and occurs once in the same writing, and routes a member takes can be selected; a member in two writings is moved twice. Then each named member has the group and the chosen exceptions, with the fields of those untouched, and no other difference, so capture adds nothing; nobody else changes. |
| Groups.MembersFitExactly | cmd/sbmgr/group_admin.go:94-128 | Exactly which membership changes are accepted: an existing group, 1 to 1000 different writings of members' names, and routes that can be selected for those who take them. |
| Groups.Admin.SaveGroup | cmd/sbmgr/group_admin.go:49-93 | It succeeds exactly when the group exists, policy (limits, date and route texts included) and name are in order and new routes can be selected. Then a member has an uncaptured difference exactly when it had one before in a scope that is not set again; so if nobody had any, nobody has any. Scopes not set again and members of other groups do not change. |
| Groups.EditFitsExactly | cmd/sbmgr/group_admin.go:52-77 | Exactly which edits are accepted: an existing group, a valid policy, new routes that can be selected, and a valid name that no other group has in any writing. |
| Groups.PolicyIsValid | cmd/sbmgr/user_groups.go:102-140 | Exactly which policies are valid: limits, rates of at most 32 bits of bytes per second, a date, and 1 to 512 different routes. |
| Groups.ChangedApplied | cmd/sbmgr/group_admin.go:79-93 | Setting again only the scopes the edit changed is enough exactly for members whose uncaptured differences lie in them. |
| Groups.Admin.AssignDevices | cmd/sbmgr/user_groups.go:254-260 | Every device of the member ends up with the chosen routes; chosen nodes stay and new ones have new secrets. |
| Names.FirstUnused | cmd/sbmgr/main.go:2732-2750 | The numbered candidates of a name are searched in order up to the first unused one; the search ends because they all differ. |
| Names.SlugIs | cmd/sbmgr/main.go:2727-2731 | A slug is the text without the blanks at its ends, in small letters, with a dash for each blank, slash, backslash and colon. |

## Left out

- Agreement: does not hold of betrayed transactions, because the code does not keep it; the exact condition is in the rows of MeshSplit.
- LocalRecovery: likewise; a member that finalized a betrayed transaction can come to run its active plan again by a rollback too, which is not stated.
- Requests of the master: they run in the coordinator's process; the model lets them be late or lost too, which only adds runs, and the runs that are shown do not use it.
- Upsert: the abandoned mark of a connection is not modelled; readings that only set it change nothing.
- Ingest: marking connections abandoned at a restart, coverage rows and pruning are not modelled; the log entries of a restart are (`AbandonKeepsFaithful`).
- MergeRemote: coverage and gap rows and their checks are not modelled.
- Prune: which connections are still active is an input, and pending sources are not modelled.
- ClosedRollbackStays: for a member that is busy with another transaction only one direction is stated.
- Save: states when it succeeds only for states whose names and logins the database knows; for others the single steps say when a node is refused.
- SaveGroup: during a rollout members can have uncaptured route differences, which an edit then leaves; the exact condition is stated. Creating and deleting groups is not modelled.
- MergeKeepsStep: assumes that all identities of the log are known to the master and that nothing in the log has expired; revoked identities, pruning and trimmed logs are not modelled.
- ReplicaCatchesUp: a database restored to an older log that grows past the stored cursor before the next poll loses entries; rollback of the machine's database is not a step.
- MigrateRule: one rule; the loop over all rules of a state is not modelled.
- Segments: the number of periods is unbounded here, so the overflow test of the total is not modelled; a listing longer than two million periods has entries beyond the last page.
- Track: trimming an oversized map on save (`boundConnectionTracking`) is not modelled.
- Concurrent recover: a recover run beside a live apply is excluded; one coordinator run at a time.
- Plans: a plan is opaque but for its member, revision and master flag; its own validation is an input of the handler.
- Mesh requests other than status, prepare, commit, rollback and finalize (usage, access, inventory, analytics, traffic) and local configuration applies between requests are not part of the agent.
- Outbounds: endpoint targets and the WireGuard bridge are not modelled; names with the reserved prefix must not be dangling references; slugs fold ASCII letters and trim blanks only.
- Analytics: the abandoned mark, coverage and gap rows and the control hash are not modelled; domains are given in canonical form with a flag for whether they are valid.
- History: row values are compared as whole rows, so the `WHERE` parts that avoid idle updates have no effect here; groups, alerts and the other tables of the state are not modelled; normalised names are taken as given.
- Time zones: every calendar day exists and days begin in order.
- Traffic views: covered seconds, percentages, notes and formatting are not modelled; machines merged under two names are one list of intervals.
- Kernel counters: re-use of a mark after a node is deleted is not modelled, and sampling intervals and current rates are left out.
- Mesh usage: one direction of one node per rotation run; two directions are two runs.
- Pending apply: billing, connection-limit and burst transitions are inputs; backup restore is excluded.
- Connections: times compare as the stored texts do; finding closed connections and sources in the journal is not modelled.
- Transaction identifiers: a new one is unknown to every member.
- Groups: quota modes are normalised, rates are whole numbers, which texts are names and dates is an input, case folding is that of ASCII, alias resolution is one fixed idempotent function, and the version check before an edit is not modelled.
- The web interface, subscriptions, TLS, passwords, sessions, backups, schema migrations, templates and command lines are left out.
