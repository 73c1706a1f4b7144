# Verified model of a JMAP server's replication and its small algorithms

A Dafny model of the parts of Stalwart JMAP where a mistake would be silent: the home-grown Raft
replication (elections, commit index, log shipping, compressed catch-up, rollback, crash recovery),
and the self-contained algorithms around it (Web Push record splitting, the LMTP DATA automaton and
recipient handling, JMAP `/changes`, the filter parser, the heartbeat window, the token
bucket and two wire codecs). `dafny verify dfyconfig.toml` checks all of it.

Code that mutates is modelled by classes and loops proved against functions on values; what the
code promises is then proved about those functions.

## How the parts fit together

- `Common`, `KeyOrder`: indexes, results; the orders in which bitmaps and the key-value store are iterated.
- `ChangeLog`: change records, their fold into three bitmaps, and its net effect.
- `DocumentSync`: the leader's answer to a change set, applying documents, convergence of one collection.
- `LogStore`, `LogShipping`: log and change keys; the paged reader, the follower's writer, and what any paging transfers.
- `Replica`, `FollowerCommit`, `Follower`: the follower's store, committing with all its store writes, restart, the steps of a round.
- `UndoLog`, `Exchange`: turning a divergent suffix into rollback records and working them off with the leader.
- `Rounds`, `Replication`: rounds of catching up, and the replication theorem.
- `Restarts`, `StaleKey`, `Crashes`: what a restart makes of any store, restarts after a rollback, and crashes at any store write of a round.
- `Conversation`: the two state machines of leader and follower, with requests that are lost or arrive late.
- `RaftNode`, `Election`, `CommitIndex`: one node's reactions; elections as a transition system; the commit index.
- `NodeLaws`: what every step of those runs does to a node, said of terms, logs and members and not of the code.
- `Matching`: how leader and follower find the entry from which to go on.
- `Acknowledgements`, `StaleNotes`, `Reelection`: what the indexes that a leader counts say about the stores of its followers, when old ones do harm, and runs of whole elections that show it.
- `WebPush`, `LmtpData`, `LmtpRecipients`, `FilterParser`, `ChangesPaging`, `JmapChanges`, `Heartbeat`, `RateLimit`, `Leb128`, `RpcFraming`, `GossipCodec`: one algorithm each.

## Main results

- **Replication** (`Replication.Replicate`): whatever a follower's log and documents have become
  after the point where its log matches the leader's, rolling back and catching up give it the
  leader's log and, in every collection but threads, the leader's documents. This covers any number
  of accounts and collections, any batch size, snapshots split across batches, rounds that end
  early, and any commit index of the leader during the exchange.
- **Convergence** (`DocumentSync.Convergence`): for one collection, exactly when rolling back and
  catching up in any rounds succeed, and that they then lead to the leader's documents.
- **Restarts** (`Restarts.RestartIsExact`, `Crashes.CatchUpDespiteRestarts`): what recovery makes of
  a store with any log, stored commit index and pending records, and exactly when the result is in
  sync; and that a follower which is catching up becomes a replica although its process may end
  between rounds, after any message or record of a round, or after any store write of a commit.
- **Elections** (`Election.ElectionSafety`, `Election.ElectedLogDominates`): statements about all
  runs with fixed membership and no restarts. Whom a node follows, votes for and counts, when it runs
  for election and when it leads is settled in every run (`NodeLaws.FollowsExactly`,
  `NodeLaws.VotesExactly`, `NodeLaws.RunsExactly`, `NodeLaws.LeadsExactly`).
- **Matching** (`Matching.FindMatch`, `Matching.Synchronize`): for every pair of logs, when a
  follower is sent everything, goes on from a shared entry or has to undo its own, from where, and
  exactly when that is the last entry up to which the logs agree.
- **Durability** (`StaleNotes.HeldSinceElection`, `StaleNotes.NewCommitsAreReported`): what a leader
  commits has been reported since its election by half of the members, for whatever it is told, if
  and only if none of them was noted with more than it knows to be committed (or a small exception
  holds); and if reports are honest, those members have held it in log and documents.
- **Protocol** (`Conversation.SafeIsExact`, `Conversation.LateArrivals`,
  `Conversation.NoFaultInAnyRun`): the relation between the states of leader and follower that
  excludes faults is exact, and so is the condition on requests that arrive late; runs in which
  late requests meet it, with lost requests, lost replies and re-following, never fault.
- **Changes** (`JmapChanges.NetEffect`, `JmapChanges.ClientHasAllIds`): what the list of changes
  says about the ids of the server, and exactly when a client that applies it page by page has them.
  A client that comes back later goes on where it ended (`JmapChanges.SessionsAddUp`).
- **Batches** (`LogShipping.ShipLog`, `LogShipping.GetLogEntries`): everything is sent once and in
  order, and every batch ends with the entry or account that fills it, or where nothing is left to send.
- **Token bucket** (`RateLimit.RefusedExactly`): exactly which requests are refused, by the
  requests admitted before and the time since.
- **Filters** (`FilterParser.FilterMeansTree`): the filter that the stack loop builds is true of a
  document exactly if the request's tree of conditions is.
- **Message data** (`LmtpData.ParsesExactly`): for any bytes in any pieces, where a message ends and
  which bytes reach it.

## What turned out not to hold

Each of these names a failing input and the condition under which the property holds.

- Two leaders can be elected in one term, because a node that has voted may restart its election
  timer in the same term and vote again (`Election.TwoLeadersInOneTerm`). Without such a restart
  there is at most one (`Election.ElectionSafety`).
- A requested change set that does not fit into one batch is closed as if it were complete
  (`DocumentSync.CutAnswer`; `DocumentSync.AnswerComplete` says exactly when).
- An id that one change record both inserts and updates ends up in two bitmaps, and the update then
  fails because it reads the store and not the batch (`DocumentSync.BornUpdatedFails`;
  `DocumentSync.Convergence` says exactly when).
- A rollback that is resumed after a restart deletes its inserts again, which fails for every
  collection but e-mail (`Exchange.RollbackStuck`, `Exchange.RollbackResumes`).
- After a rollback the stored commit index of the follower can lie beyond its documents. A restart
  after further entries have arrived then keeps entries whose documents have not
  (`StaleKey.LoseDocument` is a whole run that ends with the leader's log but not its documents, and
  `StaleKey.LaterRound` shows that later rounds do not fetch them). Exactly when nothing is lost can be
  told beforehand from the two logs and the leader's states (`StaleKey.RollbackThenRestart`), and for
  any restart from the stored documents and the due records (`Restarts.RestartIsExact`); it is so
  whenever the stored index is the one of the documents (`Restarts.KeyOfDocuments`).
- A request that is given up as lost but arrives later can reach the follower's unreachable arm
  (`Conversation.OvertakenRequest`), and one that the follower expects at that moment can still lead
  to a fault afterwards (`Conversation.ExpectedButHarmful`). `Conversation.LateArrivals` says exactly
  which late requests are harmless.
- A follower with entries that the leader does not have is not made to undo them if they come after
  the leader's last committed entry and it shares the last one before: it is matched there, keeps
  them beside those it is sent, and its reports are wrong (`Acknowledgements.UnnoticedEntry`;
  `Reelection.OutvotedLeader` is a run that leads to such a pair). The reports are honest if and only
  if its log ends with the shared entry (`Acknowledgements.ReportAtMatch`,
  `Acknowledgements.ReportAfterMatch`). After an undo they are (`Acknowledgements.ReportAfterUndo`).
- The indexes noted of peers are kept when a node is elected, so that it may commit what less than
  half of the members have reported since (`Reelection.UnreportedCommit` is a run of five fresh nodes).
  `StaleNotes.NewCommitsAreReported` gives the exact condition on the node at its election.
- The LMTP reply for a mailing list says nothing about members named before it: a list of such
  members only is answered with success although nobody got the message
  (`LmtpRecipients.KnownList`), and other lists with the outcomes of the rest
  (`LmtpRecipients.KnownMember`). The reply reports on all members, whatever happens, if and only if
  there are members and none was named before (`LmtpRecipients.ListRepliesReport`).
- An id that is deleted and assigned again is lost to a JMAP client if the end of a page falls between
  the two changes, because the pages come from the end of the list. `JmapChanges.ClientHasAllIds` says
  so by their places in the list and the page sizes; asking one by one loses all such ids
  (`JmapChanges.ReusedIdsAreLost`). A client whose state lies before a snapshot of the change log is
  not told of what was deleted in between (`JmapChanges.AfterSnapshot`).
- A message that begins with a dot keeps the doubled dot (`LmtpData.LeadingDot`, `LmtpData.Transparency`).
  Of a client that does not double dots, a CR after the dot of a line is lost if another CR follows
  (`LmtpData.LostReturn`); `LmtpData.ParsesExactly` says exactly which bytes are dropped.
- A `/changes` range whose last id is 0 has no upper end, so that paging repeats changes when the
  log grows (`ChangesPaging.ZeroRangeBreaks`, `JmapChanges.ZeroRangeRepeats`, `ChangesPaging.PagingIsExact`).
- A gossip ping with fewer than two peers and a pong with none abort the decoder
  (`GossipCodec.LonePing`, `GossipCodec.PeersRoundTrip`). This is about the decoder only: a node lists
  itself and its peers (src/cluster/gossip/peer.rs:133-140), so it does not send such messages. The
  decoder takes a message without its last peers for one of another kind (`GossipCodec.CutMessage`).
- An RPC payload of fewer than three bytes is delivered only when the next frame arrives
  (`RpcFraming.ShortFrame`, `RpcFraming.Framing`). This, too, is about the decoder only: payloads begin
  with a tag of four bytes (src/cluster/rpc/serialize.rs:81).

## Model

| member | source | states |
|---|---|---|
| `ChangeLog.MergedChanges.DeserializeChanges` | src/cluster/log/changes_merge.rs:118-187 | folding one change record, loop by loop, equals `Absorb` on the three bitmaps |
| `ChangeLog.AbsorbClosed` | src/cluster/log/changes_merge.rs:118-187 | closed form of the fold: which documents are killed, moved to another prefix and freshly inserted is read off the record alone |
| `ChangeLog.MergeNetEffect` | src/cluster/log/changes_merge.rs:118-187 | for every well-formed run of records: live documents at the end are those at the start minus deletes plus inserts, documents outside the bitmaps are untouched, touched documents outside them were born and died on the way, and updates overlap inserts in exactly the ids that one record inserted and updated |
| `DocumentSync.PopRequest` | src/cluster/leader/changes_prepare.rs:55-64 | the first request in the order of `RequestsInOrder` is taken; the others stay as they were |
| `DocumentSync.RequestsInOrder` | src/cluster/leader/changes_prepare.rs:55-64 | requests are visited inserts before updates, each by ascending id |
| `DocumentSync.PrepareChanges` | src/cluster/leader/changes_prepare.rs:44-130 | the answer is that to a prefix of the requests in order, cut after the first request that reaches the batch limit; an answer that is cut has reached it |
| `DocumentSync.SizeIsBytes` | src/cluster/leader/changes_prepare.rs:66-118 | the size counted is that of the answer |
| `DocumentSync.AnswerComplete` | src/cluster/leader/changes_prepare.rs:120-127 | all requests are served if and only if all but the last stay below the batch limit |
| `DocumentSync.CutAnswer` | src/cluster/leader/changes_prepare.rs:120-127 | an answer that is closed although a document is missing |
| `DocumentSync.FetchEffect` | src/cluster/log/update_apply.rs:107-174 | an answer is applied if and only if every updated document the leader has is stored already, and then each requested document is as the leader has it and no other changes |
| `DocumentSync.RollbackEffect` | src/cluster/follower/updates_rollback.rs:47-110 | rolling back a suffix succeeds if and only if the leader has no document under an id that one of its records inserted and updated; its effect on every document |
| `DocumentSync.CatchUpTracks` | src/cluster/follower/updates_request.rs:47-148 | a round takes a table that stands for the leader's earlier state to one that stands for its state after the round, if and only if no id was born updated |
| `DocumentSync.Convergence` | src/cluster/follower/updates_rollback.rs:47-162 | for every base, both suffixes and every division into rounds: success if and only if no such id, and then the leader's table |
| `DocumentSync.BornUpdatedFails` | src/cluster/log/update_apply.rs:137-148 | a suffix that cannot be caught up with: one record inserts and updates a document |
| `LogStore.MergeChanges` | src/cluster/log/changes_merge.rs:55-96 | the scan from the first possible key folds exactly the records of the slot between two ids |
| `LogShipping.GetLogChanges` | src/cluster/log/changes_get.rs:46-75 | the change records an entry lists, highest collection first, with their size; an error if and only if one is missing |
| `LogShipping.ReadPending` | src/cluster/log/entries_get.rs:124-140 | accounts of a snapshot are sent from the end; what is sent and what is left make up what was pending, in this order, and less is left than before; without its last account the batch was below the limit, and if some are left it has reached it |
| `LogShipping.ReadAccount` | src/cluster/log/entries_get.rs:126-132 | the changes of the last account, with their size, followed by those of the others, are those of all |
| `LogShipping.ReadEntries` | src/cluster/log/entries_get.rs:66-122 | entries after the start are read in order, none twice, and never past the last one; without its last entry the batch was below the limit; and it ends with the last one, a snapshot, the end of the log or the limit reached |
| `LogShipping.ReadEntry` | src/cluster/log/entries_get.rs:84-115 | an entry is sent with its change records, a snapshot without, and counted with the size of what is sent; fails only if a listed record is missing |
| `LogShipping.GetLogEntries` | src/cluster/log/entries_get.rs:54-147 | a batch is exactly the next part of what is left to send, is closed if and only if nothing is left, and makes progress; its size, told from what it holds, was below the limit before its last entry or account, and has reached the limit unless the batch ends where reading has to end |
| `LogShipping.ShipLog` | src/cluster/leader/spawn_leader.rs:154-200 | iterating batches terminates for every batch size, sends everything once and in order, closes only the last batch, and fills each batch as far as the limit says and no further |
| `LogShipping.WriteRest` | src/cluster/follower/log_update.rs:49-147 | writing what is to be sent copies exactly the entries in between and the change records they list, and notes the first index and the changed slots |
| `Replica.CommitIsSlotwise` | src/cluster/follower/commit.rs:84-172 | committing succeeds if and only if it does for each slot, and every slot ends with what its own records make of it |
| `Replica.PerformTwice` | src/cluster/follower/commit.rs:106-172 | performing a pending record a second time changes nothing |
| `Replica.EffectiveByDoc` | src/cluster/follower/commit.rs:106-172 | what pending records make of a slot, document by document: the last record that concerns a document decides |
| `FollowerCommit.WritesReachOutcome` | src/cluster/follower/commit.rs:65-280 | the listed store writes lead to the outcome of the commit, and any prefix of them to a state on the way |
| `FollowerCommit.CrashTolerantCommit` | src/cluster/follower/commit.rs:65-280 | stopped after any number of store writes, the same call again leads to the same store, and the recovery of the next process to the same documents |
| `FollowerCommit.ResetIsClean` | src/cluster/follower/commit.rs:202-278 | after a reset no pending record is left, the log ends at the index, no change record of a removed entry is left, and only such records are removed |
| `FollowerProcess.ListedKeys` | src/cluster/follower/commit.rs:228-266 | the nested loops collect exactly the change keys an entry or snapshot lists |
| `FollowerProcess.KeysAfter` | src/cluster/follower/commit.rs:203-273 | a reset deletes exactly the entries after the index and the change records they list |
| `FollowerProcess.FindEntry` | src/cluster/follower/commit.rs:175-201 | the entry with an index is found if and only if there is one |
| `FollowerProcess.LastLog` | src/cluster/follower/updates_rollback.rs:141-151 | an entry of the log that no other entry comes after, none if and only if the log is empty |
| `FollowerProcess.Follower.ApplyDue` | src/cluster/follower/commit.rs:84-172 | the due records are performed one table write and one key removal at a time; failure if and only if one of them fails |
| `FollowerProcess.Follower.CommitFollower` | src/cluster/follower/commit.rs:58-283 | the store becomes the outcome, by exactly the listed writes |
| `FollowerProcess.Follower.Start` | src/cluster/follower/spawn_follower.rs:51-71 | a new process recovers the outcome of the stored commit, succeeds if and only if that exists, takes the end of its log as commit index and stores it; with a stored commit index nothing stays pending |
| `FollowerProcess.Follower.HandleUpdateLog` | src/cluster/follower/log_update.rs:42-171 | shipped records are written under the last index; a round is done with the end marker or an empty message |
| `FollowerProcess.PopSlot` | src/cluster/follower/updates_request.rs:47-63 | takes the next slot that is not a thread slot off the work list |
| `FollowerProcess.Follower.RequestUpdates` | src/cluster/follower/updates_request.rs:42-149 | every slot passed has its deletes recorded and needed no documents; the one stopped at is asked for its inserts and updates; no pending key is reused |
| `FollowerProcess.Follower.FoldRound` | src/cluster/follower/updates_request.rs:70-79 | the fold of the changes of one slot in the current round |
| `FollowerProcess.Follower.RequestSlot` | src/cluster/follower/updates_request.rs:79-113 | deletes of a slot are recorded ahead of its documents, and the rest is to be fetched |
| `FollowerProcess.Follower.AddPending` | src/cluster/follower/updates_request.rs:80-113 | a record is appended under the next key, which comes after all others |
| `FollowerProcess.Follower.StoreUpdates` | src/cluster/follower/updates_pending.rs:46-96 | fetched documents become a record that comes after all stored ones and changes the target of their slot only |
| `FollowerProcess.Follower.CommitUpdates` | src/cluster/follower/updates_commit.rs:36-91 | everything pending is committed if and only if the leader has committed that far; otherwise nothing changes |
| `UndoLog.FlushChanges` | src/cluster/log/rollback_prepare.rs:51-147 | the grouped scan writes one record per slot with late changes, and deletes exactly their keys |
| `UndoLog.GroupChanges` | src/cluster/log/rollback_prepare.rs:56-127 | at the end of the scan all groups but the last have been written |
| `UndoLog.CutEntries` | src/cluster/log/rollback_prepare.rs:149-175 | exactly the entries after the index are removed |
| `UndoLog.PrepareRollback` | src/cluster/log/rollback_prepare.rs:46-178 | the record of each slot is the fold of all its changes after the index, and the log is cut back to the index |
| `UndoLog.TakeTurn` | src/cluster/follower/updates_rollback.rs:48-99 | inserts are deleted and an answer applied; succeeds if and only if `FirstTurn` does on the table of the slot, no other table changes, and what remains to be asked for |
| `UndoLog.WorkOff` | src/cluster/follower/updates_rollback.rs:101-161 | records that need no documents are worked off in key order; the first that does is asked for, and slots still waiting are unchanged; when none is left, the last entry of the log is reported |
| `UndoLog.HandleRollbackUpdates` | src/cluster/follower/updates_rollback.rs:40-162 | one call: the answer is applied to its slot, further records are worked off until documents are needed or none is left, slots still waiting are unchanged; once it is finished the last entry of the log is reported; it fails only if a document to delete or update is missing |
| `Exchange.AnswerRollback` | src/cluster/leader/spawn_leader.rs:540-579 | deleted documents are restored as inserts, and the answer is always closed |
| `Exchange.RollBack` | src/cluster/follower/log_merge.rs:37-56 | the whole rollback ends, fails only if some slot cannot be rolled back, and otherwise leaves every slot rolled back and no record, and reports the last entry of the log |
| `Exchange.RollbackResumes` | src/cluster/follower/spawn_follower.rs:73-84 | a rollback begun again from any of the states it stores succeeds if and only if the slot is e-mail or the inserts are there, with the same result |
| `Exchange.RollbackStuck` | src/cluster/follower/updates_rollback.rs:56-75 | an input on which a resumed rollback fails |
| `Rounds.ShipRound` | src/cluster/follower/log_update.rs:49-171 | leader and follower together: at the end of a round exactly the records of the entries up to the one reached have been written, and at least one entry has |
| `Rounds.PrefixGrows` | src/cluster/follower/log_update.rs:49-147 | writing them to a copy of a prefix of the leader's log gives a copy of the longer prefix |
| `Rounds.ListWork` | src/cluster/follower/log_update.rs:49-147 | the work list names each changed slot but those of threads once |
| `Rounds.AnswerRequest` | src/cluster/leader/changes_prepare.rs:44-130 | a request that fits is answered completely and in order |
| `Rounds.RoundIsSpan` | src/cluster/follower/updates_request.rs:70-79 | folding from the noted first index gives exactly the leader's changes since the last round, and a slot that was not noted has none |
| `Rounds.FetchRound` | src/cluster/follower/updates_request.rs:47-148 | at the end of a round every changed slot is caught up and no other has changed, in whatever order slots are visited |
| `Replication.RoundTracks` | src/cluster/follower/updates_request.rs:47-148 | a round leads from the leader's state at one index to that at a later one, although it fetches current documents |
| `Replication.RunRound` | src/cluster/follower/updates_commit.rs:36-91 | a round keeps log and documents, with what is pending, in sync with the leader, and never fails |
| `Replication.CommitRound` | src/cluster/follower/updates_commit.rs:36-91 | the end of a round never fails, keeps log and documents in sync and the store recoverable |
| `Replication.CatchUpWith` | src/cluster/leader/spawn_leader.rs:154-200 | from any state in sync, rounds lead to the leader's last index and, once committed, to a replica |
| `Replication.MergeLog` | src/cluster/follower/log_merge.rs:37-56 | undoing a divergent suffix leaves log and documents in sync at the matched index, and every document as fetched, deleted or untouched by the fold of the suffix; the follower reports an error if and only if the suffix has no net effect; the entry it reports when it is finished is the matched one |
| `Replication.Replicate` | src/cluster/follower/updates_rollback.rs:40-162 | for every follower that agrees with the leader up to the matched index, which may be the leader's last, and diverges after it: rolling back and catching up succeed and give it the leader's log and, but for threads, its documents, for every commit index and batch size; catching up goes on from the index that the follower reports |
| `Restarts.RecoveryLeadsTo` | src/cluster/follower/commit.rs:65-280 | for every store with the leader's log up to some index, any stored commit index and any due records: recovery leads to the earlier of the two indexes, and is in sync there if and only if every document that an unapplied change concerns is settled there, as told from what is stored of it and the due records that write or remove it |
| `Restarts.RestartIsExact` | src/cluster/follower/spawn_follower.rs:51-71 | the same where the due records are whole rounds, for the changes between the last round applied or due and the earlier index |
| `Restarts.NothingUnapplied` | src/cluster/follower/spawn_follower.rs:51-71 | in particular if there are no such changes |
| `Restarts.KeyOfDocuments` | src/cluster/follower/commit.rs:65-81 | with a stored index that is the one of the documents, a restart within any round leads back to that index, in sync |
| `Restarts.UnappliedInsert` | src/cluster/follower/commit.rs:65-81 | a document that such changes have inserted and that the leader still has is missing after recovery |
| `Restarts.Restart` | src/cluster/follower/spawn_follower.rs:51-71 | the new process succeeds, has nothing pending, is in sync at the stored index and can be restarted again |
| `StaleKey.RollBackAndGoOn` | src/cluster/follower/log_merge.rs:37-56 | a rollback of any divergent suffix, followed by a new process where the follower reports an error, leaves log and documents in sync at the matched index, and which commit index is then stored; the index reported is the matched one |
| `StaleKey.RollbackThenRestart` | src/cluster/follower/commit.rs:65-81 | a rollback, the log records of a further round and a restart, for every divergent follower: the log then ends at the earlier of stored and received index, the documents are those of the matched index, and both agree if and only if no document is lost, by the follower's own changes, the leader's changes in between and its states before, after and now |
| `StaleKey.MissLast` | src/cluster/follower/commit.rs:65-81 | a follower whose stored index is the leader's last and which matches all but its last entry ends, after such a run, with the leader's log but without a document that the entry inserted |
| `StaleKey.LoseDocument` | src/cluster/follower/commit.rs:65-81 | such a run for every term, document and batch size |
| `StaleKey.LaterRound` | src/cluster/follower/updates_request.rs:42-149 | a later round changes no document but those that its own changes concern, so that what is missing stays so until it is changed again |
| `Crashes.CrashShipping` | src/cluster/follower/log_update.rs:42-171 | a process that ends after any number of messages with log records is in sync at the stored index after a restart |
| `Crashes.CrashFetching` | src/cluster/follower/updates_pending.rs:46-96 | so is one that ends after any number of records of a round |
| `Crashes.CrashCommitting` | src/cluster/follower/commit.rs:65-280 | so is one that ends after any number of store writes of a commit, at the old or the new index |
| `Crashes.CatchUpDespiteRestarts` | src/cluster/follower/spawn_follower.rs:51-71 | whatever sequence of rounds and of such crashes happens, the follower can go on and becomes a replica |
| `Matching.PrevEntry` | components/store/src/log/raft.rs:88-103 | the last entry that is not after a key |
| `Matching.NextEntry` | components/store/src/log/raft.rs:105-120 | the first entry that is not before a key |
| `Matching.TermStarts` | src/cluster/log/index_match.rs:46-69 | for a log without gaps: exactly the entries whose term is not that of the entry before, in order |
| `Matching.IndexesAt` | src/cluster/log/index_match.rs:71-97 | the scan finds the entry with the index, and no other, because its prefix contains the index |
| `Matching.LastCommon` | src/cluster/follower/log_synchronize.rs:54-61 | the last element up to which two lists agree |
| `Matching.StartsAgree` | src/cluster/follower/log_synchronize.rs:54-61 | two logs without gaps have the same entries up to the last start that their lists have in common |
| `Matching.Synchronize` | src/cluster/leader/spawn_leader.rs:439-499 | for every pair of such logs: the entry found is in both, they agree up to it, and it is the last one they agree on if and only if the entry after it is not one of the same term in both; if none is found they agree nowhere |
| `Matching.FindMatch` | src/cluster/leader/spawn_leader.rs:366-438 | when everything is sent, an entry is matched exactly, an undo begins, or the leader gives up; an undo goes back to an entry before the follower's, and before the leader's last |
| `Conversation.LockStepKeepsSafe` | src/cluster/leader/spawn_leader.rs:102-264 | every step of the pair keeps the relation between leader and follower states |
| `Conversation.SafeIsExact` | src/cluster/follower/spawn_follower.rs:86-320 | the relation is exact: from every other pair of states the two can go on to a fault, for some data |
| `Conversation.LateArrivals` | src/cluster/leader/spawn_leader.rs:284-337 | a request that arrives late is harmless, by a condition on the two states it meets, if and only if no fault can follow from it |
| `Conversation.NoFaultInAnyRun` | src/cluster/follower/spawn_follower.rs:86-320 | in no run whose late arrivals are harmless is the unreachable arm reached, are updates of the wrong kind received, is a commit asked for within a round, or are log records asked for without an entry |
| `Conversation.OvertakenRequest` | src/cluster/follower/spawn_follower.rs:317-319 | a run in which a request that was given up as lost arrives later and meets the unreachable arm |
| `Conversation.ExpectedButHarmful` | src/cluster/follower/spawn_follower.rs:86-320 | a run in which a late request is expected by the follower and the next request then finds it in the wrong state |
| `RaftNode.Cluster.ResetVotes` | src/cluster/raft/vote.rs:61-65 | all votes are cleared and nothing else changes |
| `RaftNode.Cluster.CountVote` | src/cluster/raft/vote.rs:67-85 | the vote is noted, and the result is whether a majority of the shard has granted |
| `RaftNode.Cluster.ShardStatus` | src/cluster/main.rs:157-169 | counts the members of the shard and the healthy ones |
| `RaftNode.Cluster.OnVoteRequest` | src/cluster/raft/vote.rs:129-157 | grants or refuses in place; it is the step `HandleVoteRequest` of the runs in `Election`, which `NodeLaws.VotesExactly` is about |
| `RaftNode.Cluster.OnVoteResponse` | src/cluster/raft/vote.rs:159-178 | counts a reply in place; it is the step `HandleVoteResponse` of the runs in `Election`, which `NodeLaws.LeadsExactly` is about |
| `RaftNode.Cluster.OnElectionDue` | src/cluster/raft/vote.rs:87-127 | runs for election, becomes leader or restarts the timer, in place; it is the step `RequestVotes` of the runs in `Election`, which `NodeLaws.RunsExactly` is about |
| `RaftNode.Cluster.OnBecomeFollower` | src/cluster/follower/become_follower.rs:41-73 | follows a leader or refuses, in place; it is the step `HandleBecomeFollower` of the runs in `Election`, which `NodeLaws.FollowsExactly` is about |
| `RaftNode.Cluster.OnAppendEntries` | src/cluster/follower/append_entries.rs:41-65 | raises the term without changing the role; it is the step `HandleAppendEntries` of the runs in `Election`, which `NodeLaws.AnswersExactly` is about |
| `RaftNode.Cluster.OnStepDown` | src/cluster/main.rs:114-120 | steps down or restarts the timer; it is the step `HandleStepDown` of the runs in `Election`, which `NodeLaws.StepsDownExactly` is about |
| `RaftNode.Cluster.OnAdvanceCommitIndex` | src/cluster/raft/commit.rs:36-85 | the loop over peers, the sort and the pick give the step `AdvanceCommitIndex` that `CommitIndex` is about |
| `RaftNode.Cluster.OnAdvanceUncommittedIndex` | src/cluster/main.rs:125-132 | the own index is raised in place; it is the step `AdvanceUncommittedIndex` of the runs in `Election`, which `CommitIndex.UncommittedGrows` is about |
| `Election.RunsKeepInv` | src/cluster/raft/vote.rs:38-178 | every run keeps the invariant of votes, runs for election, messages and elected nodes |
| `Election.ElectionSafety` | src/cluster/raft/vote.rs:67-85 | two nodes elected in one term have a common voter that restarted its timer in that term after voting |
| `Election.ElectedLogDominates` | src/cluster/raft/log.rs:36-46 | every half of the members holds a voter of each elected node whose log was not ahead of the one advertised |
| `Election.SecondVoteNeedsRestart` | src/cluster/raft/vote.rs:38-59 | a second vote in a term needs such a restart |
| `Election.TwoLeadersInOneTerm` | src/cluster/raft/election.rs:66-72 | a run of three nodes with two leaders in one term |
| `NodeLaws.FollowsExactly` | src/cluster/follower/become_follower.rs:41-73 | in every run: a node that is asked to follow does so if and only if it knows the other, its term is not later, and its own last entry is not after the one given, by term and then index, where no entry comes first; it then has the term given and no votes. Otherwise it answers with the later of the two terms and keeps its role, and if it does not know the other nothing happens |
| `NodeLaws.FollowReply` | src/cluster/follower/become_follower.rs:41-73 | the three replies, by the same condition |
| `NodeLaws.VotesExactly` | src/cluster/raft/vote.rs:129-157 | in every run: a vote is granted if and only if the candidate is known, its term is not earlier, the node is free to vote in it or has voted for it, and its own last entry is not after the candidate's; what then becomes of its role, term and votes, and what is sent |
| `NodeLaws.AnswersExactly` | src/cluster/follower/append_entries.rs:41-65 | in every run: the term becomes the later of the two, nothing else changes, and whoever is not followed is told to step down |
| `NodeLaws.AnswerReply` | src/cluster/follower/append_entries.rs:41-65 | entries are passed on if and only if they come from the leader that is followed |
| `NodeLaws.StepsDownExactly` | src/cluster/main.rs:114-120 | in every run: the node waits in the later of the two terms without votes, and may vote again if that is its own and it has voted in it |
| `NodeLaws.RunsExactly` | src/cluster/raft/vote.rs:87-127 | in every run: when its timer is due, a node runs in the next term with its own vote, and asks exactly the members of its shard that it has not given up, if and only if those it takes to be alive are a majority, none that it has not given up has a later entry, and no rollback is pending; otherwise it waits on in its term |
| `NodeLaws.LeadsExactly` | src/cluster/raft/vote.rs:159-178 | in every run: a vote for a candidate makes it lead if and only if those that have voted for it are a majority of the members; other votes are collected, ignored or, if of a later term, end the candidacy |
| `NodeLaws.NotesExactly` | src/cluster/raft/commit.rs:36-52 | an index is noted as the larger of the old and the new one, of the peer that it comes from and of no other; likewise the node's own |
| `NodeLaws.StepsAreHandlers` | src/cluster/main.rs:70-140 | each step of a run is the reaction that the in-place code is proved to be |
| `CommitIndex.PickIsLargestHalf` | src/cluster/raft/commit.rs:41-59 | the sorted pick is the largest index that half of the members have acknowledged |
| `CommitIndex.AckersAreHalf` | src/cluster/raft/commit.rs:41-59 | the members that acknowledge the pick are at least half of all |
| `CommitIndex.CommitStep` | src/cluster/raft/commit.rs:36-85 | the commit index never decreases, and each advance is acknowledged by half of the members |
| `CommitIndex.UncommittedGrows` | src/cluster/main.rs:125-132 | the own position never shrinks, and reaches the index given |
| `CommitIndex.AcksNeverShrink` | src/cluster/leader/spawn_leader.rs:386-409 | in every run no position noted of a peer ever shrinks, as indexes that mean "no entry" are not passed on |
| `CommitIndex.CommitPositionNeverShrinks` | src/cluster/raft/commit.rs:36-85 | in every run in which a node is not elected anew, the position it would commit never shrinks |
| `CommitIndex.CommitMeetsVotes` | src/cluster/raft/vote.rs:67-85 | in every run, the members that acknowledge what any node would commit meet the voters of every elected node, for even and odd numbers of members |
| `Acknowledgements.ReportRound` | src/cluster/follower/updates_commit.rs:36-91 | the index that a follower reports after a round is one up to which it holds the leader's log and documents |
| `Acknowledgements.ReportAfterUndo` | src/cluster/leader/spawn_leader.rs:439-538 | for every pair of logs in which the leader has the follower undo its entries: the index reported after the next round is one up to which the follower holds the leader's log and documents |
| `Acknowledgements.ReportAtMatch` | src/cluster/leader/spawn_leader.rs:404-410 | the index noted where an entry of the follower is found in the leader's log is honest if and only if the follower's log ends there |
| `Acknowledgements.ReportAfterRestart` | src/cluster/leader/spawn_leader.rs:404-410 | after a restart it is honest if and only if nothing is missed of the changes between what was applied or due and that index |
| `Acknowledgements.ReportAfterMatch` | src/cluster/leader/spawn_leader.rs:500-538 | the index reported after the round that follows is honest if and only if the follower had no entry of its own after the matched one |
| `Acknowledgements.UnnoticedEntry` | src/cluster/follower/log_match.rs:38-60 | a follower that accepts its leader, is matched at the leader's last committed entry and keeps an entry of its own, so that it is in sync at no index whatever its documents |
| `Acknowledgements.CommittedIsReported` | src/cluster/raft/commit.rs:36-85 | over any sequence of reports: at least half of the members have reported what is committed, or a later index, unless such an index was noted of a peer before |
| `Acknowledgements.CommittedIsHeld` | src/cluster/raft/commit.rs:36-85 | if the reports were honest, at least half of the members have held the leader's log up to the committed index, with their documents in sync |
| `StaleNotes.NewCommitsAreReported` | src/cluster/raft/commit.rs:36-85 | whatever a newly elected node is told, each new commit has been reported since by half of the members: if and only if no peer was noted beyond what the node knows to be committed, or there are at most four members, nothing is committed and none was noted beyond the first index |
| `StaleNotes.HeldSinceElection` | src/cluster/raft/leader.rs:58-104 | if none was noted beyond and the reports are honest, half of the members have held what is committed newly, in log and documents |
| `Reelection.EventsAreSteps` | src/cluster/main.rs:125-138 | what a leader is told are steps of the runs in `Election` |
| `Reelection.UnreportedCommit` | src/cluster/raft/leader.rs:58-104 | a run of five fresh nodes in which a node that is elected again commits what less than half of the members have reported since |
| `Reelection.OutvotedLeader` | src/cluster/follower/become_follower.rs:49-60 | a run of three fresh nodes in which a node that has committed two entries follows a later leader that knows of the first only |
| `WebPush.PlanRecords` | src/services/push_subscription_ece.rs:93-117 | the shares are balanced: every record can be filled, and none underflows or divides by zero |
| `WebPush.PaddingIsLeast` | src/services/push_subscription_ece.rs:93-106 | the padding is the least that fills up a block, or one byte for each record that the data need if that is more |
| `WebPush.TakeShare` | src/services/push_subscription_ece.rs:134-148 | the share of a record, after which the rest is still balanced |
| `WebPush.NextRecord` | src/services/push_subscription_ece.rs:150-161 | the record has the length the plan says and unpads to its share |
| `WebPush.SplitRecords` | src/services/push_subscription_ece.rs:93-169 | for every payload: all records but the last are full, the last is not longer, padding and data are used up, and a receiver gets the payload back |
| `WebPush.IvsAreDistinct` | src/services/push_subscription_ece.rs:201-208 | no two records of a message share an initialization vector |
| `WebPush.IvIsNonceXorNumber` | src/services/push_subscription_ece.rs:201-208 | section 2.3 of RFC 8188, byte by byte: the first four bytes are those of the nonce, and the last eight differ from the nonce's by the record number in network order |
| `LmtpData.RequestParser.Parse` | src/lmtp/request.rs:339-428 | the byte loop is the automaton run over the bytes, with its state kept between reads |
| `LmtpData.FeedIsRun` | src/lmtp/request.rs:339-428 | how the bytes are cut into pieces does not matter |
| `LmtpData.Transparency` | src/lmtp/request.rs:339-428 | a stuffed message with its end yields buffer and message at the very last byte, or is refused if and only if too long; exactly unless the message begins with a dot |
| `LmtpData.LeadingDot` | src/lmtp/request.rs:339-428 | a message of one dot arrives as two |
| `LmtpData.ParsesExactly` | src/lmtp/request.rs:339-428 | for any bytes in any pieces: the message ends with the first line that consists of a dot and is what comes before it, without the dots that start a line unless CR or LF follows, and without a CR between such a dot and another CR; it is refused if and only if it is too long, and what is held back is settled by the last bytes |
| `LmtpData.LostReturn` | src/lmtp/request.rs:352-355 | bytes of which a CR is lost |
| `LmtpRecipients.Session.Receive` | src/lmtp/session.rs:159-205 | an accepted RCPT is recorded with the accounts not seen before, and no account is ever recorded twice |
| `LmtpRecipients.Session.AddList` | src/lmtp/session.rs:185-190 | the members not seen before, once each and in order |
| `LmtpRecipients.DeliverToList` | src/lmtp/ingest.rs:367-407 | members are delivered to in order, and the status sums up the outcomes |
| `LmtpRecipients.IngestOne` | src/lmtp/ingest.rs:342-414 | one command is delivered to its accounts and given its result |
| `LmtpRecipients.Ingest` | src/lmtp/ingest.rs:324-417 | every recorded command gets its result, a repeated individual the outcome of the earlier delivery |
| `LmtpRecipients.Reply` | src/lmtp/ingest.rs:127-151 | one line per command, in order |
| `LmtpRecipients.Transaction` | src/lmtp/session.rs:159-205 | a whole transaction delivers once to each account named and replies once to each accepted command |
| `LmtpRecipients.ListReply` | src/lmtp/ingest.rs:367-411 | exactly when the reply for a list reports on all its members, from the outcomes of those named before |
| `LmtpRecipients.ListRepliesReport` | src/lmtp/session.rs:183-205 | it does so whatever the outcomes if and only if the list has members and none was named before |
| `LmtpRecipients.KnownList` | src/lmtp/ingest.rs:408-411 | every list without new members is answered with success although no delivery succeeded |
| `LmtpRecipients.KnownMember` | src/lmtp/ingest.rs:396-407 | every list with members both named before and new can be answered with a failure although a member got the message |
| `LmtpRecipients.ReplyOfList` | src/lmtp/ingest.rs:324-417 | the reply in question is the one that a transaction gives to the list |
| `FilterParser.ParseFilter` | components/jmap/src/jmap_store/query.rs:104-165 | the stack loop terminates with the result, the calls and the failure of the structural recursion, which `FilterMeansTree` and `CallsInOrder` are about |
| `FilterParser.FilterMeansTree` | components/jmap/src/jmap_store/query.rs:104-165 | for every tree and every condition parser: there is no filter if and only if the tree has no condition, and otherwise the filter is true if and only if the tree is, where parts of the tree without any condition count for nothing |
| `FilterParser.CallsInOrder` | components/jmap/src/jmap_store/query.rs:131-143 | conditions are parsed from left to right, all of them or up to the first that is rejected |
| `ChangesPaging.ReadChanges` | components/store/src/log/changes.rs:185-246 | the scan selects exactly the ids of the query, and reports the first and last of them |
| `ChangesPaging.TakePage` | components/jmap/src/jmap_store/changes.rs:81-184 | the page is cut from the end of what was not sent |
| `ChangesPaging.SortByKind` | components/jmap/src/jmap_store/changes.rs:150-173 | the page sorted by kind, each change once, and whether only children changed |
| `ChangesPaging.AnswerRequest` | components/jmap/src/jmap_store/changes.rs:67-190 | the whole request with its two limits |
| `ChangesPaging.RangeIsStable` | components/store/src/log/changes.rs:192-246 | however the log grows, the range between first and last id gives the same changes, unless the last id is 0 |
| `ChangesPaging.PagingIsExact` | components/jmap/src/jmap_store/changes.rs:81-189 | a client that follows the states receives every change exactly once, in at most as many requests as there are changes, and ends in the exact state, for all page sizes and while the log grows; needed is a last id other than 0, at most one change, or a log that stays as it is |
| `ChangesPaging.PageSizes` | components/jmap/src/jmap_store/changes.rs:81-189 | which changes a client has after any number of requests, by the page sizes alone |
| `ChangesPaging.SessionsJoin` | components/store/src/log/changes.rs:185-246 | a client that comes back with the state it ended in gets exactly the records it has not had: those of both requests, in order, are those of one request now |
| `ChangesPaging.ZeroRangeBreaks` | components/store/src/log/changes.rs:192-219 | for every record under id 0 that amounts to two or more changes and every further one that adds a change: a client that asks one by one while the second is appended receives the last change twice |
| `JmapChanges.ChangeList.PushUpdate` | components/store/src/log/changes.rs:82-110 | the search with its two ways out gives `AddUpdate` |
| `JmapChanges.ChangeList.PushDelete` | components/store/src/log/changes.rs:115-136 | the search with its two ways out gives `AddDelete` |
| `JmapChanges.ChangeList.Deserialize` | components/store/src/log/changes.rs:65-152 | one record is added to the list in place, as by `AddRecord` |
| `JmapChanges.ListTells` | components/store/src/log/changes.rs:65-152 | for all records that a server can have written: which ids are created, updated and destroyed, each once; that an update is told as one of children only if no record updates the id itself; and that an id which came back is destroyed first |
| `JmapChanges.NetEffect` | components/store/src/log/changes.rs:65-152 | whoever applies the whole list to the ids from before has the ids of the server; an id that came and went is not mentioned, updated ids are neither created nor destroyed, and those both created and destroyed are exactly the ones that were deleted and came back; which updates are not of children only |
| `JmapChanges.AfterSnapshot` | components/store/src/log/changes.rs:138-144 | after a snapshot a client that had ids already has those of the server if and only if the server still has all of its ids |
| `JmapChanges.FollowedIds` | components/jmap/src/jmap_store/changes.rs:81-189 | a client that applies page after page has the ids the server had, except those for which the end of a page falls between their deletion and their return in the list, for all page sizes and while the log grows |
| `JmapChanges.ClientHasAllIds` | components/jmap/src/jmap_store/changes.rs:81-189 | it has all of them if and only if there is no such id, and there is none unless one was deleted and came back |
| `JmapChanges.SessionsAddUp` | components/jmap/src/jmap_store/changes.rs:81-189 | the ids after both requests of such a client are those of the server now, and the second request meets what the first left |
| `JmapChanges.ReusedIdsAreLost` | components/jmap/src/jmap_store/changes.rs:140-184 | for all records and logs: a client that asks one by one ends in the exact state with the server's ids but those that were deleted and came back |
| `JmapChanges.ReusedIdIsLost` | components/jmap/src/jmap_store/changes.rs:140-184 | such a log of two records for every id |
| `JmapChanges.ZeroRangeRepeats` | components/store/src/log/changes.rs:192-219 | records with which the range that ends at 0 repeats a change |
| `Heartbeat.Peer.UpdateHeartbeat` | src/cluster/gossip/heartbeat.rs:35-82 | exactly when a heartbeat only revives the peer; otherwise its capped interval is added to those counted, and the window holds the latest 1024 of them, with their sums |
| `Heartbeat.Peer.Count` | src/cluster/gossip/heartbeat.rs:65-79 | the ring, its sums and whether it is full stand for the intervals counted so far; no sum underflows, overflows or saturates, and the 32-bit slot loses nothing |
| `Heartbeat.CountNext` | src/cluster/gossip/heartbeat.rs:65-79 | the same on values |
| `Heartbeat.WindowUpdate` | src/cluster/gossip/heartbeat.rs:71-79 | replacing one interval changes both sums by exactly the difference, without underflow, overflow or saturation |
| `Heartbeat.Peer.Variance` | src/cluster/gossip/heartbeat.rs:94-100 | mean and variance are those of the latest 1024 intervals, or before that of all counted and one zero that was never measured; the variance is the mean squared distance from the mean, hence never negative |
| `Heartbeat.VarianceIsDeviation` | src/cluster/gossip/heartbeat.rs:99-100 | mean of the squares minus square of the mean is that distance |
| `Heartbeat.Peer.constructor` | src/cluster/peer.rs:53-57 | an empty window is a ring of no intervals |
| `RateLimit.RateLimiter.IsAllowed` | src/authorization/rate_limit.rs:88-103 | one request is the step of the runs that `RefusedExactly` is about; tokens stay between none and the maximum |
| `RateLimit.TokensInBounds` | src/authorization/rate_limit.rs:88-103 | the same for all runs |
| `RateLimit.AdmittedIsBounded` | src/authorization/rate_limit.rs:88-103 | any stretch of requests that takes t seconds has at most the maximum plus t times the rate admitted |
| `RateLimit.RefusedExactly` | src/authorization/rate_limit.rs:88-103 | for every bucket and all times: a request is refused if and only if, counting it, more requests have been admitted than the tokens at the start and what has come in since allow, or than the maximum and what has come in since some earlier request allow |
| `RateLimit.RefusedFromFull` | src/authorization/rate_limit.rs:88-103 | from a full bucket the second alone decides: nothing is refused before the maximum plus the elapsed time's share is used up in some stretch |
| `Leb128.RoundTrip` | components/store/src/serialize/leb128.rs:101-180 | an encoded number is read back whatever follows, if as many groups are read as it has |
| `Leb128.ReadsBack` | components/store/src/serialize/leb128.rs:101-180 | 64-bit numbers are read back by the reader with its limit |
| `Leb128.DecodesExactly` | components/store/src/serialize/leb128.rs:135-149 | decoding accepts exactly the codes within the limit whose last byte alone has its top bit clear, and gives the value of their base-128 digits, lowest first |
| `Leb128.EncodesShortest` | components/store/src/serialize/leb128.rs:121-132 | encoding gives such a code for the number, and the shortest one |
| `RpcFraming.Receiver.Receive` | src/cluster/rpc/serialize.rs:42-74 | decodes as many frames as are there and keeps the rest |
| `RpcFraming.FirstFrame` | src/cluster/rpc/serialize.rs:42-74 | a frame is decoded as soon as it is complete and four bytes are there |
| `RpcFraming.Framing` | src/cluster/rpc/serialize.rs:35-94 | any list of payloads in any pieces is decoded in order without error, completely if and only if the last has three bytes or more |
| `RpcFraming.OversizedFrame` | src/cluster/rpc/serialize.rs:47-58 | a length beyond the limit is refused as soon as it is read, after all frames before it |
| `RpcFraming.ShortFrame` | src/cluster/rpc/serialize.rs:43-46 | a complete frame that is not delivered |
| `GossipCodec.DecodePeers` | src/cluster/gossip/request.rs:63-79 | the loop takes peers off until the count or the bytes are used up |
| `GossipCodec.JoinRoundTrip` | src/cluster/gossip/request.rs:48-58 | messages about joining survive the round trip |
| `GossipCodec.PeersRoundTrip` | src/cluster/gossip/request.rs:59-89 | messages with peers survive it if and only if the first number lies within the decoder's limits |
| `GossipCodec.CutMessage` | src/cluster/gossip/request.rs:59-89 | what the decoder makes of every message without its last peers |
| `GossipCodec.LonePing` | src/cluster/gossip/request.rs:59-67 | every ping with one peer aborts the decoder |

## Left out

- Terms, sequence numbers and counters other than log indexes and heartbeat sums are unbounded.
- Node restarts and membership changes during elections, and what a follower's log holds beyond its committed part when it votes.
- Matching.FindMatch: logs have one entry per index and no gaps after the first, as ids are counted up by one and compaction cuts off the beginning; that entries with the same id have the same contents is assumed where logs and documents come together.
- Changes of the leader's documents during an exchange, and leader-side tombstones.
- Replication.Replicate: assumes that requested change sets fit into one batch and that no record inserts and updates a fresh id; `DocumentSync.AnswerComplete` and `DocumentSync.Convergence` say exactly what happens otherwise.
- Replication.MergeLog: where the follower reports an error although its log is cut and its documents are in sync, its process ends and the leader starts over; the model goes on directly.
- Crashes.CatchUpDespiteRestarts: a crash in a log message falls between messages, as each is one write batch; a crash within a rollback is the subject of `Exchange.RollbackResumes`.
- StaleKey.RollbackThenRestart: the restart comes after the log records of the round and before its documents; `Restarts.RestartIsExact` covers any other moment as a statement about the store.
- Acknowledgements.CommittedIsHeld: assumes that reports are honest and that no peer was noted with such an index before; `Acknowledgements.ReportRound`, `ReportAfterUndo`, `ReportAtMatch`, `ReportAfterRestart` and `ReportAfterMatch` say when they are, and `StaleNotes.NewCommitsAreReported` says when the notes do no harm.
- StaleNotes.NewCommitsAreReported: reports come from other members and are of entries that the node has; the index that a leaving peer announces is not held to that.
- FollowerProcess.Follower.Start: without the recovery of a leader's own entries, which precedes it.
- Exchange.AnswerRollback: states the content of the answer for change sets that fit into one batch.
- Blobs, term index and document fields beyond their bytes, and the transfer of blobs; `Conversation` has its states only. The size of an answer (`DocumentSync.ItemSize`) therefore counts neither blobs nor term indexes, which the code adds to it.
- Pending records hold one slot each, as both writers make them, so that the switch to another account within a record is not modelled.
- Recovery of a leader's own uncommitted entries (`commit_leader`) at the start of a follower process.
- Byte layout of change records, log entries and keys; a document write is taken as setting all its fields.
- Conversation: what the data decide is left open; replies that arrive late are not part of this model, as each belongs to its request.
- RateLimit.RateLimiter.IsAllowed: floating-point numbers are taken as reals, the interval is positive, and the clock, which never runs backwards, is read once per request.
- Heartbeat.Peer.Variance: computed over reals; the phi value, its thresholds, the resulting state and the early return for an empty window are not part of this model.
- RpcFraming.Framing: payloads are bytes; their deserialization is not part of this model.
- GossipCodec.PeersRoundTrip: the decoder's abort on a negative capacity is an outcome of the model.
- LmtpRecipients.Transaction: delivery to one account, Sieve scripts and the texts of replies are parameters or left out.
- JmapChanges.FollowedIds: the records are those a server can have written (ids are new when inserted and there when updated or deleted), and a snapshot stands at the beginning; the compaction that writes snapshots is not part of this model.
- FilterParser.ParseFilter: the condition parser is a function of the conditions it has been given.
- Sockets, TLS, encryption, key derivation, HTTP, OAuth, WebSocket, event streams, housekeeping and the rest of the JMAP methods.
