# Configraft: replicated MVCC store with resumable watches

Configraft keeps a key-value configuration store replicated by Raft and lets
clients follow changes by long polling. Four pieces of code only work together,
and this project models them as one layered development and proves what they
guarantee jointly:

1. **The store.** One flat, byte-ordered LevelDB map holds five key shapes. The
   class `StoreModel.Store` works on that byte map (Seek, scan, atomic batches,
   pinned iterators); every method is proved to do to the abstract state
   (`Mvcc.State`: main index, history by revision, published versions, revision,
   compact_rev) what the simple abstract operation says. `LevelDb`, `Scans` and
   `Maintenance` hold the refinement proofs; `StoreKey` holds the key encoding.
2. **Replicated apply.** `Mvcc.Apply` is the deterministic command interpreter,
   `StateMachineModel` the `on_apply` loop over store and hub. `History` follows
   one store over commands and two-phase compactions, `Replication` compares a
   replica that compacts locally and installs snapshots with the run that never
   does either. `Laws` says for each command, record by record, what it leaves, answers
   and announces; `Commands` compares commands with one another.
3. **The watch protocol.** `Hub` has the waiter buffers and the broadcast loops as
   classes. `WatchNode` is a state machine with one step per atomic action of the
   applier (commit; copy the waiter list; push to one waiter), of compaction (scan;
   erase), of snapshot installation and of each watcher (check, catch up,
   register, read revision, pin, replay, unregister, read buffer, return). Its
   history is what this node itself committed: commands may be refused, writes may
   fail, and no other replica plays a part. `WatchSteps` proves the invariant step
   by step, `WatchTheorems` draws the guarantees for every schedule; `Answers` gives
   every answer of every schedule, `FromNow` those of a watch without a starting
   revision; `Redelivery` and `InstallGap` say exactly when the documented promises
   fail, with the concrete runs of `WatchLimits` and `WatchRuns` (built from
   `Schedules`); `NodeHistory` ties nodes to single stores; `Cluster` and `Resume`
   follow clients that move between nodes.
4. **The read gate.** `ReadGate` has the polling loops of `RaftNode::Get` as
   methods and the gate as a state machine over the cluster of `Cluster`.

Reading order: `Records`, `Mvcc`, `Laws`, `History`, `Replication`, `WatchNode`,
`WatchTheorems`, `Answers`, `FromNow`, `Redelivery`, `InstallGap`, `Cluster`, `Resume`;
then the byte level from `StoreKey` to `Store`.
`dafny verify dfyconfig.toml` checks everything.

Conventions: a `char` stands for a byte of a key or value; a failed LevelDB write
is the parameter `writeOk`; a clock is a list of polls, or a step that may happen
at any time; the auxiliary fields of a watcher (`aux`, and `seen` in an outcome)
and of a node (`applied`, `stream`) are history variables that no step reads, except
that the guard of `Install` ties the snapshot's history to the node's.

## Where the code and its documentation differ

The model follows the code. Each difference has a lemma.

- "No loss, no repetition" (docs/watch.md:7, src/raft/node.h:41-43): repetition is
  possible, because a command can be committed, and so be below a client's
  anchor, before it is broadcast. `Redelivery.RepetitionExactly` gives the exact
  condition at registration; `WatchLimits.RedeliveryHappens` is a concrete run.
- "Never return a current_revision below from_revision"
  (src/watch/watch_hub.cpp:119): it happens in exactly three cases, given by
  `WatchTheorems.AnchorFallsBack`: the watcher was canceled while catching up, it
  gave up while the store was still behind, or all events returned are old.
  `WatchLimits.CatchUpFallsBack` shows the first two on any node behind a client;
  `Redelivery.AnchorFallsExactly` says when a registration can lead to the third.
- "What was committed before the registration is not returned" to a watch without a
  starting revision (src/watch/watch_hub.cpp:141): it is, exactly if the command
  committed but not yet broadcast at registration has a matching event
  (`FromNow.EarlierCommits`; a run: `WatchRuns.EarlierCommitReturned`).
- "Resume from current_revision loses nothing" for an empty answer
  (src/raft/node.h:41-43): `WatchTheorems.EmptyAnswerAnchor` says when it loses
  something, seen from the Unregister step; `WatchLimits.EmptyAnswerLoses` is a
  concrete loss.
- A snapshot installed while a watcher waits can leave a gap in its answer, since
  the hub is not told. `InstallGap.InstallGapExactly` gives the exact condition,
  `InstallGap.InstallLeavesGap` a concrete run.
- "from >= compact_rev if and only if there is no hole"
  (src/store/store.cpp:551): exact in runs without snapshot loads
  (`History.DenseHistory`), in general exactly when the record at compact_rev is
  gone (`History.CompactedTestExact`), and wrong after loading any export with
  something above its own compact_rev (`Replication.LoadedTestErrs`).
- "All nodes execute the same logic" (src/raft/state_machine.cpp:33): compaction
  is local and deletes what `Rollback` reads, so replicas can answer one log entry
  differently. `Replication.ApplyAgrees` gives the exact condition,
  `Replication.RollbackDiverges` a concrete run.

## Model

| member | source | states |
|---|---|---|
| `WatchTheorems.WatchHasNoGaps` | src/watch/watch_hub.cpp:139-211 | in every interleaving of commits (refused commands and failed writes included), broadcasts, compactions, installs and watchers, an OK answer with events to a positive `from` is strictly ascending, its anchor is the last event's revision, and its part above `from` is every matching event this node committed in (from, anchor] and nothing else; only if a snapshot brought the waiting watcher a matching event past the hub is nothing claimed here |
| `WatchTheorems.GapExactly` | src/watch/watch_hub.cpp:179-211 | for every such answer, also across installs: it has a gap if and only if, in the run, a broadcast with a matching event reached the watcher's buffer without overflowing it after an install had brought the waiting watcher a matching event past the hub |
| `WatchTheorems.MissedOrigin` | src/watch/watch_hub.cpp:54-72 | a watcher is marked as having missed events if and only if such a broadcast happened in its run |
| `WatchTheorems.ReachableInv` | src/watch/watch_hub.cpp:25-75 | the protocol invariant (buffers hold exactly the broadcast matching events, pinned iterators cover the replay window, waiter list equals registered watchers) holds after every schedule |
| `WatchTheorems.SkipOrigin` | src/raft/state_machine.cpp:130-149 | a watcher is marked as overtaken if and only if some install of its run, while it waited, brought an event it watches for |
| `WatchSteps.StepKeeps` | src/watch/watch_hub.cpp:93-215 | each of the eighteen steps keeps that invariant, which for a positive `from` includes that the outcome reached so far is right; the answers themselves are the rows of `Answers` and `FromNow` |
| `WatchTheorems.RedeliveryIsBounded` | src/watch/watch_hub.cpp:120-144 | events at or below `from` in an answer all belong to the one command that was committed but not broadcast at the watcher's own Register step, and match its filter; answers across an install included |
| `WatchTheorems.PendOrigin` | src/raft/state_machine.cpp:35-41 | the pending command a watcher is charged with is the one unbroadcast in the state of its Register step |
| `WatchTheorems.NoRedeliveryWhenQuiet` | docs/watch.md:7 | if the command pending at registration has no matching event at or below `from` and no snapshot overtook the watcher, the answer is exactly the matching history of (from, anchor] and the anchor advances |
| `Answers.AnswerExactly` | src/watch/watch_hub.cpp:93-215 | every answer of every schedule, for every `from`, installs included: it was settled by one step of its watcher, and code, events and revision are COMPACTED with the current revision if the check or the replay saw compact_rev above `from`; INTERNAL or an empty OK with 0 for a catch-up given up or canceled; the first max matching events of (from, revision read] for a replay; and for a waiter all matching events pushed to it since it registered with the last one's revision, an empty OK with the current revision if there are none, INTERNAL if they are more than max (1024 when no limit is given) |
| `Answers.BufferOrigin` | src/watch/watch_hub.cpp:54-74 | in every schedule a registered watcher's buffer holds exactly the matching part of the events pushed to it since its Register step, or has overflowed if that is more than max |
| `Answers.RequestOrigin` | src/watch/watch_hub.cpp:93-103 | a watcher keeps the key and the revision of the request that started it; a negative revision counts as 0 |
| `Answers.CheckRefuses` | src/watch/watch_hub.cpp:106-113 | a watcher whose first check sees compact_rev above `from` answers COMPACTED with the revision at its return, whatever happens in between |
| `FromNow.WatchFromNow` | src/watch/watch_hub.cpp:139-214 | for every return of a watch without a starting revision that no snapshot overtook: with `base` the history length at its Register step less the command unbroadcast then, and some point not before what had been broadcast to it at its Unregister step, it answers with all matching events committed between the two and the last one's revision, with an empty OK and the current revision if there are none, with INTERNAL if they are more than max |
| `FromNow.FromNowComplete` | src/watch/watch_hub.cpp:204-211 | such an answer with events is the matching history from `base` up to exactly its anchor, which is the last event's revision |
| `FromNow.EarlierCommits` | src/watch/watch_hub.cpp:141-144 | such an answer with events returns something committed before the registration if and only if the command unbroadcast at the Register step has a matching event |
| `WatchRuns.FromNowDelivers` | src/watch/watch_hub.cpp:204-211 | from an empty node: a put to a watched key after the registration is answered with its event and revision 1 |
| `WatchRuns.EarlierCommitReturned` | src/watch/watch_hub.cpp:141-144 | from an empty node: a put committed before the registration is answered to a watch from now on |
| `WatchRuns.OverflowAnswers` | src/watch/watch_hub.cpp:197-203 | from an empty node with a buffer of one: two matching events are answered with INTERNAL, no events and the current revision |
| `WatchRuns.CompactedAnswers` | src/watch/watch_hub.cpp:106-113 | any node in any state has a schedule that answers a positive `from` below its compact_rev with COMPACTED and the current revision |
| `WatchRuns.CompactionRefusesOld` | src/store/store.cpp:414-471 | from an empty node: after three puts of a key and a compaction to one version, the client at revision 1 is refused and sent to 3 |
| `WatchRuns.ReplayServes` | src/watch/watch_hub.cpp:146-159 | any node whose history records its stream, with matching events above a `from` that is not compacted, has a schedule that answers with the first max of them |
| `NodeHistory.NodeIsLocalRun` | src/raft/state_machine.cpp:16-59 | in every schedule without installs a node's store, pending compaction and stream are those of the single store's run of its commands and compactions, so the `History` rows hold on nodes |
| `NodeHistory.CompactionInRun` | src/store/store.cpp:414-471 | scan, any commands, erase inside any run of one store: the commands keep all they wrote, and exactly the records with at least max(n,1) newer ones of their key at the scan are gone |
| `Redelivery.RepetitionExactly` | docs/watch.md:7 | for every reachable state: some continuation of a registration, installs included, answers with an event at or below `from` if and only if, at registration, the unbroadcast command has a matching event at or below `from`, its matching events fit the waiter buffer, nothing matching is above `from` and `from` is not compacted |
| `Redelivery.ExposedRepeats` | src/watch/watch_hub.cpp:139-159 | such a registration has a schedule that repeats an event |
| `Redelivery.RepeatsExposed` | src/watch/watch_hub.cpp:179-211 | a repetition after any continuation implies the condition held at registration, and comes with every matching event of the pending command |
| `WatchTheorems.AnchorFallsBack` | src/watch/watch_hub.cpp:115-137 | for every return to a positive `from`: the anchor is below `from` if and only if the watcher was canceled while catching up, or gave up with the store still below `from`, or every event of the answer is below `from` |
| `Redelivery.AnchorFallsExactly` | src/watch/watch_hub.cpp:179-211 | some continuation of a registration answers with events all below `from` if and only if the registration can repeat an event and the event at revision `from` does not match |
| `WatchLimits.CatchUpFallsBack` | src/watch/watch_hub.cpp:125-136 | on any node behind a client, a failed catch-up answers INTERNAL with the lagging revision and a canceled one answers OK with 0 |
| `WatchLimits.RedeliveryHappens` | src/watch/watch_hub.cpp:115-119 | a schedule from an empty node where the client at 2 receives event 1 again with anchor 1 |
| `WatchTheorems.EmptyAnswerAnchor` | src/watch/watch_hub.cpp:195-214 | for every empty OK answer to a positive `from`, with the state before its Unregister step: resuming from the returned revision skips a matching event if and only if one was committed or installed after that state, or one above `from` belonged to the command that had not been pushed to this waiter in that state, or a snapshot had overtaken the watcher before |
| `WatchTheorems.UnregisterOrigin` | src/watch/watch_hub.cpp:193-195 | an answer from the wait loop has its Unregister step in the run, taken while waiting, and has looked at everything offered by then |
| `WatchLimits.LateWriteIsSkipped` | src/watch/watch_hub.cpp:193-214 | any watcher waiting with an empty buffer on an idle node has a schedule in which a write after Unregister lies inside the empty answer's anchor without having been delivered |
| `WatchLimits.EmptyAnswerLoses` | src/raft/node.h:41-43 | a concrete run in which adopting the empty answer's revision skips a matching event |
| `InstallGap.InstallGapExactly` | src/raft/state_machine.cpp:130-149 | after the first install that could overtake a waiting watcher, some continuation without a further snapshot answers with a gap if and only if the snapshot brings a matching event and the waiter's buffer is neither full nor overflowed |
| `InstallGap.GapAfterInstall` | src/raft/state_machine.cpp:130-149 | after any install over a waiting watcher: such a continuation exists if and only if the buffer is not overflowed, lacks a matching event beyond the replay, and holds or has room for a later one |
| `InstallGap.InstallLeavesGap` | src/raft/state_machine.cpp:130-149 | a concrete run from an empty node whose answer leaves out an event a snapshot brought; the snapshot is an export of the run of a longer log prefix, with that run's history |
| `Resume.ResumeIsComplete` | src/watch/watch_hub.cpp:93-215 | over whole runs of a cluster (any nodes, compactions, installs, restarts, node changes between rounds): a client that starts at a positive anchor and moves it only on OK answers with events has received, redelivered events dropped, exactly the matching history from its start to its highest revision, a prefix of the matching history, provided no move of the run installs a snapshot with a matching event on the node whose wait loop the client is in at that moment |
| `Resume.RoundTakesNews` | src/raft/node.h:41-43 | a round of a client that ends with OK and events moves its anchor to the answer's revision and adds every event above its highest revision; any other round changes nothing |
| `Resume.ClientOnlyGrows` | src/raft/node.h:41-43 | over any run a client keeps its request and start and loses nothing it has received |
| `Resume.NodesAreReached` | src/raft/state_machine.cpp:16-149 | every node of every cluster run, restarted ones included, is where some schedule leads from a fresh node, so the theorems about one node hold of it |
| `Cluster.UntaintedComplete` | src/watch/watch_hub.cpp:93-215 | the same conclusion for any client that accepted no answer with a gap |
| `Cluster.SnapshotsExtend` | src/raft/state_machine.cpp:92-149 | every snapshot saved in a cluster run that is not older than a node loads to a valid store whose history continues that node's |
| `Cluster.MoveKeepsWorld` | src/watch/watch_hub.cpp:93-215 | every cluster move keeps the cluster invariant (node invariants, log prefixes, saved snapshots, clients) |
| `Cluster.ReplicasAgree` | src/raft/state_machine.cpp:16-59 | nodes that have applied equally many entries have applied the same ones and have the same main index and revision as the run without compaction or snapshots; their published versions are a subset of that run's |
| `Cluster.ResultsAgree` | src/raft/state_machine.cpp:33-35 | whatever its compactions and installs, a node answers a log entry with the result and the events of the uncompacted run |
| `History.PublishedNeverReused` | src/store/store.cpp:282-381 | on one store, over any run of commands and two-phase compactions, rollbacks refused for a compacted target and failed writes included: once a positive version is looked up as a record, every later lookup gives that record or VERSION_NOT_FOUND |
| `Cluster.PublishedVersionsImmutable` | src/store/store.cpp:282-381 | the same between any two nodes, across installs and restarts, in runs whose replicas agree (no command whose write fails, no rollback to a version compacted on the applying node): once any node returns a record for a positive version, every node ever after returns that record or VERSION_NOT_FOUND |
| `Replication.ApplyAgrees` | src/store/store.cpp:322-337 | a tracking replica returns the reference result, and keeps tracking, if and only if a rollback target present in the reference run is still retained locally; otherwise it answers VERSION_NOT_FOUND, stays put and falls one revision behind |
| `Replication.CompactTracks` | src/store/store.cpp:414-471 | erasing superseded records, also ones scanned earlier, keeps a replica tracking the uncompacted run |
| `Replication.LoadTracks` | src/raft/state_machine.cpp:130-149 | installing a snapshot exported by a tracking peer keeps a replica tracking |
| `Replication.SnapshotPlusSuffix` | src/store/store.cpp:598-679 | export after any command prefix, load, apply any suffix: same main index, published versions, revision, per-command results and events as the full log, and the same history above the snapshot |
| `Replication.LoadedTestErrs` | src/store/store.cpp:551-557 | loading any export of a store with something above its compact_rev leaves the record at the new compact_rev in place, so a resume from the revision before is refused although nothing is missing |
| `Replication.LoadExported` | src/store/store.cpp:635-679 | a loaded export has the source's main index and published versions, revision = compact_rev = the source's revision, and in its history exactly the records that are current |
| `Replication.CompactedRollbackDiverges` | src/store/store.cpp:451-452 | any published version whose key has at least n newer records (1 if n < 1) gives a rollback that fails after a local compaction to n and succeeds without |
| `Replication.RollbackDiverges` | src/store/store.cpp:322-337 | two publications, one compaction, one rollback: the replicas' results differ |
| `Replication.RunFacts` | src/store/store.cpp:75-83 | after any log from the empty store the invariant holds, compact_rev is 0 and the event stream is the history record by record |
| `History.TwoPhaseCompaction` | src/store/store.cpp:414-471 | scanning in one state and erasing after any commands removes exactly the records that had at least n newer ones of their key (1 if n < 1) at the scan; they still have, every current record stays, compact_rev never drops, and published versions go only together with such a record |
| `History.CompactionKeepsNewest` | src/store/store.cpp:444-458 | an uninterrupted compaction leaves each key the smaller of its count and n (1 if n < 1) |
| `History.NewerIsCount` | src/store/store.cpp:418-437 | the count of newer records used by all compaction rows is the number of history records of that key in the revision range |
| `History.CompactKeepsInv` | src/store/store.cpp:459-469 | erasing any superseded set keeps the store invariant and all current records |
| `History.DenseHistory` | src/store/store.cpp:551-557 | in every run of commands and two-phase compactions, failed writes included, each revision of (compact_rev, revision] has its record, and `from < compact_rev` holds if and only if (from, revision] has a hole |
| `History.CompactedTestExact` | src/watch/watch_hub.cpp:106-113 | in any valid store with positive compact_rev, the test `from < compact_rev` is exact if and only if the record at compact_rev is gone |
| `History.ReplayRacingCompaction` | src/store/store.cpp:518-593 | iterator pinned in one state, compact_rev read after any later commands and compactions, failed ones included, any int64 arguments: nothing and OK if max_events is not positive; else COMPACTED exactly if from (0 if negative) is below the compact_rev read; else the never-compacted history of (from, current], filtered, and cut to the first max_events only if longer |
| `History.LiveEqualsReplay` | src/store/store_ops.cpp:11-19 | the announced events are numbered 1,2,3,... and a replay from any anchor at or above compact_rev rebuilds them field for field |
| `Records.SelectExactly` | src/watch/watch_hub.h:32-34 | selecting from numbered events keeps, in ascending order, exactly those whose key is the wanted one; the empty filter wants all |
| `History.ApplyGrows` | src/store/store.cpp:75-83 | a command adds exactly one history record per event under the next revisions, each equal to its event, and disturbs no other |
| `History.ApplyKeys` | src/store/store.cpp:282-314 | revisions and versions of current records never decrease, published versions are never overwritten, new ones are above every earlier version of the key |
| `Mvcc.ApplyKeepsInv` | src/store/store_ops.cpp:122-148 | every command, failed write or not, keeps the store invariant |
| `Laws.PutLaw` | src/store/store.cpp:85-120 | the whole state, result and event after a put: one live record with the key's next version under the next revision, current and in the history, announced as PUT; nothing else changes |
| `Laws.DeleteLaw` | src/store/store.cpp:122-160 | the same for a delete: a tombstone without a value, also for a missing key, announced as DELETE |
| `Laws.CasLaw` | src/store/store.cpp:162-223 | the swap writes the new value if and only if the live value is the expected one, or nothing is live and the expectation is empty; otherwise CAS_FAILED and the very same state |
| `Laws.PublishLaw` | src/store/store.cpp:277-314 | a put whose record is also filed under (key, version) |
| `Laws.RollbackLaw` | src/store/store.cpp:316-337 | publishes again the value of the published version, or of the live record for a non-positive target, under the next version and revision; VERSION_NOT_FOUND and the very same state if there is none |
| `Laws.BatchFiles` | src/store/store.cpp:237-265 | pair i of a batch is filed, returned and announced as a PUT under revision + 1 + i with the version that follows the one before the batch |
| `Laws.BatchCounts` | src/store/store.cpp:225-275 | a batch moves the revision by its length, publishes nothing and disturbs no history |
| `Laws.BatchCurrent` | src/store/store.cpp:245-265 | a key's last pair in the batch becomes its current record; keys not in the batch keep theirs |
| `Laws.UnknownLaw` | src/store/store_ops.cpp:143-146 | a command of an unknown kind answers INTERNAL and changes nothing |
| `Laws.FailedWriteLaw` | src/store/store.cpp:112-115 | a failed database write changes nothing and answers INTERNAL, except that a command refused before writing keeps its refusal and an empty batch its OK |
| `Laws.GetLaw` | src/store/store.cpp:478-499 | a read finds a record if and only if it is the key's current one and no tombstone; otherwise KEY_NOT_FOUND |
| `Laws.GetConfigLaw` | src/store/store.cpp:345-381 | a positive version finds the record filed under it, or VERSION_NOT_FOUND; any other reads the live current record, or KEY_NOT_FOUND |
| `Laws.OthersUnread` | src/store/store_ops.cpp:122-148 | a command changes no read of a key it does not name |
| `Laws.ReadsAfterWrites` | src/store/store.cpp:473-499 | a put is read back; a deleted key is missing, to version 0 and to an empty CAS expectation too; neither touches a published version |
| `Laws.DeleteIsReplayed` | src/store/store_ops.cpp:11-19 | a delete is announced with type DELETE, and a replay rebuilds the same event for its key and for the empty filter |
| `Laws.RollbackRestores` | src/store/store.cpp:277-337 | on one store: publish, then any commands and compactions, then roll back to that version: the published value is current and readable under the next version and revision, or the version is gone from the index and the rollback is refused without change |
| `Commands.BatchPutRefinesPuts` | src/store/store.cpp:232-275 | the returned records equal those of putting one by one if and only if the keys are pairwise distinct, and then the final store and the events are equal too |
| `Commands.ExactlyOneSwapWins` | src/store/store.cpp:168-223 | commands that touch a key only by CAS with one non-empty expectation and different values: exactly one wins if the key starts with that value and some attempt is made, none otherwise |
| `Commands.FailureChangesNothing` | src/store/store_ops.cpp:79-97 | a command that does not return OK leaves store and revision alone and announces nothing |
| `ReadGate.ReadIsLinearizable` | src/raft/raft_node.cpp:166-199 | in every run, across leader changes: a gated read that returns at the end of the run shows the state of one log prefix that covers every write acknowledged and every gated read returned before it began |
| `ReadGate.ActKeeps` | src/raft/raft_node.cpp:166-242 | every act of writers, readers, leases and nodes keeps the gate invariant |
| `ReadGate.WaitLeaderLease` | src/raft/raft_node.cpp:201-222 | true exactly if some poll is VALID and every earlier one was NOT_READY within the deadline; so EXPIRED, DISABLED or a timeout at an earlier poll gives false |
| `ReadGate.WaitAppliedCatchUp` | src/raft/raft_node.cpp:224-242 | true exactly if some sample has applied at or above committed and every earlier one was behind within the deadline |
| `ReadGate.GetRead` | src/raft/raft_node.cpp:166-199 | result code and record for every combination of serializable, lease polls, leadership, catch-up samples and the key's current record, over the byte store |
| `ReadGate.ReadSeesWrite` | src/raft/raft_node.cpp:166-199 | a run in which a gated read passes and returns the acknowledged write |
| `Hub.PushAllOrNothing` | src/watch/watch_hub.cpp:54-74 | one broadcast to one waiter adds all matching events if they fit, and otherwise empties the buffer and flags overflow |
| `Hub.Waiter.Push` | src/watch/watch_hub.cpp:59-72 | the in-place loop over a waiter's buffer computes that push |
| `Hub.WatchHub.Broadcast` | src/watch/watch_hub.cpp:43-75 | every registered waiter's buffer and flag become the push of the whole batch |
| `Hub.WatchHub.Register` | src/watch/watch_hub.cpp:25-28 | the waiter is appended once, order kept |
| `Hub.WatchHub.Unregister` | src/watch/watch_hub.cpp:30-41 | exactly this waiter disappears from the list |
| `Hub.WatchHub.constructor` | src/watch/watch_hub.cpp:16-18 | no waiters; a zero limit becomes 1024 |
| `StateMachineModel.StateMachine.OnApply` | src/raft/state_machine.cpp:16-59 | over any batch of log entries, undecodable ones included, the in-place loop computes the folds that the next four rows explain |
| `StateMachineModel.BatchIsSerialRun` | src/raft/state_machine.cpp:18-41 | after the batch the store is the serial run of the decodable commands whose write succeeded, and the events broadcast are that run's, in log order |
| `StateMachineModel.EachOwnResult` | src/raft/state_machine.cpp:43-57 | each decodable entry gets the result of its command on the store its predecessors leave; an undecodable one gets none |
| `StateMachineModel.CleanResults` | src/raft/state_machine.cpp:33-47 | without undecodable entries and failed writes the results are those of the commands one by one |
| `StateMachineModel.BufferAfterBatch` | src/watch/watch_hub.cpp:54-74 | a waiter's buffer after the batch is the old one plus every announced matching event in log order if they all fit, and is flagged as overflowed otherwise |
| `StateMachineModel.StateMachine.ApplyEntry` | src/raft/state_machine.cpp:22-41 | one entry: new store state, result and the push of its events to every waiter |
| `StateMachineModel.ApplyCmdToStore` | src/store/store_ops.cpp:21-148 | each kind of command does to the byte store and answers what the abstract interpreter says, for which the `Laws` rows give state, result, error code and event |
| `StoreModel.Store.constructor` | src/store/store.cpp:14-34 | an empty directory is the empty store |
| `StoreModel.Store.ReadMain` | src/store/store.cpp:47-58 | the byte lookup is the main index lookup |
| `StoreModel.Store.CurrentRevision` | src/store/store.cpp:60-73 | decodes the abstract revision, 0 when absent |
| `StoreModel.Store.CompactRev` | src/store/store.cpp:501-514 | decodes the abstract compact_rev, 0 when absent |
| `StoreModel.Store.Get` | src/store/store.cpp:473-499 | OK with the current record if it exists and is no tombstone, else KEY_NOT_FOUND without one |
| `StoreModel.Store.GetConfig` | src/store/store.cpp:339-381 | a positive version: OK with the record filed under it, else VERSION_NOT_FOUND; any other version: as Get |
| `StoreModel.Store.Put` | src/store/store.cpp:85-120 | one atomic record with the next revision and version, or no change |
| `StoreModel.Store.Delete` | src/store/store.cpp:122-160 | one tombstone with the next revision and version, or no change |
| `StoreModel.Store.CompareAndSwap` | src/store/store.cpp:162-223 | writes exactly when the expectation holds (empty expectation: missing or tombstone); a mismatch uses no revision |
| `StoreModel.Store.Publish` | src/store/store.cpp:277-314 | a put that also files the published version |
| `StoreModel.Store.Rollback` | src/store/store.cpp:316-337 | republishes the target's value, or fails without change when the target is not there |
| `StoreModel.Store.BatchPut` | src/store/store.cpp:225-275 | consecutive revisions, versions read from the database and not from the batch, all or nothing |
| `StoreModel.Store.ReplayEvents` | src/store/store.cpp:518-594 | the scan over an iterator pinned in an earlier state, checked against the present compact_rev, is the abstract replay |
| `StoreModel.Store.GetHistory` | src/store/store.cpp:383-407 | exactly the key's retained published versions, ascending, for any key |
| `StoreModel.Store.ScanHistory` | src/store/store.cpp:414-458 | lists, once each and with key and version, exactly the records with at least n newer ones of their key (1 if n < 1), and the highest revision among them |
| `StoreModel.Store.EraseHistory` | src/store/store.cpp:459-471 | the batch is the abstract compaction, also when commands ran since the scan |
| `StoreModel.Store.Compaction` | src/store/store.cpp:409-471 | both phases together: the history keeps exactly the records with fewer than n newer ones of their key (1 if n < 1); the count is that of the records to remove even when the write fails |
| `StoreModel.Store.ExportSnapshot` | src/store/store.cpp:598-633 | the export holds the revision, every main record and every published version of the one state the iterator is pinned on |
| `StoreModel.Store.LoadSnapshot` | src/store/store.cpp:635-679 | whatever the store held before: any data is written record by record; data with one record per revision means the loaded state; data some valid store exported makes a valid store; a failed write leaves an empty one |
| `Maintenance.ExportRevision` | src/store/store.cpp:604-611 | the revision of an export is sought on the pinned iterator: that state's revision, 0 when absent |
| `StoreModel.TransferSnapshot` | src/store/store.cpp:598-679 | export from one store and load into another: same main index and published versions, revision and compact_rev set to the sender's revision |
| `LevelDb.WriteBatch` | src/store/store.cpp:110-115 | a batch applies fully, last operation on a key winning, or not at all, and commutes with the key encoding |
| `LevelDb.BatchMeans` | src/store/store.cpp:245-265 | the operations of a batch of records mean the abstract batch |
| `LevelDb.WriteMeans` | src/store/store.cpp:107-112 | the operations of one write mean the abstract write |
| `LevelDb.NewIterator` | src/store/store.cpp:547-548 | the iterator lists exactly the map's entries in byte order |
| `LevelDb.Seek` | src/store/store.cpp:562-564 | the first entry at or after the target |
| `LevelDb.Lookup` | src/store/store.cpp:47-58 | a byte lookup of an encoded key finds exactly that shape's cell |
| `Scans.ReplayScan` | src/store/store.cpp:562-593 | Seek to `VersionKey(from+1, "")` and scan visits exactly the records of (from, current] in revision order; the result is the matching ones cut to max_events |
| `Scans.VersionsAscend` | src/store/store.cpp:562-572 | iterator order of `v/` entries is revision order |
| `Scans.HistoryScan` | src/store/store.cpp:388-407 | the prefix scan with the embedded-key filter is the key's published versions in version order, also when other keys extend the key with a slash |
| `Scans.PublishedExact` | src/store/store.cpp:388-407 | that list holds exactly the retained published versions, strictly ascending |
| `Maintenance.CollectScan` | src/store/store.cpp:418-437 | the per-key table holds each key's (revision, version) pairs in revision order |
| `Maintenance.MarkKey` | src/store/store.cpp:444-458 | marking one key adds as many deletions as its list is longer than n (1 if n < 1), and extends the marked set by exactly that key's victims |
| `Maintenance.MarkAll` | src/store/store.cpp:439-458 | the deletions are exactly the records with at least n newer ones (1 if n < 1), each once, and the highest revision among them |
| `Maintenance.EraseMeans` | src/store/store.cpp:451-468 | the delete batch with its compact_rev means the abstract compaction |
| `Maintenance.ExportMain` | src/store/store.cpp:613-620 | the `k/` block scan returns exactly the main index |
| `Maintenance.ExportConfig` | src/store/store.cpp:622-629 | the `cfg/` block scan returns exactly the published versions |
| `Maintenance.LoadMeans` | src/store/store.cpp:647-670 | the load batch on an empty database means the abstract load |
| `StoreKey.KeyInjective` | src/common/storekey.cpp:18-29 | the five key shapes are disjoint and each is injective, for arbitrary keys |
| `StoreKey.KeyTag` | src/common/storekey.cpp:10-29 | the prefixes `k/`, `v/` and `cfg/` select exactly their shapes |
| `StoreKey.VersionOrder` | src/common/storekey.cpp:23-25 | byte order of `v/` keys is revision order for any keys, and `VersionKey(r, "")` is at or before every key of revision r and later |
| `StoreKey.ConfigOrder` | src/common/storekey.cpp:27-29 | for one key, byte order of `cfg/` keys is version order |
| `StoreKey.OrdOrder` | src/common/storekey.cpp:31-35 | byte order of `EncodeOrd` equals numeric order on 0..2^63-1 |
| `StoreKey.DecodeEncodeOrd` | src/common/storekey.cpp:31-39 | decoding inverts encoding on 0..2^63-1; every negative int64 is out of range for the decoder |
| `StoreKey.EncodeUint64` | src/common/storekey.cpp:41-47 | the byte loop writes the 8-byte big-endian form, from which the value is recovered |
| `StoreKey.DecodeUint64` | src/common/storekey.cpp:49-58 | the loop inverts the encoding on every 8-byte prefix; shorter input gives 0 |
| `StoreKey.BytesWeigh` | src/common/storekey.cpp:53-57 | the decoded value of eight bytes is their sum weighted from 2^56 for the first down to 1 |
| `StoreKey.Uint64RoundTrip` | src/common/storekey.cpp:41-58 | decoding inverts encoding on all of uint64 |
| `StoreKey.BigEndianValueRoundTrip` | src/common/storekey.cpp:41-58 | encoding inverts decoding on every byte string |

## Left out

- braft itself (elections, log replication, membership change, leases): used only through stated assumptions. There is one growing committed log, state machine callbacks on a node are serial, only snapshots that are not older than the node are installed, a snapshot is exported at the applied index it is labelled with, and a VALID lease means the local commit index covers every globally committed entry.
- Restart without a snapshot: `on_apply` would re-run old commands on a non-empty store; a restart here is a snapshot load plus the log suffix.
- Retention and write success between replicas: in `Cluster` and `ReadGate` a node applies a rollback only if the target, when present in the uncompacted run, is still there locally, and its writes succeed. `Replication.ApplyAgrees` shows retention is exactly what agreement needs. The theorems of `WatchTheorems`, `Redelivery`, `InstallGap` and `History` about one node or store assume neither.
- Snapshots foreign to a node: in `WatchNode` an installed snapshot continues the node's own history; `Cluster.SnapshotsExtend` shows that every snapshot of a cluster run does. A failed load, after which braft stops the node, is modelled for the store only.
- LevelDB internals: fsync, file deletion and reopening, a directory that cannot be opened, and read errors. Writes apply fully or fail with no change.
- StoreModel.Store.LoadSnapshot: says what state results only for data with one record per revision, as every export is; for other data it says which bytes are written.
- Integer overflow: the store requires revisions below 2^63-1, as the key encoding does.
- Protobuf: serialising and parsing a record are taken as inverse, so stored records that do not parse, and `v/` keys shorter than 18 bytes, do not occur. Log entries that do not parse are modelled.
- The branches `rev < 0` after allocating a revision: no revision is negative.
- Error texts, leader ids, logging, closures and the `leader_term_` callbacks.
- Clocks, bthread scheduling and condition variables: a timeout or a cancellation is a step that may happen at any time, and one push or one buffer read is atomic.
- `weak_ptr` lifetime: a waiter that has left is skipped by a broadcast whether or not it was already freed; the model pushes to a waiter that has unregistered and not yet returned, as the code may.
- Resume.ResumeIsComplete: claims nothing for a client overtaken by a snapshot while it waits; `InstallGap.InstallGapExactly` and `WatchTheorems.GapExactly` say when such a watch does lose an event.
- Two compactions running at once: the code runs compaction on one thread.
- FromNow.WatchFromNow: claims nothing about the history for a watcher that a snapshot overtook while it waited; `Answers.AnswerExactly` still gives its answer in terms of what was pushed to it.
- Linearizability of `GetConfig` and of serializable reads: they read locally without a gate.
- brpc and REST services, JSON, dashboard, command line client, configuration and scripts: plumbing around these four pieces.
