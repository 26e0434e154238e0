# A verified model of the distributed-systems labs

This project models four parts of the repository in Dafny and proves what they are for:

* the Raft peer (`src/raft1/raft.go`): elections, log replication on a trimmed log, commitment, fast
  backup, the applier and local snapshots;
* the versioned key/value server with its retrying clerk (`src/kvsrv1`), checked against the sequential
  model of one key (`src/models1/kv.go`), and the lock built on it (`src/kvsrv1/lock/lock.go`);
* MapReduce (`src/mr`): the coordinator, the workers' dataflow, and whole jobs, against the sequential
  program (`src/main/mrsequential.go`);
* shard rebalancing (`src/shardkv1/shardcfg/shardcfg.go`).

`dafny verify dfyconfig.toml` checks the whole project.

## How the model is built

Code that updates an object is a class whose methods keep the source's branches and loops
(`RaftPeer.Raft`, `KvServer.KVServer`, `MrCoordinator.Coordinator`, `ShardConfig.Cfg`). Each method is
proved equal to a function on values, and the theorems are about those functions. A protocol is a step
system with one atomic step per critical section; its theorems hold for every run.

Most theorems say what never goes wrong. A system that does nothing would meet them, so others say what can
always still happen: that from every reachable state some continuation elects a leader, brings a command to
every service, lets a client take a free lock, or finishes a job. Whether the network and the scheduler
choose that continuation is not part of the model.

**Raft.** Three layers. `RaftProtocol` is a cluster whose logs are never trimmed, with history: every
vote, every acknowledgement, and the whole log of every leader. `RaftInvariant` states its inductive
invariant, `RaftSteps` and `RaftReplication` show that every step keeps it, and `RaftSafety` draws the
single-state consequences. `RaftTrimmed` has the critical sections as the code performs them on a trimmed
log, and `RaftCluster` the cluster that runs them. `RaftRefinement` and `RaftBackup` show that every run
of `RaftCluster` refines a run of `RaftProtocol`, and `RaftTheorems` states the guarantees for the runs
of `RaftCluster`; `RaftElection` and `RaftProgress` say what can still happen in them. In these runs the sent messages only accumulate, so a message may be lost, delayed, reordered
or handled late; a vote call is answered at most once, because votes are counted by a plain counter.
Runs have no restarts and no InstallSnapshot; when an election starts, when a message is sent and when
the applier runs is arbitrary. Local `Snapshot(index)` is called with what the service has received, as
`src/raft1/server.go:151-165` does.

**Key/value.** One call of a clerk is an operation, each of its RPCs an attempt. A request or a reply may
be lost. With `late` set an attempt may even be executed after its call has returned. At-most-once
execution and the lock are proved for both settings; linearizability for `late` unset, which is what
`models1` assumes. Lock clients have distinct nonempty ids, and nobody else writes the lock's key.

**MapReduce.** `mapf` is deterministic, `reducef` does not depend on the order of its values
(`sort.Sort` is not stable; any sorted permutation is allowed), the hash is arbitrary, rename is atomic,
and there is at least one input file and one reduce task. A file is the sequence of what was written to
it. Every hand-out starts a job, and a job may stop at any point, so crashes, timeouts, late and duplicate
executions are all runs. A worker decodes each reply into a fresh record; what happens when it reuses
one, as `src/mr/worker.go:48-51` does, is stated exactly by `MrCoordinator.ReusedReply`.

**Shards.** Any number of shards below 257, the load from which `analyze` starts its search.

## Where the code differs from what it says

* `Clerk.Put` can be wrong when it answers ErrNoKey: the answer can belong to a re-sent request while an
  earlier request is still on its way, and that one can find the key created in the meantime at just the
  version it names, before the call returns (`KvTruth.PerformedYetNoKey`) or after
  (`KvTruth.ErrNoKeyCanBeWrong`). `KvTruth.NoKeyIsTrueExactly` says when the answer can be relied on: if
  and only if requests cannot arrive late, or the first attempt was answered (the clerk's `iteration` is 0),
  or the put names version 0. The clerk turns a late ErrVersion into ErrMaybe and leaves a late ErrNoKey
  as it is; the sequential model does not admit ErrNoKey at all.
* A worker keeps one reply record for all calls, and a zero task id is not sent, so it is not
  overwritten: a worker that had map task 1 and is then handed map task 0 files the output of input 0
  under task 1 (`MrCoordinator.StaleTaskId`, `MrCoordinator.ReusedReply`).
* A refused `LeaveBalance` keeps the groups it removed before it came to an unknown id
  (`ShardConfig.RefusedLeave`).
* A cluster of one peer never has a leader: votes are counted only when an answer arrives, and there is
  nobody to answer (`RaftElection.CanLeadExactly`: a peer of n can become leader if and only if n > 1).
* The commit rule `sorted[n/2]` guarantees only n - n/2 replicas, for even n not a majority; it still
  meets every set of more than n/2 voters (`RaftQuorum.MajorityIndexIsLargest`, `RaftQuorum.QuorumsMeet`).

## Model

| member | source | states |
|---|---|---|
| `RaftTheorems.StateMachineSafety` | src/raft1/raft.go:165-180 | Two peers that have committed index i and still have it in their logs, at any two moments of a run, hold the same entry there |
| `RaftTheorems.CommitNeverDecreases` | src/raft1/raft.go:165-180 | A peer's commit index never decreases over a run |
| `RaftTheorems.CommittedIsKept` | src/raft1/raft.go:429-470 | Committed entries are never lost: what a peer has committed stays below its commit index and in its log, the same entry, unless a snapshot covers it |
| `RaftTheorems.AppliedAgree` | src/raft1/raft.go:612-643 | The i-th command any two services have received is the same, at any two moments |
| `RaftTheorems.AppliedIsCommitted` | src/raft1/raft.go:612-643 | Every command a service has received is the entry any peer ever commits at its index, also where the receiver has trimmed its log |
| `RaftTheorems.LeaderCompletenessOverRuns` | src/raft1/raft.go:174-178 | Once a leader has committed through i, every leader of a later term has that entry in its log |
| `RaftTheorems.LogMatching` | src/raft1/raft.go:429-462 | If two logs, or the entry lists of two calls ever sent, hold the same term at one absolute index, they agree at every earlier index both have |
| `RaftTheorems.ElectionSafety` | src/raft1/raft.go:653-727 | No two peers are ever leader in the same term, at whatever moments of a run |
| `RaftTheorems.OneVotePerTerm` | src/raft1/raft.go:308-340 | All votes a peer ever grants in one term are for the same candidate |
| `RaftTheorems.TermsNeverDecrease` | src/raft1/raft.go:155-163 | A peer's term never decreases over a run |
| `RaftTheorems.ApplyOrder` | src/raft1/raft.go:612-643 | The applier delivers indices 1, 2, 3, ... without gap or repeat, never past the commit index, each with the command in the log, whatever Snapshot trims meanwhile |
| `RaftTheorems.LeaderIndices` | src/raft1/raft.go:711-724 | In every state of every run a leader has matchIndex < nextIndex <= last index + 1 for every other peer |
| `RaftTheorems.FastBackup` | src/raft1/raft.go:487-520 | A rejection that is not stale strictly lowers nextIndex, to no less than matchIndex + 1, unless it already is that |
| `RaftTheorems.InstallKeepsIndices` | src/raft1/raft.go:216-247 | The snapshot of any peer at any moment of a run, installed at any peer at any moment, keeps that peer's index invariant |
| `RaftTheorems.NoIndexFailure` | src/raft1/raft.go:591-627 | In every run the replicator's and the applier's slices stay inside the trimmed log, log[0] stands for the snapshot, and snapshotIndex <= commitIndex <= last index |
| `RaftTheorems.NoCommitFailure` | src/raft1/raft.go:165-180 | In every run the majority index a leader looks up is inside its log |
| `RaftTheorems.BatchEndsAtCommit` | src/raft1/raft.go:619-627 | The batch the applier takes starts right after what the service has received, ends at the commit index, and holds the log's entries |
| `RaftElection.VoteGrantedExactly` | src/raft1/raft.go:308-340 | A vote is granted if and only if the candidate's term is not over, the peer has voted for nobody else in it, and its own last (term, index) is not after the candidate's |
| `RaftElection.OneOfTwoPasses` | src/raft1/raft.go:326-337 | Of any two peers at least one would get the other's vote in a new term |
| `RaftElection.LeaderCanEmerge` | src/raft1/raft.go:645-727 | From every reachable state of more than one peer some continuation has a leader whose term nobody has passed, with no log changed |
| `RaftElection.CanLeadExactly` | src/raft1/raft.go:671-727 | A given peer of a cluster of n can become leader if and only if n is more than one |
| `RaftProgress.SendCarriesAll` | src/raft1/raft.go:591-608 | With no call out, the replicator sends all of the leader's entries from nextIndex through its last one, under the index and term of the entry before |
| `RaftProgress.AcceptedAgrees` | src/raft1/raft.go:429-474 | A peer that has accepted a call agrees with its leader through the call's last entry for as long as it stays in that term |
| `RaftProgress.CatchUp` | src/raft1/raft.go:487-553 | A leader that has not trimmed can bring any peer to its whole log, however far behind or diverged, and commits its last entry, if of its own term, once everybody holds it |
| `RaftProgress.CommandCanReachEveryService` | src/raft1/raft.go:774-800 | From every reachable state of more than one peer in which nobody has trimmed, any command can still be started and delivered to every service, at one new index |
| `RaftQuorum.MajorityIndexIsLargest` | src/raft1/raft.go:165-172 | sorted[n/2] is a matched index reached by at least n - n/2 peers, and no larger index is, for odd and even n |
| `RaftQuorum.QuorumsMeet` | src/raft1/raft.go:709-711 | Any n - n/2 peers and any more than n/2 voters have a peer in common |
| `RaftSafety.UpToDateHolds` | src/raft1/raft.go:326-337 | A candidate that passes the up-to-date check of a voter holds every chosen entry the voter holds |
| `RaftSafety.LeaderCompleteness` | src/raft1/raft.go:174-178 | An entry that a commit quorum of its own term has is in the log of every leader of a later term |
| `RaftSafety.CommittedAgree` | src/raft1/raft.go:464-470 | In one state, two peers agree on everything up to any index both have committed |
| `RaftReplication.MergeFollowsLeader` | src/raft1/raft.go:449-462 | After the append loop a log agrees with the leader's up to the end of the entries, or is longer and already did, despite stale, empty or overlapping calls |
| `RaftReplication.RunKeeps` | src/raft1/raft.go:308-521 | The invariant of elections, logs, acknowledgements and messages holds in every state of every run of the untrimmed cluster |
| `RaftRefinement.AppendRefinesPlain` | src/raft1/raft.go:392-474 | On a trimmed log AppendEntries gives the full log, commit index, term and success of the plain handler, with prefix skipping and early success, given agreement on what was trimmed |
| `RaftRefinement.CommittedAgreesWithArgs` | src/raft1/raft.go:412-427 | What a peer has trimmed is held by every leader whose calls it may still accept, so that trimmed and untrimmed handlers agree |
| `RaftBackup.SnapshotRefines` | src/raft1/raft.go:266-287 | A local Snapshot changes nothing about the full log, in any state of the applier |
| `RaftBackup.HintBelow` | src/raft1/raft.go:429-447 | The index a rejection's hint leads to is at most prev: the leader's last entry of the conflicting term lies before it |
| `RaftBackup.RunRefines` | src/raft1/raft.go:308-799 | Every run of the trimmed cluster refines, state by state, a run of the untrimmed one |
| `RaftTrimmed.SnapshotIndices` | src/raft1/raft.go:266-287 | Snapshot keeps log[0].Term = snapshotTerm and snapshotIndex <= commitIndex <= last index exactly when it is not asked to trim past the commit index |
| `RaftTrimmed.InstallIndices` | src/raft1/raft.go:216-247 | InstallSnapshot keeps the same index invariant exactly when the index is stale, not behind the commit index, or names the term this peer has there |
| `RaftTrimmed.SnapshotTrims` | src/raft1/raft.go:266-287 | Snapshot makes an entry inside the log the new head and keeps everything from there on; any other index changes nothing |
| `RaftTrimmed.RejectionHint` | src/raft1/raft.go:429-447 | A rejection gives the log's length if it is too short, and otherwise the term at prev and the first index of its unbroken stretch |
| `RaftTrimmed.NextAfterRejection` | src/raft1/raft.go:497-520 | nextIndex goes to that length, to just after the leader's own last entry of that term, or to the start of the stretch, and never below matchIndex + 1 |
| `RaftTrimmed.CommitsExactly` | src/raft1/raft.go:165-180 | The largest index that n - n/2 peers have reached is committed exactly when it is new and its entry is of the current term |
| `RaftTrimmed.VoteCountedExactly` | src/raft1/raft.go:705-724 | A vote makes a leader exactly when more than half are counted, and a new leader starts every other peer at the end of its log with nothing matched |
| `RaftTrimmed.AppendKeepsHead` | src/raft1/raft.go:412-462 | AppendEntries never changes the entry that stands for the snapshot |
| `RaftTrimmed.MergeReaches` | src/raft1/raft.go:449-462 | The append loop keeps everything up to prev and leaves a log that reaches the end of the entries |
| `RaftPeer.Raft.RequestVote` | src/raft1/raft.go:308-340 | The handler's new state and reply, as the vote step of the cluster |
| `RaftPeer.Raft.AppendEntries` | src/raft1/raft.go:392-474 | The handler's new state and reply, hints included, as the append step of the cluster |
| `RaftPeer.Raft.MergeEntries` | src/raft1/raft.go:449-462 | The append loop computes Merge, the recursive cut-and-append |
| `RaftPeer.Raft.ScanBack` | src/raft1/raft.go:437-445 | The backward loop finds the first index of the unbroken stretch of one term |
| `RaftPeer.Raft.UpdateCommitIndex` | src/raft1/raft.go:165-180 | Commits exactly a larger majority index whose entry is of the current term |
| `RaftPeer.Raft.FindTerm` | src/raft1/raft.go:505-511 | The loop finds the last entry of a term above log[0], or none |
| `RaftPeer.Raft.HandleAppendEntriesResponse` | src/raft1/raft.go:480-521 | The new bookkeeping after a reply, as the acknowledgement step of the cluster |
| `RaftPeer.Raft.SendAndHandle` | src/raft1/raft.go:535-553 | What a returned or failed call does to the leader |
| `RaftPeer.Raft.NextSend` | src/raft1/raft.go:591-608 | The arguments the replicator builds, empty while a call is out |
| `RaftPeer.Raft.StartElection` | src/raft1/raft.go:645-666 | A new candidate and the ballot that describes its log |
| `RaftPeer.Raft.CountVote` | src/raft1/raft.go:691-725 | What a vote reply does to the election that asked |
| `RaftPeer.Raft.BecomeLeader` | src/raft1/raft.go:711-724 | The loop resets the bookkeeping of every other peer |
| `RaftPeer.Raft.Start` | src/raft1/raft.go:774-800 | A leader appends the command at the index and term it returns; others change nothing |
| `RaftPeer.Raft.Snapshot` | src/raft1/raft.go:266-287 | Drops exactly the entries before the index, which becomes log[0], or does nothing when the index is not inside the log |
| `RaftPeer.Raft.InstallSnapshot` | src/raft1/raft.go:216-247 | The local effect of the second critical section |
| `RaftPeer.Raft.TakeBatch` | src/raft1/raft.go:619-627 | The batch the applier copies: the committed entries after lastApplied and the snapshot |
| `KvServer.PutIsCompareAndSwap` | src/kvsrv1/server.go:72-103 | Put succeeds exactly when it names the present version, 0 for an absent key, then installs the value under the next one, and otherwise changes nothing; when each error comes |
| `KvServer.GetAnswers` | src/kvsrv1/server.go:52-66 | Get answers a present key with its value and version, an absent one with ErrNoKey, and changes nothing |
| `KvServer.ServeRaisesVersions` | src/kvsrv1/server.go:52-103 | Versions only grow, exactly at successful puts, and a value changes only with its version |
| `KvServer.KVServer.Get` | src/kvsrv1/server.go:52-66 | The reply for present and absent keys, as the server step of the network model |
| `KvServer.KVServer.Put` | src/kvsrv1/server.go:72-103 | The new map and the reply, as the server step of the network model |
| `KvClerk.PutWithRetries` | src/kvsrv1/client.go:65-87 | With other clerks between its attempts, a put takes effect at most once; OK means it did, ErrVersion and ErrNoKey that it did not |
| `KvClerk.GetWithRetries` | src/kvsrv1/client.go:32-46 | What Get returns is the server's answer in one state of the server during the call, whatever others put before and after |
| `KvTruth.AtMostOnce` | src/kvsrv1/client.go:65-87 | However often a Put is re-sent or delivered late, at most one of its requests takes effect |
| `KvTruth.OneWriterPerVersion` | src/kvsrv1/server.go:92-100 | Of all puts of all clerks, at most one takes effect at each version of a key |
| `KvTruth.AnswerIsPassedOn` | src/kvsrv1/client.go:73-82 | Over all runs a call returns the server's answer to its last attempt, but for ErrVersion to a re-sent put, which becomes ErrMaybe |
| `KvTruth.OkMeansPerformed` | src/kvsrv1/client.go:73-82 | OK means the put took effect |
| `KvTruth.ErrVersionMeansNever` | src/kvsrv1/client.go:73-82 | ErrVersion means that it did not and never will, at any later time |
| `KvTruth.ErrNoKeyMeansNever` | src/kvsrv1/client.go:73-82 | Without late delivery ErrNoKey too means that it did not and never will |
| `KvTruth.FirstTryNoKeyMeansNever` | src/kvsrv1/client.go:73-82 | ErrNoKey on the first attempt means that the put did not and never will happen, however late requests arrive |
| `KvTruth.NoKeyIsTrueExactly` | src/kvsrv1/client.go:73-86 | ErrNoKey after n attempts means that the put did not and never will happen if and only if requests cannot arrive late, or n is at most 1, or the put names version 0 |
| `KvTruth.PerformedYetNoKey` | src/kvsrv1/client.go:73-86 | For every put of a version beyond 0 and every n beyond 1, a run in which it has taken effect when its call returns ErrNoKey after n attempts |
| `KvTruth.ErrNoKeyCanBeWrong` | src/kvsrv1/client.go:73-86 | For the same puts, a run in which it has not, and takes effect afterwards |
| `KvTruth.ReturnedPutCanHappen` | src/kvsrv1/client.go:73-86 | A returned put has taken effect or still can if and only if it already has, or requests may arrive late, one of its own is on its way, and the key has not passed its version |
| `KvLinear.Linearizable` | src/models1/kv.go:27-67 | Every concurrent history has an order, agreeing with real time, whose part for each key KvModel.Step accepts, with every returned operation in it once except puts answered ErrNoKey |
| `KvLinear.Partition` | src/models1/kv.go:27-43 | The parts of a history, one for each key in it with that key's operations in order, listed by ascending key |
| `KvLock.MutualExclusion` | src/kvsrv1/lock/lock.go:37-67 | No two clients ever hold the lock at once, whatever is lost, re-sent or delivered late |
| `KvLock.HolderIsTheValue` | src/kvsrv1/lock/lock.go:37-67 | From Acquire's return to the Put of its Release the server's value is the holder's id |
| `KvLock.ReleasedExactlyOnce` | src/kvsrv1/lock/lock.go:56-67 | Every Release that returns has freed the lock exactly once: its Put named a version at which the value was the client's own id, exactly one attempt of it took effect, and it was answered OK or ErrMaybe |
| `KvLock.ReleasesAreDistinct` | src/kvsrv1/lock/lock.go:56-67 | No two finished Releases, of one client or of two, share a Put |
| `KvLock.LockRunKeeps` | src/kvsrv1/lock/lock.go:37-67 | The lock's invariant over all runs: every put on the lock is some client's present call or can no longer succeed, and what a client saw of itself is still so |
| `KvLockProgress.FreeLockIsTried` | src/kvsrv1/lock/lock.go:40-47 | Acquire sends its Put of the client's id, at the version it saw, exactly when its Get saw no key or the empty value |
| `KvLockProgress.AcquireCanReturn` | src/kvsrv1/lock/lock.go:37-54 | From every reachable state in which the lock is free, any idle client can acquire it |
| `KvLockProgress.ReleaseCanReturn` | src/kvsrv1/lock/lock.go:56-67 | From every reachable state a holder that is idle can release the lock, which is then free |
| `KvLockProgress.AnyNumberOfTimes` | src/kvsrv1/lock/lock.go:37-67 | A free lock can be taken and given back any number of times |
| `MrDataflow.GroupingIsExact` | src/mr/worker.go:104-120 | Grouping a sorted sequence calls reducef exactly once for each distinct key, with exactly its values |
| `MrDataflow.EverySliceSorts` | src/mr/worker.go:97 | Every slice of pairs has a sorted permutation, so the sort step of a reduce job can always be taken |
| `MrDataflow.BucketHasAll` | src/mr/worker.go:169-175 | A bucket has all values of the keys that hash to it and none of any other |
| `MrDataflow.DistributedGroupsOk` | src/mr/worker.go:73-120 | Over all buckets the workers call reducef exactly once for each distinct key of the whole input, with exactly its values, for any hash |
| `MrDataflow.DistributedEqualsSequential` | src/main/mrsequential.go:59-84 | The lines printed bucket by bucket are together those of the single sorted pass |
| `MrDataflow.PrintGroups` | src/main/mrsequential.go:68-84 | The i/j/k loop prints one line for each group |
| `MrDataflow.PartitionPairs` | src/mr/worker.go:169-175 | The map worker's loop puts each pair into the bucket of its key, in order |
| `MrDataflow.DoReduce` | src/mr/worker.go:73-120 | The reduce worker prints the groups of what it gathered, skipping files that cannot be opened |
| `MrDataflow.Sequential` | src/main/mrsequential.go:38-84 | The sequential program's output, and that it fails exactly when an input cannot be opened |
| `MrCoordinator.ScanExactly` | src/mr/coordinator.go:46-61 | A scan hands out the first idle task at its clock reading, makes exactly the tasks before it idle that have been out for more than ten seconds, and leaves the rest |
| `MrCoordinator.ReportEffect` | src/mr/coordinator.go:90-111 | After a report the named task is complete, every other status and all times are as before, and the counter of its kind has risen by one exactly if it was not complete |
| `MrCoordinator.Coordinator.RequestTask` | src/mr/coordinator.go:41-84 | The new state and reply: the first idle task is handed out, overdue ones before it become idle |
| `MrCoordinator.Coordinator.Scan` | src/mr/coordinator.go:46-61 | The scanning loop over the task arrays, with the clock read once for each task |
| `MrCoordinator.Coordinator.ReportTaskComplete` | src/mr/coordinator.go:86-114 | The new state: the task complete, counted once, and the phase advanced by the last one |
| `MrCoordinator.Coordinator.Done` | src/mr/coordinator.go:138-146 | Done answers true exactly when every task of both kinds is complete |
| `MrCoordinator.RequestKeeps` | src/mr/coordinator.go:41-84 | A request completes nothing, takes no completion back and keeps counters and phase in step |
| `MrCoordinator.ReportKeeps` | src/mr/coordinator.go:86-114 | A report, late or repeated, keeps counters and phase in step with the statuses and takes no completion back; the phase moves on when the last task completes |
| `MrCoordinator.ReusedReply` | src/mr/worker.go:48-51 | A worker that reuses its reply record does what it was told if and only if it is not handed task 0 after another task of that kind |
| `MrCoordinator.StaleTaskId` | src/mr/worker.go:48-51 | A worker that had map task 1 and is handed task 0 processes input 0 under id 1 |
| `MrCluster.MapReduceEndToEnd` | src/mr/coordinator.go:41-146 | When the job is done, all outputs exist and their lines are together those of the sequential program, whatever crashed, timed out or ran more than once |
| `MrCluster.GatheredIsTheBucket` | src/mr/worker.go:76-95 | Once the map phase is over, what a reduce worker gathers from the files (map task, bucket) is its bucket of all pairs of all inputs, and printing it gives an output the job asks for |
| `MrProgress.JobCanFinishExactly` | src/mr/coordinator.go:41-146 | From every reachable state the job can still be finished if and only if all its inputs can be read |
| `MrProgress.EveryInputFinishes` | src/mr/coordinator.go:151-167 | For all readable inputs, at least one, and at least one reduce task there is a run that finishes the job |
| `MrCluster.CountersOverRuns` | src/mr/coordinator.go:86-114 | The done counters count the complete tasks, and the phase tells which kinds are complete |
| `MrCluster.ProgressIsKept` | src/mr/coordinator.go:86-114 | COMPLETE never reverts and the phase only moves forward |
| `MrCluster.NoEarlyReduce` | src/mr/coordinator.go:63-71 | No reduce task is handed out before every map task is complete |
| `MrCluster.NeverAgain` | src/mr/coordinator.go:46-54 | A complete task is never handed out again |
| `MrCluster.TenSecondsApart` | src/mr/coordinator.go:55-60 | Two hand-outs of one task are more than ten seconds apart, given a clock that never goes back |
| `MrCluster.ReportsInRange` | src/mr/coordinator.go:90-102 | Workers report only ids the coordinator's tables have |
| `ShardBalance.AnalyzeOk` | src/shardkv1/shardcfg/shardcfg.go:80-111 | analyze finds live groups with the most and the fewest shards, and how many |
| `ShardBalance.LeastGoesLow` | src/shardkv1/shardcfg/shardcfg.go:90-108 | A tie for the fewest goes to the lowest id |
| `ShardBalance.MostGoesLow` | src/shardkv1/shardcfg/shardcfg.go:90-108 | A tie for the most goes to the lowest id |
| `ShardBalance.MoveLowers` | src/shardkv1/shardcfg/shardcfg.go:140-153 | Each round of the move loop strictly lowers the sum of the squared loads |
| `ShardBalance.RebalancedIsChecked` | src/shardkv1/shardcfg/shardcfg.go:122-154 | After Rebalance CheckConfig's conditions hold: every shard has a live group, loads differ by at most one |
| `ShardBalance.NoGroupsNoOwners` | src/shardkv1/shardcfg/shardcfg.go:123-129 | Without groups every shard is unassigned |
| `ShardBalance.RebalanceIsStable` | src/shardkv1/shardcfg/shardcfg.go:122-154 | Rebalance moves nothing in a checked configuration |
| `ShardConfig.RunsStayChecked` | src/shardkv1/shardcfg/shardcfg.go:207-221 | Every run of single-group JoinBalance and LeaveBalance calls stays checked |
| `ShardConfig.CallKeepsConfig` | src/shardkv1/shardcfg/shardcfg.go:207-221 | A single-group call gives a checked configuration under the next number, or leaves everything alone |
| `ShardConfig.JoinMovesMinimally` | src/shardkv1/shardcfg/shardcfg.go:131-153 | Joining one group to a checked configuration of k groups moves exactly floor(N/(k+1)) shards, all into the new group |
| `ShardConfig.LeaveMovesOnlyDeparted` | src/shardkv1/shardcfg/shardcfg.go:185-221 | When groups leave and some stay, exactly the departed groups' shards move |
| `ShardBalance.LeavingMovesOnlyDeparted` | src/shardkv1/shardcfg/shardcfg.go:131-153 | When groups leave an even assignment and others stay, assigning the departed groups' shards already leaves it even: the move loop does nothing |
| `ShardConfig.JoinAddsAll` | src/shardkv1/shardcfg/shardcfg.go:156-183 | A Join that succeeds was of new groups only, and adds exactly those, with their servers |
| `ShardConfig.RefusedLeave` | src/shardkv1/shardcfg/shardcfg.go:185-193 | A refused Leave leaves the configuration as it was if and only if the first id is unknown |
| `ShardConfig.Cfg.Analyze` | src/shardkv1/shardcfg/shardcfg.go:80-111 | The counting and scanning loops compute the extremes, independent of the order in which the map is walked |
| `ShardConfig.Cfg.Rebalance` | src/shardkv1/shardcfg/shardcfg.go:122-154 | The new assignment is a function of the old one and the set of group ids; the loops end |
| `ShardConfig.Cfg.JoinBalance` | src/shardkv1/shardcfg/shardcfg.go:207-213 | Groups are added up to the first known id, and a rebalance and a new number follow exactly when all were new |
| `ShardConfig.Cfg.LeaveBalance` | src/shardkv1/shardcfg/shardcfg.go:215-221 | Groups are removed up to the first unknown id, and a rebalance and a new number follow exactly when all were known |
| `ShardConfig.Cfg.GidServers` | src/shardkv1/shardcfg/shardcfg.go:223-227 | The shard's group and servers, always found in a checked configuration with groups |

## Left out

- Restarts of Raft peers and persistence: state is saved in the background after replies may have gone out, so no guarantee across a restart is claimed.
- InstallSnapshot in the theorems about runs: it keeps the old term and releases the lock while it delivers; only the local effect of its second critical section is modelled, not the first one's stale checks (`src/raft1/raft.go:195-214`) nor its reply handler (`src/raft1/raft.go:574-587`).
- Time in Raft: election timeouts, heartbeats and condition variables are arbitrary choices of the next step; that something can still happen is proved, not that it will.
- RaftProgress.CommandCanReachEveryService: starts from states in which nobody has trimmed its log, because a peer that is behind a leader's snapshot is brought up by InstallSnapshot.
- KvLinear.Linearizable: is stated for runs in which no request is executed after its call returned, because the model admits ErrVersion and ErrMaybe only and a late request has no place in its order.
- KvClerk.PutWithRetries and KvClerk.GetWithRetries: run for as many rounds as the network is described for, because the source's loops need not end.
- The lock as a Go object: Acquire and Release are steps of each client between its calls, so that other clients can act in between; sleeping is left out.
- MrCluster.MapReduceEndToEnd: assumes a fresh reply record for every call; what goes wrong otherwise is MrCoordinator.ReusedReply.
- MrDataflow.DoReduce and MrDataflow.Sequential: sort.Sort is a parameter that returns some sorted permutation, and output files are sequences of the printed lines.
- Join calls that fail after adding some of several groups: modelled, but nothing is stated about the configuration they leave.
- Overflow of Go integers: terms, indices, versions and configuration numbers are unbounded.
- Encodings and infrastructure: labrpc, labgob, the testers, JSON and gob beyond zero fields, file descriptors, sockets, the FNV hash and Key2Shard.
- Stubs without behaviour: kvraft1, rsm, shardctrler, shardgrp and the sharded client.
- Applications, plugin loading, argument parsing, logging and test drivers.
