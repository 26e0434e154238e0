/** The Raft object: its fields, and the critical sections that change them, with the loops of the
    code. Every method is proved against the function of RaftTrimmed that the cluster is built on. */
module RaftPeer {
  import opened RaftTypes
  import opened RaftQuorum
  import opened Sorting
  import T = RaftTrimmed
  import C = RaftCluster

  class Raft {
    const n: nat
    const me: nat
    var currentTerm: nat
    var votedFor: int
    var log: seq<Entry>
    var commitIndex: nat
    var lastApplied: nat
    var nextIndex: seq<nat>
    var matchIndex: seq<nat>
    var state: Role
    var inFlight: seq<bool>
    var sendSeq: seq<nat>
    var snapshotIndex: nat
    var snapshotTerm: nat

    function Core(): T.Core
      reads this
    {
      T.Core(currentTerm, votedFor, state, log, commitIndex, lastApplied,
             nextIndex, matchIndex, inFlight, sendSeq, snapshotIndex, snapshotTerm)
    }

    ghost predicate Valid()
      reads this
    {
      me < n && Core().Sized(n) && |log| > 0 && log[0].term == snapshotTerm
    }

    /** A peer of a cluster of `n` that has nothing persisted. */
    constructor (n: nat, me: nat)
      requires me < n
      ensures Valid() && this.n == n && this.me == me
      ensures Core() == C.FreshCore(n)
    {
      this.n := n;
      this.me := me;
      currentTerm, votedFor, state := 0, NO_VOTE, Follower;
      commitIndex, lastApplied := 0, 0;
      log := [SENTINEL];
      nextIndex := seq(n, _ => 1);
      matchIndex := seq(n, _ => 0);
      inFlight := seq(n, _ => false);
      sendSeq := seq(n, _ => 0);
      snapshotIndex, snapshotTerm := 0, 0;
    }

    function RelIdx(idx: nat): int
      reads this
    {
      idx - snapshotIndex
    }

    function AbsIdx(idx: nat): nat
      reads this
    {
      idx + snapshotIndex
    }

    method StepDownToFollower(term: nat)
      modifies this
      ensures Core() == T.StepDown(old(Core()), term)
    {
      if term > currentTerm {
        currentTerm := term;
        votedFor := NO_VOTE;
      }
      state := Follower;
    }

    // -------------------------------------------------------------- elections

    method StartElection() returns (args: VoteArgs)
      requires Valid()
      modifies this
      ensures Valid() && Core() == T.Campaigning(old(Core()), me)
      ensures args == T.BallotOf(Core(), me)
    {
      state := Candidate;
      currentTerm := currentTerm + 1;
      votedFor := me;
      args := VoteArgs(currentTerm, me, AbsIdx(|log|) - 1, log[|log| - 1].term);
    }

    method RequestVote(args: VoteArgs) returns (reply: VoteReply)
      requires Valid()
      modifies this
      ensures Valid() && (Core(), reply) == T.OnVoteRequest(old(Core()), args)
    {
      reply := VoteReply(currentTerm, false);
      if args.term < currentTerm {
        return;
      }
      if args.term > currentTerm {
        StepDownToFollower(args.term);
      }
      reply := VoteReply(currentTerm, false);
      var lastIndex := AbsIdx(|log| - 1);
      var lastTerm := log[|log| - 1].term;
      var upToDate := args.lastTerm > lastTerm || (args.lastTerm == lastTerm && args.lastIndex >= lastIndex);
      if (votedFor == NO_VOTE || votedFor == args.candidate) && upToDate {
        votedFor := args.candidate;
        reply := reply.(granted := true);
      }
    }

    /** What the goroutine of one RequestVote call does with its reply; `votes` is the counter its
        election shares. */
    method CountVote(votes: nat, args: VoteArgs, reply: VoteReply) returns (counted: nat)
      requires Valid()
      modifies this
      ensures Valid() && (Core(), counted) == T.OnVoteReply(old(Core()), me, n, votes, args, reply)
    {
      counted := votes;
      if currentTerm != args.term || state != Candidate {
        return;
      }
      if reply.term > currentTerm {
        StepDownToFollower(reply.term);
        return;
      }
      if reply.granted {
        counted := counted + 1;
      }
      if state == Candidate && counted > n / 2 {
        BecomeLeader();
      }
    }

    method BecomeLeader()
      requires Valid()
      modifies this
      ensures Valid() && Core() == T.Crowned(old(Core()), me, n)
    {
      state := Leader;
      ghost var before := old(Core());
      var i := 0;
      while i < n
        invariant 0 <= i <= n && Core().Sized(n)
        invariant Core() == before.(role := Leader, nextIndex := nextIndex, matchIndex := matchIndex, inFlight := inFlight)
        invariant forall q | 0 <= q < n ::
          nextIndex[q] == (if q < i && q != me then before.End() else before.nextIndex[q])
          && matchIndex[q] == (if q < i && q != me then 0 else before.matchIndex[q])
          && inFlight[q] == (if q < i && q != me then false else before.inFlight[q])
      {
        if i != me {
          nextIndex := nextIndex[i := AbsIdx(|log|)];
          matchIndex := matchIndex[i := 0];
          inFlight := inFlight[i := false];
        }
        i := i + 1;
      }
      matchIndex := matchIndex[me := AbsIdx(|log|) - 1];
      assert Core() == T.Crowned(before, me, n);
    }

    // -------------------------------------------------------------- replication

    method Start(command: Command) returns (index: nat, term: nat, isLeader: bool)
      requires Valid()
      modifies this
      ensures Valid() && Core() == T.Started(old(Core()), me, command)
      ensures isLeader == old(state).Leader? && term == old(currentTerm) && index == old(Core()).End()
      ensures isLeader ==> index == Core().End() - 1 && log[|log| - 1] == Entry(term, command)
    {
      if state != Leader {
        return AbsIdx(|log|), currentTerm, false;
      }
      log := log + [Entry(currentTerm, command)];
      matchIndex := matchIndex[me := AbsIdx(|log|) - 1];
      return AbsIdx(|log|) - 1, currentTerm, true;
    }

    /** The backward scan of a rejection: the first index of the stretch of one term ending at k. */
    method ScanBack(k: nat) returns (first: nat)
      requires k < |log|
      ensures first == T.StretchStart(log, k)
    {
      var term := log[k].term;
      first := k;
      while first > 0 && log[first - 1].term == term
        invariant first <= k && log[first].term == term
        invariant T.StretchStart(log, first) == T.StretchStart(log, k)
      {
        first := first - 1;
      }
    }

    /** The append loop: skip entries that are there, cut at the first that differs. */
    method MergeEntries(at: nat, entries: seq<Entry>)
      requires Valid() && at < |log|
      modifies this`log
      ensures Valid() && log == Merge(old(log), at, entries)
    {
      ghost var before := log;
      T.MergeKeepsHead(before, at, entries);
      var i := 0;
      while i < |entries|
        invariant i <= |entries| && at + i < |log| && log == before
        invariant Merge(before, at, entries) == Merge(log, at + i, entries[i..])
      {
        var idx := at + i + 1;
        assert entries[i..][1..] == entries[i + 1..];
        if idx < |log| {
          if log[idx].term != entries[i].term {
            log := log[..idx] + entries[i..];
            return;
          }
        } else {
          log := log + entries[i..];
          return;
        }
        i := i + 1;
      }
    }

    /** AppendEntries from the consistency check on, once prev is not below the snapshot. */
    method CheckAndAppend(args: AppendArgs) returns (reply: AppendReply)
      requires Valid() && snapshotIndex <= args.prev
      modifies this`log, this`commitIndex
      ensures Valid() && (Core(), reply) == T.AppendAt(old(Core()), args)
    {
      reply := AppendReply(currentTerm, false, NO_HINT, NO_HINT, NO_HINT);
      if args.prev >= AbsIdx(|log|) {
        return reply.(conflictLen := AbsIdx(|log|));
      }
      var rel := RelIdx(args.prev);
      if log[rel].term != args.prevTerm {
        var first := ScanBack(rel);
        return reply.(conflictTerm := log[rel].term, conflictIndex := AbsIdx(first));
      }
      MergeEntries(rel, args.entries);
      if args.leaderCommit > commitIndex {
        var newCommit := Min(args.leaderCommit, args.prev + |args.entries|);
        if newCommit > commitIndex {
          commitIndex := newCommit;
        }
      }
      reply := reply.(success := true);
    }

    method AppendEntries(args: AppendArgs) returns (reply: AppendReply)
      requires Valid()
      modifies this
      ensures Valid() && (Core(), reply) == T.OnAppend(old(Core()), args)
    {
      if args.term < currentTerm {
        return AppendReply(currentTerm, false, NO_HINT, NO_HINT, NO_HINT);
      }
      if args.term > currentTerm || state == Candidate {
        StepDownToFollower(args.term);
      }
      if args.prev < snapshotIndex {
        var skip := snapshotIndex - args.prev;
        if skip > |args.entries| {
          return AppendReply(currentTerm, true, NO_HINT, NO_HINT, NO_HINT);
        }
        reply := CheckAndAppend(args.(prev := snapshotIndex, prevTerm := snapshotTerm, entries := args.entries[skip..]));
      } else {
        reply := CheckAndAppend(args);
      }
    }

    /** The index that a majority has matched is in the log, if it is looked up there. */
    ghost predicate LooksUpInside(matches: seq<nat>)
      requires Valid() && |matches| == n
      reads this
    {
      var majority := MajorityIndex(matches[me := Core().End() - 1]);
      majority > commitIndex && majority > snapshotIndex ==> majority < Core().End()
    }

    /** A majority index past the end would make the code fail; no run of the cluster has one. */
    method UpdateCommitIndex()
      requires Valid() && LooksUpInside(matchIndex)
      modifies this`commitIndex
      ensures Valid() && Core() == T.Committing(old(Core()), me)
    {
      var matches := matchIndex[me := AbsIdx(|log|) - 1];
      var sorted := SortInts(matches);
      var majorityIndex := sorted[n / 2];
      if majorityIndex > commitIndex && majorityIndex > snapshotIndex {
        if log[RelIdx(majorityIndex)].term == currentTerm {
          commitIndex := majorityIndex;
        }
      }
    }

    /** The search of the leader's log for the term a follower rejected with. */
    method FindTerm(term: int) returns (found: int)
      ensures found == T.LastOfTerm(log, |log|, term)
    {
      found := -1;
      var idx := |log| - 1;
      while idx > 0
        invariant -1 <= idx < |log| && (idx == -1 ==> |log| == 0)
        invariant T.LastOfTerm(log, |log|, term) == T.LastOfTerm(log, idx + 1, term)
      {
        if log[idx].term == term {
          return idx;
        }
        idx := idx - 1;
      }
    }

    /** `reached`, if it is news, has to keep the majority index inside the log, as every
        acknowledgement of the leader's own entries does. */
    method HandleAppendEntriesResponse(server: nat, args: AppendArgs, reply: AppendReply)
      requires Valid() && server < n
      requires reply.term <= currentTerm && reply.success && args.prev + |args.entries| > matchIndex[server] ==>
                 LooksUpInside(matchIndex[server := args.prev + |args.entries|])
      modifies this
      ensures Valid() && Core() == T.OnAnswer(old(Core()), me, server, args, reply)
    {
      if reply.term > currentTerm {
        StepDownToFollower(reply.term);
        return;
      }
      if reply.success {
        var reached := args.prev + |args.entries|;
        if reached > matchIndex[server] {
          matchIndex := matchIndex[server := reached];
          UpdateCommitIndex();
        }
        nextIndex := nextIndex[server := Max(nextIndex[server], matchIndex[server] + 1)];
        return;
      }
      if args.prev + 1 != nextIndex[server] {
        return;
      }
      var next: int;
      if reply.conflictLen != NO_HINT {
        next := reply.conflictLen;
      } else {
        var found := FindTerm(reply.conflictTerm);
        next := if found == -1 then reply.conflictIndex else AbsIdx(found) + 1;
      }
      nextIndex := nextIndex[server := Max(Max(next, matchIndex[server] + 1), 1)];
    }

    /** After the call returns: `ok` is false when it timed out, and then `reply` is not looked at. */
    method SendAndHandle(server: nat, args: AppendArgs, tag: nat, ok: bool, reply: AppendReply)
      requires Valid() && server < n
      requires ok && state == Leader && currentTerm == args.term && reply.term <= currentTerm
               && reply.success && args.prev + |args.entries| > matchIndex[server] ==>
                 LooksUpInside(matchIndex[server := args.prev + |args.entries|])
      modifies this
      ensures Valid()
      ensures Core() == if ok then T.OnAppendReply(old(Core()), me, server, args, tag, reply)
                        else T.Landed(old(Core()), server, tag)
    {
      if tag == sendSeq[server] {
        inFlight := inFlight[server := false];
      }
      if !ok || state != Leader || currentTerm != args.term {
        return;
      }
      HandleAppendEntriesResponse(server, args, reply);
    }

    /** One round of the replicator that sends AppendEntries. */
    method NextSend(server: nat) returns (args: AppendArgs, tag: nat)
      requires Valid() && server < n
      requires snapshotIndex < nextIndex[server] <= Core().End()
      modifies this`inFlight, this`sendSeq
      ensures Valid() && Core() == T.Sent(old(Core()), server)
      ensures args == T.NextArgs(old(Core()), me, server) && tag == sendSeq[server]
    {
      var prev := nextIndex[server] - 1;
      var entries := [];
      if !inFlight[server] {
        entries := log[RelIdx(prev) + 1..];
      }
      args := AppendArgs(currentTerm, me, prev, log[RelIdx(prev)].term, entries, commitIndex);
      inFlight := inFlight[server := true];
      sendSeq := sendSeq[server := sendSeq[server] + 1];
      tag := sendSeq[server];
    }

    // -------------------------------------------------------------- snapshots and applying

    method Snapshot(index: nat)
      requires Valid()
      modifies this
      ensures Valid() && Core() == T.Trimmed(old(Core()), index)
    {
      var relIndex := RelIdx(index);
      if relIndex <= 0 || relIndex >= |log| {
        return;
      }
      snapshotIndex := index;
      snapshotTerm := log[relIndex].term;
      log := log[relIndex..];
    }

    /** The second critical section, after the service has taken the snapshot. */
    method InstallSnapshot(index: nat, term: nat)
      requires Valid()
      modifies this
      ensures Valid() && Core() == T.Installed(old(Core()), index, term)
    {
      if snapshotIndex >= index {
        return;
      }
      var oldRel := index - snapshotIndex;
      if oldRel < |log| && log[oldRel].term == term {
        log := log[oldRel..];
      } else {
        log := [Entry(term, NoCommand)];
      }
      snapshotIndex := index;
      snapshotTerm := term;
      if commitIndex < index {
        commitIndex := index;
      }
      if lastApplied < index {
        lastApplied := index;
      }
    }

    /** The copy the applier takes under the lock. */
    method TakeBatch() returns (lo: nat, entries: seq<Entry>)
      requires Valid() && lastApplied < commitIndex < Core().End() && snapshotIndex < commitIndex
      ensures lo == T.BatchStart(Core()) && entries == T.Batch(Core())
    {
      lo := lastApplied + 1;
      if lo <= snapshotIndex {
        lo := snapshotIndex + 1;
      }
      var hi := commitIndex;
      entries := log[RelIdx(lo)..RelIdx(hi) + 1];
    }

    method FinishBatch(hi: nat)
      requires Valid()
      modifies this`lastApplied
      ensures Valid() && Core() == T.Applied(old(Core()), hi)
    {
      if lastApplied < hi {
        lastApplied := hi;
      }
    }
  }
}
