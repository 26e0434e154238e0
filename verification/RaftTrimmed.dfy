/** One peer as the code keeps it: a log trimmed up to `snapshotIndex`, addressed through relative
    indices, with the leader's replication bookkeeping. Each function is one critical section. */
module RaftTrimmed {
  import opened RaftTypes
  import opened RaftQuorum

  /** The fields of the Go struct that critical sections read or write. `log[0]` stands for the
      entry at `snapshotIndex`. */
  datatype Core = Core(term: nat, votedFor: int, role: Role, log: seq<Entry>,
                       commit: nat, lastApplied: nat,
                       nextIndex: seq<nat>, matchIndex: seq<nat>,
                       inFlight: seq<bool>, sendSeq: seq<nat>,
                       snapshotIndex: nat, snapshotTerm: nat)
  {
    /** One past the absolute index of the last entry. */
    function End(): nat { snapshotIndex + |log| }

    /** What holds between any two critical sections. */
    ghost predicate IndexOk() {
      && |log| > 0 && log[0].term == snapshotTerm
      && snapshotIndex <= commit < End()
    }

    ghost predicate Sized(n: nat) {
      |nextIndex| == n && |matchIndex| == n && |inFlight| == n && |sendSeq| == n
    }
  }

  function StepDown(c: Core, term: nat): Core {
    if term > c.term then c.(term := term, votedFor := NO_VOTE, role := Follower)
    else c.(role := Follower)
  }

  function Campaigning(c: Core, me: nat): Core {
    c.(role := Candidate, term := c.term + 1, votedFor := me)
  }

  function BallotOf(c: Core, me: nat): VoteArgs
    requires |c.log| > 0
  {
    VoteArgs(c.term, me, c.End() - 1, LastTerm(c.log))
  }

  function OnVoteRequest(c: Core, args: VoteArgs): (Core, VoteReply)
    requires |c.log| > 0
  {
    if args.term < c.term then (c, VoteReply(c.term, false))
    else
      var d := if args.term > c.term then StepDown(c, args.term) else c;
      if (d.votedFor == NO_VOTE || d.votedFor == args.candidate)
         && UpToDate(args, LastTerm(d.log), d.End() - 1)
      then (d.(votedFor := args.candidate), VoteReply(d.term, true))
      else (d, VoteReply(d.term, false))
  }

  function Crowned(c: Core, me: nat, n: nat): Core
    requires |c.log| > 0 && c.Sized(n) && me < n
  {
    c.(role := Leader,
       nextIndex := seq(n, i requires 0 <= i < n => if i == me then c.nextIndex[i] else c.End()),
       matchIndex := seq(n, i => if i == me then c.End() - 1 else 0),
       inFlight := seq(n, i requires 0 <= i < n => if i == me then c.inFlight[i] else false))
  }

  /** A vote reply reaching the election that counted `votes` so far; also the new count. */
  function OnVoteReply(c: Core, me: nat, n: nat, votes: nat, args: VoteArgs, reply: VoteReply): (Core, nat)
    requires |c.log| > 0 && c.Sized(n) && me < n
  {
    if c.term != args.term || !c.role.Candidate? then (c, votes)
    else if reply.term > c.term then (StepDown(c, reply.term), votes)
    else
      var counted := if reply.granted then votes + 1 else votes;
      (if counted > n / 2 then Crowned(c, me, n) else c, counted)
  }

  function Started(c: Core, me: nat, command: Command): Core
    requires me < |c.matchIndex|
  {
    if !c.role.Leader? then c
    else c.(log := c.log + [Entry(c.term, command)], matchIndex := c.matchIndex[me := c.End()])
  }

  function Heard(c: Core, term: nat): Core {
    if term > c.term || c.role.Candidate? then StepDown(c, term) else c
  }

  /** First index of the unbroken stretch of one term that ends at k. */
  function StretchStart(log: seq<Entry>, k: nat): (n: nat)
    requires k < |log|
    ensures n <= k && forall j | n <= j <= k :: log[j].term == log[k].term
    ensures n > 0 ==> log[n - 1].term != log[k].term
  {
    if k > 0 && log[k - 1].term == log[k].term then StretchStart(log, k - 1) else k
  }

  function Refuse(term: nat): AppendReply {
    AppendReply(term, false, NO_HINT, NO_HINT, NO_HINT)
  }

  function Accept(term: nat): AppendReply {
    AppendReply(term, true, NO_HINT, NO_HINT, NO_HINT)
  }

  /** The part of AppendEntries after the log prefix covered by the snapshot has been skipped. */
  function AppendAt(c: Core, args: AppendArgs): (Core, AppendReply)
    requires c.snapshotIndex <= args.prev
  {
    var rel := args.prev - c.snapshotIndex;
    if rel >= |c.log| then (c, Refuse(c.term).(conflictLen := c.End()))
    else if c.log[rel].term != args.prevTerm then
      (c, Refuse(c.term).(conflictTerm := c.log[rel].term,
                          conflictIndex := c.snapshotIndex + StretchStart(c.log, rel)))
    else
      var commit := if args.leaderCommit > c.commit
                    then Max(c.commit, Min(args.leaderCommit, args.prev + |args.entries|)) else c.commit;
      (c.(log := Merge(c.log, rel, args.entries), commit := commit), Accept(c.term))
  }

  function OnAppend(c: Core, args: AppendArgs): (Core, AppendReply) {
    if args.term < c.term then (c, Refuse(c.term))
    else
      var d := Heard(c, args.term);
      if args.prev < d.snapshotIndex then
        var skip := d.snapshotIndex - args.prev;
        if skip > |args.entries| then (d, Accept(d.term))
        else AppendAt(d, args.(prev := d.snapshotIndex, prevTerm := d.snapshotTerm, entries := args.entries[skip..]))
      else AppendAt(d, args)
  }

  /** updateCommitIndex. A majority index past the end would make the code fail; no run has one
      (RaftTheorems.NoCommitFailure). */
  function Committing(c: Core, me: nat): Core
    requires me < |c.matchIndex| && |c.log| > 0
  {
    var i := MajorityIndex(c.matchIndex[me := c.End() - 1]);
    if i > c.commit && i > c.snapshotIndex && i < c.End() && c.log[i - c.snapshotIndex].term == c.term
    then c.(commit := i) else c
  }

  /** Largest relative index above `lo` and below `hi` whose entry has the given term, or -1. */
  function LastOfTerm(log: seq<Entry>, hi: nat, term: int): (n: int)
    requires hi <= |log|
    ensures n == -1 || (0 < n < hi && log[n].term == term)
    ensures forall j | Max(n, 0) < j < hi :: log[j].term != term
  {
    if hi <= 1 then -1
    else if log[hi - 1].term == term then hi - 1
    else LastOfTerm(log, hi - 1, term)
  }

  /** Where a rejection sends nextIndex before it is clamped. */
  function BackedUp(c: Core, reply: AppendReply): int {
    if reply.conflictLen != NO_HINT then reply.conflictLen
    else
      var n := LastOfTerm(c.log, |c.log|, reply.conflictTerm);
      if n == -1 then reply.conflictIndex else c.snapshotIndex + n + 1
  }

  /** handleAppendEntriesResponse. */
  function OnAnswer(c: Core, me: nat, server: nat, args: AppendArgs, reply: AppendReply): Core
    requires me < |c.matchIndex| && server < |c.matchIndex| && server < |c.nextIndex| && |c.log| > 0
  {
    if reply.term > c.term then StepDown(c, reply.term)
    else if reply.success then
      var reached := args.prev + |args.entries|;
      var d := if reached > c.matchIndex[server]
               then Committing(c.(matchIndex := c.matchIndex[server := reached]), me) else c;
      d.(nextIndex := d.nextIndex[server := Max(d.nextIndex[server], d.matchIndex[server] + 1)])
    else if args.prev + 1 != c.nextIndex[server] then c
    else c.(nextIndex := c.nextIndex[server := Max(Max(BackedUp(c, reply), c.matchIndex[server] + 1), 1)])
  }

  function Landed(c: Core, server: nat, tag: nat): Core
    requires server < |c.sendSeq| && server < |c.inFlight|
  {
    if tag == c.sendSeq[server] then c.(inFlight := c.inFlight[server := false]) else c
  }

  /** sendAndHandle once the call has returned with a reply. */
  function OnAppendReply(c: Core, me: nat, server: nat, args: AppendArgs, tag: nat, reply: AppendReply): Core
    requires c.Sized(|c.matchIndex|) && me < |c.matchIndex| && server < |c.matchIndex| && |c.log| > 0
  {
    var d := Landed(c, server, tag);
    if !d.role.Leader? || d.term != args.term then d else OnAnswer(d, me, server, args, reply)
  }

  /** The arguments the replicator builds: everything after prev, or nothing while a call is out. */
  function NextArgs(c: Core, me: nat, server: nat): AppendArgs
    requires server < |c.nextIndex| && server < |c.inFlight|
    requires c.snapshotIndex < c.nextIndex[server] <= c.End()
  {
    var rel := c.nextIndex[server] - 1 - c.snapshotIndex;
    AppendArgs(c.term, me, c.nextIndex[server] - 1, c.log[rel].term,
               if c.inFlight[server] then [] else c.log[rel + 1..], c.commit)
  }

  function Sent(c: Core, server: nat): Core
    requires server < |c.sendSeq| && server < |c.inFlight|
  {
    c.(inFlight := c.inFlight[server := true], sendSeq := c.sendSeq[server := c.sendSeq[server] + 1])
  }

  /** Snapshot(index): drop the log before index. */
  function Trimmed(c: Core, index: nat): Core {
    var rel := index - c.snapshotIndex;
    if rel <= 0 || rel >= |c.log| then c
    else c.(snapshotIndex := index, snapshotTerm := c.log[rel].term, log := c.log[rel..])
  }

  /** First and last absolute index of the next batch the applier copies. */
  function BatchStart(c: Core): nat {
    Max(c.lastApplied + 1, c.snapshotIndex + 1)
  }

  function Batch(c: Core): seq<Entry>
    requires BatchStart(c) <= c.commit + 1 <= c.End()
  {
    c.log[BatchStart(c) - c.snapshotIndex..c.commit + 1 - c.snapshotIndex]
  }

  function Applied(c: Core, hi: int): Core {
    c.(lastApplied := Max(c.lastApplied, hi))
  }

  /** The second critical section of InstallSnapshot. */
  function Installed(c: Core, index: nat, term: nat): Core {
    if c.snapshotIndex >= index then c
    else
      var rel := index - c.snapshotIndex;
      c.(log := if rel < |c.log| && c.log[rel].term == term then c.log[rel..] else [Entry(term, NoCommand)],
         snapshotIndex := index, snapshotTerm := term,
         commit := Max(c.commit, index), lastApplied := Max(c.lastApplied, index))
  }

  // ---------------------------------------------------------------- index invariants of one peer

  /** Merging keeps at least `at + 1` entries and never shortens the log below the merged slice. */
  lemma {:induction false} MergeReaches(log: seq<Entry>, at: nat, entries: seq<Entry>)
    requires at < |log|
    ensures |Merge(log, at, entries)| > at + |entries|
    ensures Merge(log, at, entries)[..at + 1] == log[..at + 1]
    decreases |entries|
  {
    if entries != [] && at + 1 < |log| && log[at + 1].term == entries[0].term {
      MergeReaches(log, at + 1, entries[1..]);
      assert Merge(log, at, entries)[..at + 1] == Merge(log, at, entries)[..at + 2][..at + 1];
      assert log[..at + 1] == log[..at + 2][..at + 1];
    }
  }

  /** AppendEntries never touches the entry that stands for the snapshot. */
  lemma AppendKeepsHead(c: Core, args: AppendArgs)
    requires |c.log| > 0
    ensures OnAppend(c, args).0.log != [] && OnAppend(c, args).0.log[0] == c.log[0]
  {
    if args.term >= c.term {
      if args.prev >= c.snapshotIndex {
        MergeKeepsHead(c.log, args.prev - c.snapshotIndex, args.entries);
      } else if c.snapshotIndex - args.prev <= |args.entries| {
        MergeKeepsHead(c.log, 0, args.entries[c.snapshotIndex - args.prev..]);
      }
    }
  }

  lemma MergeKeepsHead(log: seq<Entry>, at: nat, entries: seq<Entry>)
    ensures at < |log| ==> Merge(log, at, entries) != [] && Merge(log, at, entries)[0] == log[0]
  {
    if at < |log| {
      MergeReaches(log, at, entries);
      assert Merge(log, at, entries)[..at + 1][0] == log[..at + 1][0];
    }
  }

  /** Snapshot keeps the index invariant exactly when it is not asked to trim past the commit
      index, which its caller guarantees by snapshotting only what it has applied. */
  lemma SnapshotIndices(c: Core, index: nat)
    requires c.IndexOk()
    ensures Trimmed(c, index).IndexOk() <==> (index <= c.commit || index >= c.End())
  {
  }

  /** Snapshot makes the entry at an index inside the log the new head and keeps everything from there on;
      any other index it ignores. */
  lemma SnapshotTrims(c: Core, index: nat)
    ensures var c' := Trimmed(c, index);
      if c.snapshotIndex < index < c.End() then
        && c' == c.(snapshotIndex := index, snapshotTerm := c.log[index - c.snapshotIndex].term, log := c'.log)
        && c'.End() == c.End()
        && forall j | 0 <= j < |c'.log| :: c'.log[j] == c.log[index - c.snapshotIndex + j]
      else c' == c
  {
  }

  function TermAt(c: Core, i: nat): nat
    requires c.snapshotIndex <= i < c.End()
  {
    c.log[i - c.snapshotIndex].term
  }

  /** A rejection in the accepted term says how long the log is, if prev is beyond it, and otherwise names
      the term at prev and the first index of the unbroken stretch of that term in what the peer keeps. */
  lemma RejectionHint(c: Core, args: AppendArgs)
    requires |c.log| > 0 && args.term >= c.term && args.prev >= c.snapshotIndex
    requires args.prev >= c.End() || TermAt(c, args.prev) != args.prevTerm
    ensures var (c', reply) := OnAppend(c, args);
      && !reply.success && reply.term == args.term && c'.log == c.log && c'.commit == c.commit
      && if args.prev >= c.End() then reply.conflictLen == c.End()
         else
           && reply.conflictLen == NO_HINT
           && reply.conflictTerm == TermAt(c, args.prev)
           && c.snapshotIndex <= reply.conflictIndex <= args.prev
           && (forall i: nat | reply.conflictIndex <= i <= args.prev :: TermAt(c, i) == reply.conflictTerm)
           && (reply.conflictIndex > c.snapshotIndex ==> TermAt(c, reply.conflictIndex - 1) != reply.conflictTerm)
  {
  }

  /** Where a rejection that is not stale sends nextIndex: to the length of a log that is too short, to
      just after the leader's own last entry of the conflicting term, or, if it has none, to the start of
      the peer's stretch; but never below what the peer has matched. */
  lemma NextAfterRejection(c: Core, me: nat, server: nat, args: AppendArgs, reply: AppendReply, last: nat)
    requires me < |c.matchIndex| && server < |c.matchIndex| && server < |c.nextIndex| && |c.log| > 0
    requires reply.term <= c.term && !reply.success && args.prev + 1 == c.nextIndex[server]
    requires c.snapshotIndex <= last < c.End()
    requires last > c.snapshotIndex ==> TermAt(c, last) == reply.conflictTerm
    requires forall i: nat | last < i < c.End() :: TermAt(c, i) != reply.conflictTerm
    ensures var target := if reply.conflictLen != NO_HINT then reply.conflictLen
                          else if last > c.snapshotIndex then last + 1
                          else reply.conflictIndex;
      OnAnswer(c, me, server, args, reply) ==
        c.(nextIndex := c.nextIndex[server := Max(Max(target, c.matchIndex[server] + 1), 1)])
  {
    LastOfTermIs(c, reply.conflictTerm, last);
  }

  lemma LastOfTermIs(c: Core, term: int, last: nat)
    requires |c.log| > 0 && c.snapshotIndex <= last < c.End()
    requires last > c.snapshotIndex ==> TermAt(c, last) == term
    requires forall i: nat | last < i < c.End() :: TermAt(c, i) != term
    ensures LastOfTerm(c.log, |c.log|, term) == if last > c.snapshotIndex then last - c.snapshotIndex else -1
  {
    var n := LastOfTerm(c.log, |c.log|, term);
    assert n > 0 ==> TermAt(c, c.snapshotIndex + n) == term;
  }

  /** The leader commits the largest index m that n - n/2 peers have reached, counting itself to its last
      entry, exactly when m is news, inside its log, and of its own term. */
  lemma CommitsExactly(c: Core, me: nat, m: nat)
    requires me < |c.matchIndex| && |c.log| > 0 && m < c.End()
    requires var matches := c.matchIndex[me := c.End() - 1];
      && |Reached(matches, m)| >= |matches| - |matches| / 2 && m in matches
      && forall v: nat | v > m :: |Reached(matches, v)| < |matches| - |matches| / 2
    ensures Committing(c, me) ==
              if m > c.commit && m > c.snapshotIndex && c.log[m - c.snapshotIndex].term == c.term
              then c.(commit := m) else c
  {
    MajorityIndexIsLargest(c.matchIndex[me := c.End() - 1]);
  }

  /** A counted vote makes a leader exactly when it makes the counter more than half, and a new leader
      starts every other peer at the end of its own log with nothing matched and no call out. */
  lemma VoteCountedExactly(c: Core, me: nat, n: nat, votes: nat, args: VoteArgs, reply: VoteReply)
    requires |c.log| > 0 && c.Sized(n) && me < n
    requires c.role.Candidate? && c.term == args.term && reply.term <= c.term
    ensures var (c', counted) := OnVoteReply(c, me, n, votes, args, reply);
      && counted == votes + (if reply.granted then 1 else 0)
      && (c'.role.Leader? <==> counted > n / 2) && c'.Sized(n)
      && (if !c'.role.Leader? then c' == c
          else
            && c' == c.(role := Leader, nextIndex := c'.nextIndex, matchIndex := c'.matchIndex, inFlight := c'.inFlight)
            && c'.matchIndex[me] == c.End() - 1
            && forall q | 0 <= q < n && q != me ::
                 c'.nextIndex[q] == c.End() && c'.matchIndex[q] == 0 && !c'.inFlight[q])
  {
  }

  /** InstallSnapshot keeps the index invariant exactly when the installed index is ahead of the
      commit index, stale, or names the term this peer has there. */
  lemma InstallIndices(c: Core, index: nat, term: nat)
    requires c.IndexOk()
    ensures Installed(c, index, term).IndexOk() <==>
              (index <= c.snapshotIndex || index >= c.commit || c.log[index - c.snapshotIndex].term == term)
  {
  }
}
