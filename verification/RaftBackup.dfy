/** The leader's side of replication: acknowledgements, fast backup of nextIndex, and their
    refinement of the untrimmed protocol. */
module RaftBackup {
  import opened RaftTypes
  import opened RaftQuorum
  import opened RaftInvariant
  import opened RaftReplication
  import opened RaftRefinement
  import P = RaftProtocol
  import T = RaftTrimmed
  import C = RaftCluster

  /** The commit rule reads the same entry through relative and absolute indices. */
  lemma CommittingSame(c: T.Core, peer: P.Peer, me: nat)
    requires SameFields(c, peer) && me < |c.matchIndex|
    requires c.snapshotIndex <= c.commit
    ensures SameFields(T.Committing(c, me), P.Committing(peer, me))
    ensures T.Committing(c, me) == c.(commit := T.Committing(c, me).commit)
    ensures c.commit <= T.Committing(c, me).commit
    ensures c.commit < c.End() ==> T.Committing(c, me).commit < c.End()
  {
    var i := MajorityIndex(c.matchIndex[me := c.End() - 1]);
    if c.commit < i < c.End() {
      EntryAt(c, peer, i - c.snapshotIndex);
    }
  }

  /** What a rejection may rely on: a leader that has not moved on since it built the arguments. */
  ghost predicate Rejected(a: P.State, p: nat, args: AppendArgs, follower: nat, reply: AppendReply) {
    && p < |a.peers| && PeerOk(a, p) && a.peers[p].role.Leader? && a.peers[p].term == args.term
    && SliceOk(a, args, follower) && args.leader == p
    && HintOk(a, args, reply)
  }

  /** The entry a leader finds for the conflicting term lies before prev: were it at prev or later,
      log matching would put that term at prev too. */
  lemma HintBelow(a: P.State, p: nat, c: T.Core, args: AppendArgs, follower: nat, reply: AppendReply)
    requires Rejected(a, p, args, follower, reply) && SameFields(c, a.peers[p])
    ensures 0 <= T.BackedUp(c, reply) <= args.prev
  {
    if reply.conflictLen == NO_HINT {
      var n := T.LastOfTerm(c.log, |c.log|, reply.conflictTerm);
      if n != -1 {
        var log := a.peers[p].log;
        var at := c.snapshotIndex + n;
        EntryAt(c, a.peers[p], n);
        assert Grounded(a, log, at);
        AgreeAll(log, a.reigns[reply.conflictTerm].log, at);
      }
    }
  }

  /** Fast backup makes progress: a rejection that is not stale strictly lowers nextIndex, unless it
      already sits right above what the peer has matched. */
  lemma BackupProgress(c: C.Cluster, a: P.State, follower: nat, args: AppendArgs, tag: nat, reply: AppendReply)
    requires Ready(c, a, C.CountAck(follower, args, tag, reply))
    requires var core := c.nodes[args.leader].core;
             && core.role.Leader? && core.term == args.term
             && !reply.success && reply.term <= core.term
             && args.prev + 1 == core.nextIndex[follower]
    ensures var before := c.nodes[args.leader].core;
            var after := C.Apply(c, C.CountAck(follower, args, tag, reply)).nodes[args.leader].core;
            && after.matchIndex == before.matchIndex
            && before.matchIndex[follower] < after.nextIndex[follower]
            && if before.nextIndex[follower] == before.matchIndex[follower] + 1
               then after.nextIndex == before.nextIndex
               else after.nextIndex[follower] < before.nextIndex[follower]
  {
    var p := args.leader;
    assert SimPeer(c.nodes[p], a.peers[p], |c.nodes|, p);
    assert PeerOk(a, p);
    assert MessageOk(a, AppendAnswer(follower, args, tag, reply));
    HintBelow(a, p, c.nodes[p].core, args, follower, reply);
    HintBelow(a, p, T.Landed(c.nodes[p].core, follower, tag), args, follower, reply);
  }

  /** What a reply leaves alone, and the leader's index bounds it keeps. */
  ghost predicate AnswerKeeps(c: T.Core, d: T.Core, n: nat, me: nat) {
    && c.Sized(n) && d.Sized(n)
    && d.log == c.log && d.snapshotIndex == c.snapshotIndex && d.snapshotTerm == c.snapshotTerm
    && d.lastApplied == c.lastApplied && c.commit <= d.commit < c.End()
    && (d.role.Leader? ==> NextOk(d, me)) && !d.role.Candidate?
  }

  ghost predicate LeaderAnswered(a: P.State, c: T.Core, p: nat, follower: nat, args: AppendArgs) {
    && p < |a.peers| && PeerOk(a, p) && c.IndexOk() && c.Sized(|a.peers|) && SameFields(c, a.peers[p])
    && c.role.Leader? && c.term == args.term && SliceOk(a, args, follower) && args.leader == p
    && NextOk(c, p)
  }

  /** The match index a success raises, before the commit rule and nextIndex follow. */
  lemma RaisedSims(a: P.State, c: T.Core, p: nat, follower: nat, reached: nat)
    requires p < |a.peers| && follower < |a.peers| && c.IndexOk() && c.Sized(|a.peers|) && SameFields(c, a.peers[p])
    requires c.role.Leader? && NextOk(c, p) && p != follower && c.matchIndex[follower] < reached < c.End()
    ensures var d := T.Committing(c.(matchIndex := c.matchIndex[follower := reached]), p);
            var e := d.(nextIndex := d.nextIndex[follower := Max(d.nextIndex[follower], d.matchIndex[follower] + 1)]);
            && SameFields(e, P.Committing(a.peers[p].(matched := a.peers[p].matched[follower := reached]), p))
            && AnswerKeeps(c, e, |a.peers|, p)
  {
    var raised := c.(matchIndex := c.matchIndex[follower := reached]);
    CommittingSame(raised, a.peers[p].(matched := a.peers[p].matched[follower := reached]), p);
  }

  lemma SuccessSims(a: P.State, c: T.Core, p: nat, follower: nat, args: AppendArgs, reply: AppendReply)
    requires p < |a.peers| && follower < |a.peers| && p != follower
    requires c.IndexOk() && c.Sized(|a.peers|) && SameFields(c, a.peers[p])
    requires c.role.Leader? && c.term == args.term && NextOk(c, p) && args.prev + |args.entries| < c.End()
    requires reply.success && reply.term <= c.term
    ensures SameFields(T.OnAnswer(c, p, follower, args, reply), P.OnAppendAnswer(a.peers[p], p, follower, args, reply))
    ensures AnswerKeeps(c, T.OnAnswer(c, p, follower, args, reply), |a.peers|, p)
  {
    var reached := args.prev + |args.entries|;
    if reached > c.matchIndex[follower] {
      RaisedSims(a, c, p, follower, reached);
      assert P.OnAppendAnswer(a.peers[p], p, follower, args, reply)
          == P.Committing(a.peers[p].(matched := a.peers[p].matched[follower := reached]), p);
    }
  }

  lemma RejectionSims(a: P.State, c: T.Core, p: nat, follower: nat, args: AppendArgs, reply: AppendReply)
    requires LeaderAnswered(a, c, p, follower, args)
    requires if reply.term > c.term then true else !reply.success && HintOk(a, args, reply)
    ensures SameFields(T.OnAnswer(c, p, follower, args, reply), P.OnAppendAnswer(a.peers[p], p, follower, args, reply))
    ensures AnswerKeeps(c, T.OnAnswer(c, p, follower, args, reply), |a.peers|, p)
  {
    if reply.term <= c.term && args.prev + 1 == c.nextIndex[follower] {
      HintBelow(a, p, c, args, follower, reply);
    }
  }

  /** The node after a reply, from what the reply leaves alone. */
  lemma SimAfterAnswer(node: C.Node, d: T.Core, peer: P.Peer, peer': P.Peer, n: nat, me: nat)
    requires SimPeer(node, peer, n, me) && SameFields(d, peer') && AnswerKeeps(node.core, d, n, me)
    requires peer'.log == peer.log
    ensures SimPeer(node.(core := d), peer', n, me)
  {
    DeliveredKept(node, node.(core := d), peer.log, peer'.log);
  }

  lemma LandedSame(c: T.Core, peer: P.Peer, server: nat, tag: nat, n: nat, me: nat)
    requires c.Sized(n) && c.IndexOk() && SameFields(c, peer) && server < n
    ensures var d := T.Landed(c, server, tag);
            && d.Sized(n) && d.IndexOk() && SameFields(d, peer)
            && d.nextIndex == c.nextIndex && d.lastApplied == c.lastApplied
            && d.snapshotIndex == c.snapshotIndex && d.snapshotTerm == c.snapshotTerm && d.log == c.log
  {
  }

  lemma CountAckRefines(c: C.Cluster, a: P.State, follower: nat, args: AppendArgs, tag: nat, reply: AppendReply)
    returns (a': P.State)
    requires Ready(c, a, C.CountAck(follower, args, tag, reply))
    ensures Sim(C.Apply(c, C.CountAck(follower, args, tag, reply)), a')
    ensures a' == a || P.Next(a, a')
  {
    var p, n := args.leader, |c.nodes|;
    var c' := C.Apply(c, C.CountAck(follower, args, tag, reply));
    var node, peer := c.nodes[p], a.peers[p];
    assert SimPeer(node, peer, n, p);
    LandedSame(node.core, peer, follower, tag, n, p);
    var landed := T.Landed(node.core, follower, tag);
    if !node.core.role.Leader? || node.core.term != args.term {
      a' := a;
    } else {
      assert PeerOk(a, p);
      assert MessageOk(a, AppendAnswer(follower, args, tag, reply));
      var step := P.CountAck(follower, args, tag, reply);
      assert P.Enabled(a, step);
      a' := P.Apply(a, step);
      if reply.success && reply.term <= landed.term {
        SuccessSims(a, landed, p, follower, args, reply);
      } else {
        RejectionSims(a, landed, p, follower, args, reply);
      }
      AnswerKeepsLog(peer, p, follower, args, reply);
      SimAfterAnswer(node, T.OnAnswer(landed, p, follower, args, reply), peer, a'.peers[p], n, p);
    }
    OneNodeMoved(c, a, c', a', p);
  }

  lemma AnswerKeepsLog(peer: P.Peer, me: nat, follower: nat, args: AppendArgs, reply: AppendReply)
    requires me < |peer.matched| && follower < |peer.matched| && |peer.log| > 0
    ensures P.OnAppendAnswer(peer, me, follower, args, reply).log == peer.log
  {
  }

  // ---------------------------------------------------------------- the applier and the service

  lemma TakeBatchRefines(c: C.Cluster, a: P.State, p: nat)
    requires Ready(c, a, C.TakeBatch(p))
    ensures Sim(C.Apply(c, C.TakeBatch(p)), a)
  {
    var node, peer := c.nodes[p], a.peers[p];
    assert SimPeer(node, peer, |c.nodes|, p);
    var lo, hi, snap := T.BatchStart(node.core), node.core.commit, node.core.snapshotIndex;
    assert node.core.log[lo - snap..hi + 1 - snap] == peer.log[lo..hi + 1];
    OneNodeMoved(c, a, C.Apply(c, C.TakeBatch(p)), a, p);
  }

  /** Delivering the next entry of the batch continues the applied sequence without gap or repeat. */
  lemma DeliverRefines(c: C.Cluster, a: P.State, p: nat)
    requires Ready(c, a, C.Deliver(p))
    ensures Sim(C.Apply(c, C.Deliver(p)), a)
  {
    assert SimPeer(c.nodes[p], a.peers[p], |c.nodes|, p);
    OneNodeMoved(c, a, C.Apply(c, C.Deliver(p)), a, p);
  }

  lemma FinishBatchRefines(c: C.Cluster, a: P.State, p: nat)
    requires Ready(c, a, C.FinishBatch(p))
    ensures Sim(C.Apply(c, C.FinishBatch(p)), a)
  {
    assert SimPeer(c.nodes[p], a.peers[p], |c.nodes|, p);
    OneNodeMoved(c, a, C.Apply(c, C.FinishBatch(p)), a, p);
  }

  /** Snapshot is a no-op on the full log. */
  lemma SnapshotRefines(c: C.Cluster, a: P.State, p: nat, index: nat)
    requires Ready(c, a, C.Snapshot(p, index))
    ensures Sim(C.Apply(c, C.Snapshot(p, index)), a)
  {
    var node, peer := c.nodes[p], a.peers[p];
    assert SimPeer(node, peer, |c.nodes|, p);
    var rel := index - node.core.snapshotIndex;
    if 0 < rel < |node.core.log| {
      assert peer.log[index..] == node.core.log[rel..];
    }
    OneNodeMoved(c, a, C.Apply(c, C.Snapshot(p, index)), a, p);
  }

  lemma CallFailsRefines(c: C.Cluster, a: P.State, p: nat, to: nat, tag: nat)
    requires Ready(c, a, C.CallFails(p, to, tag))
    ensures Sim(C.Apply(c, C.CallFails(p, to, tag)), a)
  {
    assert SimPeer(c.nodes[p], a.peers[p], |c.nodes|, p);
    OneNodeMoved(c, a, C.Apply(c, C.CallFails(p, to, tag)), a, p);
  }

  /** The majority index updateCommitIndex looks up after an acknowledgement is inside the log. */
  lemma MatchesInRange(c: C.Cluster, a: P.State, follower: nat, args: AppendArgs, tag: nat, reply: AppendReply)
    requires Ready(c, a, C.CountAck(follower, args, tag, reply))
    requires var core := c.nodes[args.leader].core; core.role.Leader? && core.term == args.term
    ensures var core := c.nodes[args.leader].core;
            MajorityIndex(core.matchIndex[follower := args.prev + |args.entries|][args.leader := core.End() - 1]) < core.End()
  {
    var p := args.leader;
    var core := c.nodes[p].core;
    SentEntriesInside(c, a, follower, args, tag, reply);
    var matches := core.matchIndex[follower := args.prev + |args.entries|][p := core.End() - 1];
    forall q: nat | q < |matches| ensures matches[q] < core.End() {
      if q != p && q != follower {
        MatchBelowEnd(c, a, p, q);
      }
    }
    MajorityIndexIsLargest(matches);
  }

  /** The entries of an answered call are part of its leader's log. */
  lemma SentEntriesInside(c: C.Cluster, a: P.State, follower: nat, args: AppendArgs, tag: nat, reply: AppendReply)
    requires Ready(c, a, C.CountAck(follower, args, tag, reply))
    requires var core := c.nodes[args.leader].core; core.role.Leader? && core.term == args.term
    ensures args.prev + |args.entries| < c.nodes[args.leader].core.End()
  {
    assert SimPeer(c.nodes[args.leader], a.peers[args.leader], |c.nodes|, args.leader);
    assert PeerOk(a, args.leader);
    assert MessageOk(a, AppendAnswer(follower, args, tag, reply));
  }

  /** What a leader believes another peer holds lies within its own log. */
  lemma MatchBelowEnd(c: C.Cluster, a: P.State, p: nat, q: nat)
    requires Sim(c, a) && Inv(a) && P.Wellformed(a) && p < |c.nodes| && q < |c.nodes| && q != p
    requires c.nodes[p].core.role.Leader?
    ensures q < |c.nodes[p].core.matchIndex| && c.nodes[p].core.matchIndex[q] < c.nodes[p].core.End()
  {
    assert SimPeer(c.nodes[p], a.peers[p], |c.nodes|, p);
    assert PeerOk(a, p);
    if c.nodes[p].core.matchIndex[q] > 0 {
      assert AckOk(a, (a.peers[p].term, q));
    }
  }

  // ---------------------------------------------------------------- runs

  lemma EventRefines(c: C.Cluster, a: P.State, e: C.Event) returns (a': P.State)
    requires Ready(c, a, e)
    ensures Sim(C.Apply(c, e), a')
    ensures a' == a || P.Next(a, a')
  {
    a' := a;
    match e
    case Campaign(p) => CampaignRefines(c, a, p); a' := P.Apply(a, P.Campaign(p));
    case Vote(to, ballot) => VoteRefines(c, a, to, ballot); a' := P.Apply(a, P.Vote(to, ballot));
    case CountVote(voter, ballot, verdict) => a' := CountVoteRefines(c, a, voter, ballot, verdict);
    case Start(p, command) => a' := StartRefines(c, a, p, command);
    case Send(p, to) => a' := SendRefines(c, a, p, to);
    case Append(to, args, tag) => a' := AppendRefines(c, a, to, args, tag);
    case CountAck(follower, args, tag, reply) => a' := CountAckRefines(c, a, follower, args, tag, reply);
    case CallFails(p, to, tag) => CallFailsRefines(c, a, p, to, tag);
    case TakeBatch(p) => TakeBatchRefines(c, a, p);
    case Deliver(p) => DeliverRefines(c, a, p);
    case FinishBatch(p) => FinishBatchRefines(c, a, p);
    case Snapshot(p, index) => SnapshotRefines(c, a, p, index);
  }

  function FullInit(n: nat): P.State {
    P.State(seq(n, _ => P.Fresh(n)), {}, map[], map[], map[0 := P.Reign(0, {}, 1, [SENTINEL])], map[])
  }

  lemma InitRefines(c: C.Cluster)
    requires C.Init(c)
    ensures P.Init(FullInit(|c.nodes|)) && Sim(c, FullInit(|c.nodes|))
  {
    var n := |c.nodes|;
    forall p: nat | p < n ensures SimPeer(c.nodes[p], FullInit(n).peers[p], n, p) {
      assert c.nodes[p] == C.Node(C.FreshCore(n), 0, {}, C.Idle, []);
      assert [SENTINEL][0..] == [SENTINEL];
    }
  }

  ghost predicate Linked(full: seq<P.State>, k: nat)
    requires k + 1 < |full|
  {
    full[k + 1] == full[k] || P.Next(full[k], full[k + 1])
  }

  /** A run of the untrimmed cluster, idle steps allowed, that the trimmed run follows state by state. */
  ghost predicate Follows(run: seq<C.Cluster>, full: seq<P.State>) {
    && |full| == |run| && |run| > 0 && P.Init(full[0])
    && (forall k: nat {:trigger Linked(full, k)} | k + 1 < |run| :: Linked(full, k))
    && (forall k: nat {:trigger Sim(run[k], full[k])} {:trigger Inv(full[k])} | k < |run| ::
          Sim(run[k], full[k]) && Inv(full[k]))
  }

  lemma FollowsOneMore(run: seq<C.Cluster>, full: seq<P.State>, c: C.Cluster, next: P.State)
    requires Follows(run, full) && Sim(c, next) && Inv(next)
    requires next == full[|full| - 1] || P.Next(full[|full| - 1], next)
    ensures Follows(run + [c], full + [next])
  {
    var run', full' := run + [c], full + [next];
    forall k: nat | k + 1 < |run'| ensures Linked(full', k) {
      if k + 1 < |run| {
        assert Linked(full, k);
      }
    }
    forall k: nat | k < |run'| ensures Sim(run'[k], full'[k]) && Inv(full'[k]) {
      if k < |run| {
        assert Sim(run[k], full[k]);
      }
    }
  }

  lemma PrefixIsRun(run: seq<C.Cluster>, n: nat)
    requires C.IsRun(run) && 0 < n <= |run|
    ensures C.IsRun(run[..n])
  {
    forall i: nat | i + 1 < n ensures C.Stepped(run[..n], i) {
      assert C.Stepped(run, i);
    }
  }

  /** Every run of the code's cluster refines a run of the untrimmed protocol. */
  lemma {:induction false} RunRefines(run: seq<C.Cluster>) returns (full: seq<P.State>)
    requires C.IsRun(run)
    ensures Follows(run, full)
  {
    if |run| == 1 {
      InitRefines(run[0]);
      full := [FullInit(|run[0].nodes|)];
      InitEstablishes(full[0]);
    } else {
      var k := |run| - 2;
      var before := run[..k + 1];
      PrefixIsRun(run, k + 1);
      assert C.Stepped(run, k);
      var prefix := RunRefines(before);
      var next := LastRefines(run, prefix);
      FollowsOneMore(before, prefix, run[k + 1], next);
      assert run == before + [run[k + 1]];
      full := prefix + [next];
    }
  }

  lemma LastRefines(run: seq<C.Cluster>, prefix: seq<P.State>) returns (next: P.State)
    requires |run| > 1 && C.Next(run[|run| - 2], run[|run| - 1]) && Follows(run[..|run| - 1], prefix)
    ensures Sim(run[|run| - 1], next) && Inv(next)
    ensures next == prefix[|prefix| - 1] || P.Next(prefix[|prefix| - 1], next)
  {
    var k := |run| - 2;
    assert Sim(run[..k + 1][k], prefix[k]);
    var e :| C.Enabled(run[k], e) && run[k + 1] == C.Apply(run[k], e);
    InvIsWellformed(prefix[k]);
    next := EventRefines(run[k], prefix[k], e);
    if next != prefix[k] {
      var step :| P.Enabled(prefix[k], step) && next == P.Apply(prefix[k], step);
      StepKeeps(prefix[k], step);
    }
  }
}
