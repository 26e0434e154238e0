/** The trimmed cluster refines the untrimmed one: every event is a step of RaftProtocol or leaves
    it alone, with `log == full[snapshotIndex..]` at every peer. */
module RaftRefinement {
  import opened RaftTypes
  import opened RaftInvariant
  import opened RaftSafety
  import opened RaftReplication
  import P = RaftProtocol
  import T = RaftTrimmed
  import C = RaftCluster

  // ---------------------------------------------------------------- simulation relation

  /** A leader's nextIndex stays above what the peer has matched and within its log. */
  ghost predicate NextOk(c: T.Core, me: nat)
    requires |c.nextIndex| == |c.matchIndex|
  {
    forall q | 0 <= q < |c.nextIndex| && q != me :: c.matchIndex[q] < c.nextIndex[q] <= c.End()
  }

  /** The service has received exactly the committed commands 1, 2, ..., and the batch in delivery
      continues them. */
  ghost predicate ApplierOk(node: C.Node, log: seq<Entry>) {
    && |node.applied| <= node.core.commit < |log|
    && node.core.snapshotIndex <= |node.applied|
    && (forall i | 0 <= i < |node.applied| :: node.applied[i] == C.ApplyMsg(i + 1, log[i + 1].command))
    && match node.delivery
       case Idle => node.core.lastApplied == |node.applied|
       case Delivering(lo, entries, done) =>
         && lo > 0 && done <= |entries| && lo - 1 + done == |node.applied|
         && lo - 1 + |entries| <= node.core.commit
         && entries == log[lo..lo + |entries|]
         && node.core.lastApplied <= |node.applied|
  }

  ghost predicate SameFields(c: T.Core, peer: P.Peer) {
    && c.term == peer.term && c.votedFor == peer.votedFor && c.role == peer.role
    && c.commit == peer.commit && c.matchIndex == peer.matched
    && c.End() == |peer.log| && |c.log| > 0 && peer.log[c.snapshotIndex..] == c.log
  }

  ghost predicate SimPeer(node: C.Node, peer: P.Peer, n: nat, me: nat) {
    && node.core.IndexOk() && node.core.Sized(n)
    && SameFields(node.core, peer)
    && (peer.role.Candidate? ==> node.votes == |peer.granted| && node.awaiting == peer.awaiting)
    && (peer.role.Leader? ==> NextOk(node.core, me))
    && ApplierOk(node, peer.log)
  }

  ghost predicate Sim(c: C.Cluster, a: P.State) {
    && |c.nodes| == |a.peers| && c.sent == a.sent
    && forall p: nat {:trigger SimPeer(c.nodes[p], a.peers[p], |c.nodes|, p)} | p < |c.nodes| ::
         SimPeer(c.nodes[p], a.peers[p], |c.nodes|, p)
  }

  lemma SimIsWellformed(c: C.Cluster, a: P.State)
    requires Sim(c, a)
    ensures C.Wellformed(c)
  {
    forall p: nat | p < |c.nodes| ensures c.nodes[p].core.IndexOk() && c.nodes[p].core.Sized(|c.nodes|) {
      assert SimPeer(c.nodes[p], a.peers[p], |c.nodes|, p);
    }
  }

  /** Entry i of the trimmed log is entry `snapshotIndex + i` of the full one. */
  lemma EntryAt(c: T.Core, peer: P.Peer, i: nat)
    requires SameFields(c, peer) && i < |c.log|
    ensures c.log[i] == peer.log[c.snapshotIndex + i]
  {
    assert peer.log[c.snapshotIndex..][i] == peer.log[c.snapshotIndex + i];
  }

  lemma LastEntry(c: T.Core, peer: P.Peer)
    requires SameFields(c, peer)
    ensures LastTerm(c.log) == LastTerm(peer.log)
  {
    EntryAt(c, peer, |c.log| - 1);
  }

  /** Only node p and the messages moved, on both sides alike. */
  lemma OneNodeMoved(c: C.Cluster, a: P.State, c': C.Cluster, a': P.State, p: nat)
    requires Sim(c, a) && p < |c.nodes|
    requires |c'.nodes| == |c.nodes| && |a'.peers| == |a.peers| && c'.sent == a'.sent
    requires forall q | 0 <= q < |c.nodes| && q != p :: c'.nodes[q] == c.nodes[q] && a'.peers[q] == a.peers[q]
    requires SimPeer(c'.nodes[p], a'.peers[p], |c.nodes|, p)
    ensures Sim(c', a')
  {
    forall q: nat | q < |c'.nodes| ensures SimPeer(c'.nodes[q], a'.peers[q], |c'.nodes|, q) {
      assert SimPeer(c.nodes[q], a.peers[q], |c.nodes|, q);
    }
  }

  // ---------------------------------------------------------------- elections

  ghost predicate Ready(c: C.Cluster, a: P.State, e: C.Event) {
    Sim(c, a) && Inv(a) && C.Wellformed(c) && P.Wellformed(a) && C.Enabled(c, e)
  }

  lemma CampaignRefines(c: C.Cluster, a: P.State, p: nat)
    requires Ready(c, a, C.Campaign(p))
    ensures P.Enabled(a, P.Campaign(p)) && Sim(C.Apply(c, C.Campaign(p)), P.Apply(a, P.Campaign(p)))
  {
    assert SimPeer(c.nodes[p], a.peers[p], |c.nodes|, p);
    var c', a' := C.Apply(c, C.Campaign(p)), P.Apply(a, P.Campaign(p));
    LastEntry(c.nodes[p].core, a.peers[p]);
    assert |{p}| == 1;
    OneNodeMoved(c, a, c', a', p);
  }

  /** A change of term, vote and role alone, to a follower or within a role. */
  lemma SimAfterVote(node: C.Node, core': T.Core, peer: P.Peer, peer': P.Peer, n: nat, me: nat)
    requires SimPeer(node, peer, n, me)
    requires core' == node.core.(term := peer'.term, votedFor := peer'.votedFor, role := peer'.role)
    requires peer' == peer.(term := peer'.term, votedFor := peer'.votedFor, role := peer'.role)
    requires peer'.role == peer.role || peer'.role.Follower?
    ensures SimPeer(node.(core := core'), peer', n, me)
  {
  }

  lemma VoteSims(node: C.Node, peer: P.Peer, n: nat, me: nat, ballot: VoteArgs)
    requires SimPeer(node, peer, n, me) && LastTerm(node.core.log) == LastTerm(peer.log)
    ensures P.OnVoteRequest(peer, ballot).1 == T.OnVoteRequest(node.core, ballot).1
    ensures SimPeer(node.(core := T.OnVoteRequest(node.core, ballot).0), P.OnVoteRequest(peer, ballot).0, n, me)
  {
    SimAfterVote(node, T.OnVoteRequest(node.core, ballot).0, peer, P.OnVoteRequest(peer, ballot).0, n, me);
  }

  lemma VoteRefines(c: C.Cluster, a: P.State, to: nat, ballot: VoteArgs)
    requires Ready(c, a, C.Vote(to, ballot))
    ensures P.Enabled(a, P.Vote(to, ballot)) && Sim(C.Apply(c, C.Vote(to, ballot)), P.Apply(a, P.Vote(to, ballot)))
  {
    assert SimPeer(c.nodes[to], a.peers[to], |c.nodes|, to);
    LastEntry(c.nodes[to].core, a.peers[to]);
    VoteSims(c.nodes[to], a.peers[to], |c.nodes|, to, ballot);
    OneNodeMoved(c, a, C.Apply(c, C.Vote(to, ballot)), P.Apply(a, P.Vote(to, ballot)), to);
  }

  /** The plain vote counter is the number of distinct peers that granted the vote. */
  lemma CountVoteSims(node: C.Node, peer: P.Peer, n: nat, me: nat, voter: nat, ballot: VoteArgs, verdict: VoteReply)
    requires SimPeer(node, peer, n, me) && me < n && |peer.matched| == n
    requires peer.term == ballot.term && peer.role.Candidate? && voter !in peer.granted
    ensures var (d, votes) := T.OnVoteReply(node.core, me, n, node.votes, ballot, verdict);
            SimPeer(node.(core := d, votes := votes, awaiting := node.awaiting - {voter}),
                    P.OnVoteAnswer(peer, me, n, voter, ballot, verdict), n, me)
  {
  }

  lemma CountVoteRefines(c: C.Cluster, a: P.State, voter: nat, ballot: VoteArgs, verdict: VoteReply) returns (a': P.State)
    requires Ready(c, a, C.CountVote(voter, ballot, verdict))
    ensures Sim(C.Apply(c, C.CountVote(voter, ballot, verdict)), a')
    ensures a' == a || P.Next(a, a')
  {
    var p := ballot.candidate;
    var c' := C.Apply(c, C.CountVote(voter, ballot, verdict));
    assert SimPeer(c.nodes[p], a.peers[p], |c.nodes|, p);
    assert PeerOk(a, p);
    if a.peers[p].term != ballot.term || !a.peers[p].role.Candidate? {
      a' := a;
    } else {
      var step := P.CountVote(voter, ballot, verdict);
      assert P.Enabled(a, step);
      a' := P.Apply(a, step);
      CountVoteSims(c.nodes[p], a.peers[p], |c.nodes|, p, voter, ballot, verdict);
    }
    OneNodeMoved(c, a, c', a', p);
  }

  // ---------------------------------------------------------------- replication

  lemma StartRefines(c: C.Cluster, a: P.State, p: nat, command: Command) returns (a': P.State)
    requires Ready(c, a, C.Start(p, command))
    ensures Sim(C.Apply(c, C.Start(p, command)), a')
    ensures a' == a || P.Next(a, a')
  {
    var c' := C.Apply(c, C.Start(p, command));
    assert SimPeer(c.nodes[p], a.peers[p], |c.nodes|, p);
    if a.peers[p].role.Leader? {
      assert PeerOk(a, p);
      var step := P.Propose(p, command);
      assert P.Enabled(a, step);
      a' := P.Apply(a, step);
      var snap := c.nodes[p].core.snapshotIndex;
      assert a'.peers[p].log[snap..] == a.peers[p].log[snap..] + [Entry(a.peers[p].term, command)];
      DeliveredKept(c.nodes[p], c'.nodes[p], a.peers[p].log, a'.peers[p].log);
    } else {
      a' := a;
    }
    OneNodeMoved(c, a, c', a', p);
  }

  /** The applier's view survives any change of the log that keeps the committed prefix. */
  lemma DeliveredKept(node: C.Node, node': C.Node, log: seq<Entry>, log': seq<Entry>)
    requires ApplierOk(node, log) && node' == node.(core := node'.core)
    requires node'.core.lastApplied == node.core.lastApplied && node'.core.snapshotIndex == node.core.snapshotIndex
    requires node.core.commit <= node'.core.commit < |log'|
    requires log'[..node.core.commit + 1] == log[..node.core.commit + 1]
    ensures ApplierOk(node', log')
  {
    var k := node.core.commit + 1;
    assert forall i | 0 <= i < k :: log'[i] == log'[..k][i] == log[..k][i] == log[i];
  }

  /** The arguments cut from the trimmed log are a slice of the full one. */
  lemma ArgsMatch(core: T.Core, peer: P.Peer, me: nat, to: nat)
    requires SameFields(core, peer) && to < |core.nextIndex| && to < |core.inFlight|
    requires core.snapshotIndex < core.nextIndex[to] <= core.End()
    ensures var args := T.NextArgs(core, me, to);
            && args.prev + |args.entries| < |peer.log|
            && args == P.AppendFrom(peer, me, args.prev, |args.entries|)
  {
    var args := T.NextArgs(core, me, to);
    var rel := args.prev - core.snapshotIndex;
    EntryAt(core, peer, rel);
    if core.inFlight[to] {
      assert peer.log[args.prev + 1..args.prev + 1] == [];
    } else {
      assert peer.log[args.prev + 1..args.prev + 1 + |args.entries|] == core.log[rel + 1..];
    }
  }

  lemma SendRefines(c: C.Cluster, a: P.State, p: nat, to: nat) returns (a': P.State)
    requires Ready(c, a, C.Send(p, to))
    ensures P.Next(a, a') && Sim(C.Apply(c, C.Send(p, to)), a')
  {
    var core, peer := c.nodes[p].core, a.peers[p];
    assert SimPeer(c.nodes[p], peer, |c.nodes|, p);
    ArgsMatch(core, peer, p, to);
    var args := T.NextArgs(core, p, to);
    var step := P.Replicate(p, to, args.prev, |args.entries|, T.Sent(core, to).sendSeq[to]);
    assert P.Enabled(a, step);
    a' := P.Apply(a, step);
    OneNodeMoved(c, a, C.Apply(c, C.Send(p, to)), a', p);
  }

  /** Merging into the trimmed log is merging into the full one. */
  lemma {:induction false} MergeTrimmed(full: seq<Entry>, snap: nat, at: nat, entries: seq<Entry>)
    requires snap <= at < |full|
    ensures |Merge(full, at, entries)| >= snap
    ensures Merge(full, at, entries)[snap..] == Merge(full[snap..], at - snap, entries)
    decreases |entries|
  {
    if entries != [] && at + 1 < |full| && full[at + 1].term == entries[0].term {
      MergeTrimmed(full, snap, at + 1, entries[1..]);
    } else if entries != [] {
      assert full[snap..][..at - snap + 1] == full[..at + 1][snap..];
    }
  }

  /** Entries the full log already has can be skipped. */
  lemma {:induction false} MergeSkips(full: seq<Entry>, at: nat, entries: seq<Entry>, skip: nat)
    requires skip <= |entries| && at + skip < |full|
    requires forall j | 0 <= j < skip :: full[at + 1 + j].term == entries[j].term
    ensures Merge(full, at, entries) == Merge(full, at + skip, entries[skip..])
    decreases skip
  {
    if skip > 0 {
      assert forall j | 0 <= j < skip - 1 :: entries[1..][j] == entries[j + 1];
      MergeSkips(full, at + 1, entries[1..], skip - 1);
      assert entries[1..][skip - 1..] == entries[skip..];
    } else {
      assert entries[skip..] == entries;
    }
  }

  /** What the trimmed peer has cut off, a leader that speaks to it in a term not over yet holds. */
  ghost predicate PrefixAgreed(c: T.Core, full: seq<Entry>, args: AppendArgs) {
    forall i | args.prev <= i <= c.snapshotIndex && i <= args.prev + |args.entries| ::
      i < |full| && full[i].term == if i == args.prev then args.prevTerm else args.entries[i - args.prev - 1].term
  }

  lemma CommittedAgreesWithArgs(a: P.State, to: nat, args: AppendArgs, core: T.Core)
    requires Inv(a) && to < |a.peers| && SliceOk(a, args, to) && args.term >= a.peers[to].term
    requires core.snapshotIndex <= a.peers[to].commit
    ensures PrefixAgreed(core, a.peers[to].log, args)
  {
    assert PeerOk(a, to);
    var l, lead := a.peers[to].log, a.reigns[args.term].log;
    DurableInReign(a, l, a.peers[to].commit, a.peers[to].term, args.term);
    AgreeAll(l, lead, a.peers[to].commit);
    assert forall j | 0 <= j < |args.entries| :: args.entries[j] == lead[args.prev + 1 + j];
  }

  /** The outcome of AppendEntries on the trimmed log is an outcome of the plain handler. */
  ghost predicate PlainOutcome(core: T.Core, peer: P.Peer, args: AppendArgs, core': T.Core, reply: AppendReply) {
    && SameFields(core', P.OnAppend(peer, args))
    && core' == core.(term := core'.term, votedFor := core'.votedFor, role := core'.role,
                      log := core'.log, commit := core'.commit)
    && P.AnswersAppend(peer, args, reply)
  }

  /** AppendEntries on the trimmed log is the plain handler on the full log: same full log, same
      commit index, same success, prefix skipping and early success included. */
  lemma AppendRefinesPlain(core: T.Core, peer: P.Peer, args: AppendArgs)
    requires SameFields(core, peer) && core.IndexOk()
    requires args.term >= core.term ==> PrefixAgreed(core, peer.log, args)
    ensures PlainOutcome(core, peer, args, T.OnAppend(core, args).0, T.OnAppend(core, args).1)
  {
    if args.term >= core.term {
      if args.prev >= core.snapshotIndex {
        AppendInRange(core, peer, args);
      } else if core.snapshotIndex - args.prev > |args.entries| {
        AppendCovered(core, peer, args);
      } else {
        AppendSkipping(core, peer, args);
      }
    }
  }

  lemma AppendInRange(core: T.Core, peer: P.Peer, args: AppendArgs)
    requires SameFields(core, peer) && core.IndexOk()
    requires args.term >= core.term && args.prev >= core.snapshotIndex
    ensures var (core', reply) := T.AppendAt(T.Heard(core, args.term), args);
            PlainOutcome(core, peer, args, core', reply)
  {
    var rel := args.prev - core.snapshotIndex;
    if rel < |core.log| {
      EntryAt(core, peer, rel);
      if P.Accepts(peer, args) {
        MergedSame(core, peer, args);
      }
    }
  }

  lemma MergedSame(core: T.Core, peer: P.Peer, args: AppendArgs)
    requires SameFields(core, peer) && core.snapshotIndex <= args.prev < core.End()
    ensures var merged := Merge(core.log, args.prev - core.snapshotIndex, args.entries);
            var full := Merge(peer.log, args.prev, args.entries);
            |merged| > 0 && core.snapshotIndex + |merged| == |full| && full[core.snapshotIndex..] == merged
  {
    MergeTrimmed(peer.log, core.snapshotIndex, args.prev, args.entries);
    T.MergeReaches(core.log, args.prev - core.snapshotIndex, args.entries);
  }

  /** Every entry lies below the snapshot: nothing to do, and the plain handler does nothing. */
  lemma AppendCovered(core: T.Core, peer: P.Peer, args: AppendArgs)
    requires SameFields(core, peer) && core.IndexOk() && PrefixAgreed(core, peer.log, args)
    requires args.term >= core.term && args.prev + |args.entries| < core.snapshotIndex
    ensures PlainOutcome(core, peer, args, T.Heard(core, args.term), T.Accept(T.Heard(core, args.term).term))
  {
    assert forall j | 0 <= j < |args.entries| :: peer.log[args.prev + 1 + j].term == args.entries[j].term;
    MergeSkips(peer.log, args.prev, args.entries, |args.entries|);
    assert args.entries[|args.entries|..] == [];
  }

  /** The plain handler does not notice when the part below the snapshot is skipped. */
  lemma PlainSkips(peer: P.Peer, args: AppendArgs, skip: nat)
    requires 0 < skip <= |args.entries| && args.prev + skip < |peer.log| && args.term >= peer.term
    requires peer.log[args.prev].term == args.prevTerm
    requires forall j | 0 <= j < skip :: peer.log[args.prev + 1 + j].term == args.entries[j].term
    ensures var rest := args.(prev := args.prev + skip, prevTerm := peer.log[args.prev + skip].term,
                              entries := args.entries[skip..]);
            && P.Accepts(peer, args) && P.Accepts(peer, rest)
            && P.OnAppend(peer, args) == P.OnAppend(peer, rest)
  {
    MergeSkips(peer.log, args.prev, args.entries, skip);
  }

  lemma AppendSkipping(core: T.Core, peer: P.Peer, args: AppendArgs)
    requires SameFields(core, peer) && core.IndexOk() && PrefixAgreed(core, peer.log, args)
    requires args.term >= core.term && args.prev < core.snapshotIndex <= args.prev + |args.entries|
    ensures PlainOutcome(core, peer, args, T.OnAppend(core, args).0, T.OnAppend(core, args).1)
  {
    var rest := args.(prev := core.snapshotIndex, prevTerm := core.snapshotTerm,
                      entries := args.entries[core.snapshotIndex - args.prev..]);
    EntryAt(core, peer, 0);
    PlainSkips(peer, args, core.snapshotIndex - args.prev);
    var (core', reply) := T.AppendAt(T.Heard(core, args.term), rest);
    AppendInRange(core, peer, rest);
    SameOutcome(core, peer, rest, args, core', reply);
  }

  /** Two requests the plain handler accepts alike have the same outcomes. */
  lemma SameOutcome(core: T.Core, peer: P.Peer, args: AppendArgs, args': AppendArgs, core': T.Core, reply: AppendReply)
    requires PlainOutcome(core, peer, args, core', reply)
    requires P.Accepts(peer, args) && P.Accepts(peer, args') && args.term == args'.term
    requires P.OnAppend(peer, args) == P.OnAppend(peer, args')
    ensures PlainOutcome(core, peer, args', core', reply)
  {
  }

  /** A step of the full cluster never disturbs what a peer has committed. */
  lemma CommittedStable(a: P.State, a': P.State, p: nat)
    requires Inv(a) && Inv(a') && Grows(a, a') && p < |a.peers| && a.peers[p].commit <= a'.peers[p].commit
    ensures a.peers[p].commit < |a.peers[p].log| && a'.peers[p].commit < |a'.peers[p].log|
    ensures a'.peers[p].log[..a.peers[p].commit + 1] == a.peers[p].log[..a.peers[p].commit + 1]
  {
    assert PeerOk(a, p) && PeerOk(a', p);
    var r, q := a.peers[p], a'.peers[p];
    GoodLogGrows(a, a', r.log);
    DurableGrows(a, a', r.log, r.commit, r.term, r.term);
    DurablesAgree(a', r.log, r.commit, r.term, q.log, q.commit, q.term);
  }

  lemma AppendRefines(c: C.Cluster, a: P.State, to: nat, args: AppendArgs, tag: nat) returns (a': P.State)
    requires Ready(c, a, C.Append(to, args, tag))
    ensures P.Next(a, a') && Sim(C.Apply(c, C.Append(to, args, tag)), a')
  {
    var core, peer := c.nodes[to].core, a.peers[to];
    assert SimPeer(c.nodes[to], peer, |c.nodes|, to);
    assert MessageOk(a, AppendRequest(to, args, tag));
    if args.term >= core.term {
      CommittedAgreesWithArgs(a, to, args, core);
    }
    AppendRefinesPlain(core, peer, args);
    var step := P.Append(to, args, tag, T.OnAppend(core, args).1);
    assert P.Enabled(a, step);
    a' := P.Apply(a, step);
    AppendedSims(c, a, to, args, tag);
    OneNodeMoved(c, a, C.Apply(c, C.Append(to, args, tag)), a', to);
  }

  lemma AppendedSims(c: C.Cluster, a: P.State, to: nat, args: AppendArgs, tag: nat)
    requires Ready(c, a, C.Append(to, args, tag))
    requires PlainOutcome(c.nodes[to].core, a.peers[to], args,
                          T.OnAppend(c.nodes[to].core, args).0, T.OnAppend(c.nodes[to].core, args).1)
    ensures SimPeer(C.Apply(c, C.Append(to, args, tag)).nodes[to], P.OnAppend(a.peers[to], args), |c.nodes|, to)
  {
    var core, peer := c.nodes[to].core, a.peers[to];
    var reply := T.OnAppend(core, args).1;
    assert SimPeer(c.nodes[to], peer, |c.nodes|, to);
    AppendKeepsCommitted(a, to, args, tag, reply);
    T.AppendKeepsHead(core, args);
    HearsAsFollower(a, to, args, tag, reply);
    SimAfterAppend(c.nodes[to], T.OnAppend(core, args).0, peer, P.OnAppend(peer, args), |c.nodes|, to);
  }

  lemma AppendKeepsCommitted(a: P.State, to: nat, args: AppendArgs, tag: nat, reply: AppendReply)
    requires Inv(a) && P.Wellformed(a) && P.Enabled(a, P.Append(to, args, tag, reply))
    ensures var r, q := a.peers[to], P.OnAppend(a.peers[to], args);
            && r.commit < |r.log| && r.commit <= q.commit < |q.log|
            && q.log[..r.commit + 1] == r.log[..r.commit + 1]
  {
    var step := P.Append(to, args, tag, reply);
    AppendGrows(a, to, args, tag, reply);
    StepKeeps(a, step);
    CommittedStable(a, P.Apply(a, step), to);
  }

  lemma SimAfterAppend(node: C.Node, core': T.Core, peer: P.Peer, peer': P.Peer, n: nat, me: nat)
    requires SimPeer(node, peer, n, me) && SameFields(core', peer') && core'.Sized(n)
    requires core'.snapshotIndex == node.core.snapshotIndex && core'.snapshotTerm == node.core.snapshotTerm
    requires core'.lastApplied == node.core.lastApplied && core'.log[0] == node.core.log[0]
    requires peer.commit < |peer.log| && peer.commit <= peer'.commit < |peer'.log|
    requires peer'.log[..peer.commit + 1] == peer.log[..peer.commit + 1]
    requires peer'.role.Follower? || (peer' == peer && core' == node.core)
    ensures SimPeer(node.(core := core'), peer', n, me)
  {
    DeliveredKept(node, node.(core := core'), peer.log, peer'.log);
  }
}
