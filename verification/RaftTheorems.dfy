/** The guarantees of Raft for every run of the code's cluster, across any two moments of the run.
    Runs have no restarts and no InstallSnapshot; the network may do anything else. */
module RaftTheorems {
  import opened RaftTypes
  import opened RaftInvariant
  import opened RaftSafety
  import opened RaftSteps
  import opened RaftReplication
  import opened RaftRefinement
  import opened RaftBackup
  import RaftQuorum
  import P = RaftProtocol
  import T = RaftTrimmed
  import C = RaftCluster

  // ---------------------------------------------------------------- what time does not undo

  lemma StepGrows(s: P.State, step: P.Step)
    requires Inv(s) && P.Wellformed(s) && P.Enabled(s, step)
    ensures Grows(s, P.Apply(s, step))
  {
    match step
    case Campaign(p) => assert PeerOk(s, p); VotesOf(s, p); ReignsOf(s, p);
    case Vote(to, ballot) => VoteGrows(s, to, ballot);
    case CountVote(voter, ballot, verdict) =>
      if Wins(s, voter, ballot, verdict) { CrownGrows(s, voter, ballot, verdict); }
      else { CountVoteGrows(s, voter, ballot, verdict); }
    case Propose(p, command) => ProposeGrows(s, p, command);
    case Replicate(p, to, prev, count, tag) =>
    case Append(to, args, tag, reply) => AppendGrows(s, to, args, tag, reply);
    case CountAck(follower, args, tag, reply) => CountAckGrows(s, follower, args, tag, reply);
  }

  lemma OneStepGrows(run: seq<C.Cluster>, full: seq<P.State>, k: nat)
    requires Follows(run, full) && k + 1 < |full|
    ensures Grows(full[k], full[k + 1])
  {
    var s := full[k];
    assert Linked(full, k) && Inv(s);
    if full[k + 1] != s {
      var step :| P.Enabled(s, step) && full[k + 1] == P.Apply(s, step);
      StepGrows(s, step);
    }
  }

  /** From an earlier moment to a later one: terms only grow, leaders and ballots stay on record, and
      good logs and committed prefixes stay good and committed. */
  ghost predicate Persists(s: P.State, s': P.State) {
    && |s'.peers| == |s.peers|
    && (forall p | 0 <= p < |s.peers| :: s.peers[p].term <= s'.peers[p].term)
    && (forall k | k in s.ballots :: k in s'.ballots && s'.ballots[k] == s.ballots[k])
    && (forall t | t in s.reigns :: t in s'.reigns && Extends(s.reigns[t], s'.reigns[t], t))
  }

  lemma PersistsThenGrows(s: P.State, m: P.State, s': P.State)
    requires Persists(s, m) && Grows(m, s')
    ensures Persists(s, s')
  {
    forall t | t in s.reigns ensures t in s'.reigns && Extends(s.reigns[t], s'.reigns[t], t) {
      assert Extends(s.reigns[t], m.reigns[t], t) && Extends(m.reigns[t], s'.reigns[t], t);
      assert s'.reigns[t].log[..|s.reigns[t].log|] == m.reigns[t].log[..|s.reigns[t].log|];
    }
  }

  lemma {:induction false} Persistence(run: seq<C.Cluster>, full: seq<P.State>, j: nat, k: nat)
    requires Follows(run, full) && j <= k < |full|
    ensures Persists(full[j], full[k])
    decreases k
  {
    if j < k {
      Persistence(run, full, j, k - 1);
      OneStepGrows(run, full, k - 1);
      PersistsThenGrows(full[j], full[k - 1], full[k]);
    }
  }

  lemma {:induction false} DurablePersists(run: seq<C.Cluster>, full: seq<P.State>, j: nat, k: nat,
                                           l: seq<Entry>, commit: nat, bound: nat)
    requires Follows(run, full) && j <= k < |full|
    requires GoodLog(full[j], l) && Durable(full[j], l, commit, bound)
    ensures GoodLog(full[k], l) && Durable(full[k], l, commit, bound)
    decreases k
  {
    if j < k {
      DurablePersists(run, full, j, k - 1, l, commit, bound);
      OneStepGrows(run, full, k - 1);
      GoodLogGrows(full[k - 1], full[k], l);
      DurableGrows(full[k - 1], full[k], l, commit, bound, bound);
    }
  }

  /** The entry a trimmed peer keeps at an absolute index. */
  ghost predicate HasEntry(core: T.Core, i: nat, e: Entry) {
    core.snapshotIndex <= i < core.End() && core.log[i - core.snapshotIndex] == e
  }

  lemma FullEntry(run: seq<C.Cluster>, full: seq<P.State>, k: nat, p: nat)
    requires Follows(run, full) && k < |run| && p < |run[k].nodes|
    ensures |full[k].peers| == |run[k].nodes|
    ensures SimPeer(run[k].nodes[p], full[k].peers[p], |run[k].nodes|, p) && PeerOk(full[k], p)
    ensures forall i: nat, e {:trigger HasEntry(run[k].nodes[p].core, i, e)} |
              HasEntry(run[k].nodes[p].core, i, e) :: i < |full[k].peers[p].log| && full[k].peers[p].log[i] == e
  {
    assert Sim(run[k], full[k]) && Inv(full[k]);
    var core, peer := run[k].nodes[p].core, full[k].peers[p];
    assert SimPeer(run[k].nodes[p], peer, |run[k].nodes|, p);
    assert PeerOk(full[k], p);
    forall i: nat, e {:trigger HasEntry(core, i, e)} | HasEntry(core, i, e)
      ensures i < |peer.log| && peer.log[i] == e
    {
      EntryAt(core, peer, i - core.snapshotIndex);
    }
  }

  lemma SameCluster(run: seq<C.Cluster>, full: seq<P.State>, j: nat, k: nat)
    requires Follows(run, full) && j < |run| && k < |run|
    ensures |run[j].nodes| == |run[k].nodes| == |full[j].peers| == |full[k].peers|
  {
    assert Sim(run[j], full[j]) && Sim(run[k], full[k]);
    if j <= k { Persistence(run, full, j, k); } else { Persistence(run, full, k, j); }
  }

  // ---------------------------------------------------------------- elections

  /** Terms never decrease. */
  lemma TermsNeverDecrease(run: seq<C.Cluster>, j: nat, k: nat, p: nat)
    requires C.IsRun(run) && j <= k < |run| && p < |run[j].nodes| && p < |run[k].nodes|
    ensures run[j].nodes[p].core.term <= run[k].nodes[p].core.term
  {
    var full := RunRefines(run);
    Persistence(run, full, j, k);
    FullEntry(run, full, j, p);
    FullEntry(run, full, k, p);
  }

  /** A peer grants its vote to at most one candidate per term, however often it is asked. */
  lemma OneVotePerTerm(run: seq<C.Cluster>, k: nat, voter: nat, a: VoteArgs, va: VoteReply, b: VoteArgs, vb: VoteReply)
    requires C.IsRun(run) && k < |run|
    requires VoteAnswer(voter, a, va) in run[k].sent && VoteAnswer(voter, b, vb) in run[k].sent
    requires va.granted && vb.granted && a.term == b.term
    ensures a.candidate == b.candidate
  {
    var full := RunRefines(run);
    assert Sim(run[k], full[k]) && Inv(full[k]);
    assert MessageOk(full[k], VoteAnswer(voter, a, va)) && MessageOk(full[k], VoteAnswer(voter, b, vb));
  }

  /** Election safety: no two peers are ever leader in the same term, at whatever moments. */
  lemma ElectionSafety(run: seq<C.Cluster>, j: nat, p: nat, k: nat, q: nat)
    requires C.IsRun(run) && j < |run| && k < |run| && p < |run[j].nodes| && q < |run[k].nodes|
    requires run[j].nodes[p].core.role.Leader? && run[k].nodes[q].core.role.Leader?
    requires run[j].nodes[p].core.term == run[k].nodes[q].core.term
    ensures p == q
  {
    var full := RunRefines(run);
    FullEntry(run, full, j, p);
    FullEntry(run, full, k, q);
    var t := run[j].nodes[p].core.term;
    if j <= k {
      Persistence(run, full, j, k);
      assert Extends(full[j].reigns[t], full[k].reigns[t], t);
    } else {
      Persistence(run, full, k, j);
      assert Extends(full[k].reigns[t], full[j].reigns[t], t);
    }
  }

  // ---------------------------------------------------------------- logs

  /** A stretch of entries somewhere in the system, starting at an absolute index. */
  datatype Fragment = Fragment(start: nat, entries: seq<Entry>)

  /** The log of some peer, or the entries of some AppendEntries call that was ever sent. */
  ghost predicate Present(c: C.Cluster, f: Fragment) {
    || (exists p: nat :: p < |c.nodes| && f == Fragment(c.nodes[p].core.snapshotIndex, c.nodes[p].core.log))
    || (exists to, args, tag :: AppendRequest(to, args, tag) in c.sent && f == Fragment(args.prev + 1, args.entries))
  }

  ghost predicate At(f: Fragment, i: nat) {
    f.start <= i < f.start + |f.entries|
  }

  ghost function Entry(f: Fragment, i: nat): Entry
    requires At(f, i)
  {
    f.entries[i - f.start]
  }

  /** Every fragment lies inside a good full log. */
  lemma WholeOf(run: seq<C.Cluster>, full: seq<P.State>, k: nat, f: Fragment) returns (l: seq<Entry>)
    requires Follows(run, full) && k < |run| && Present(run[k], f)
    ensures GoodLog(full[k], l)
    ensures forall i: nat | At(f, i) :: i < |l| && l[i] == Entry(f, i)
  {
    var c, s := run[k], full[k];
    assert Sim(c, s) && Inv(s);
    if p: nat :| p < |c.nodes| && f == Fragment(c.nodes[p].core.snapshotIndex, c.nodes[p].core.log) {
      FullEntry(run, full, k, p);
      l := s.peers[p].log;
      forall i: nat | At(f, i) ensures i < |l| && l[i] == Entry(f, i) {
        assert HasEntry(c.nodes[p].core, i, Entry(f, i));
      }
    } else {
      var to, args, tag :| AppendRequest(to, args, tag) in c.sent && f == Fragment(args.prev + 1, args.entries);
      assert MessageOk(s, AppendRequest(to, args, tag));
      assert ReignOk(s, args.term);
      l := s.reigns[args.term].log;
    }
  }

  /** Log matching: if two peers' logs or two calls' entry lists hold the same term at the same
      absolute index, they agree at every earlier index both have. */
  lemma LogMatching(run: seq<C.Cluster>, k: nat, f: Fragment, g: Fragment, i: nat, h: nat)
    requires C.IsRun(run) && k < |run| && Present(run[k], f) && Present(run[k], g)
    requires At(f, i) && At(g, i) && Entry(f, i).term == Entry(g, i).term
    requires h <= i && At(f, h) && At(g, h)
    ensures Entry(f, h) == Entry(g, h)
  {
    var full := RunRefines(run);
    var a := WholeOf(run, full, k, f);
    var b := WholeOf(run, full, k, g);
    LogsMatch(full[k], a, b, i);
    assert a[..i + 1][h] == b[..i + 1][h];
  }

  // ---------------------------------------------------------------- commitment

  lemma CommittedAgreeLater(run: seq<C.Cluster>, full: seq<P.State>, j: nat, p: nat, k: nat, q: nat, i: nat)
    requires Follows(run, full) && j <= k < |run| && p < |full[j].peers| && q < |full[k].peers|
    requires i <= full[j].peers[p].commit && i <= full[k].peers[q].commit
    ensures i < |full[j].peers[p].log| && i < |full[k].peers[q].log|
    ensures full[j].peers[p].log[..i + 1] == full[k].peers[q].log[..i + 1]
  {
    var s := full[k];
    assert Inv(full[j]) && Inv(s);
    assert PeerOk(full[j], p) && PeerOk(s, q);
    var a, b := full[j].peers[p], s.peers[q];
    DurablePersists(run, full, j, k, a.log, a.commit, a.term);
    DurableShorter(s, a.log, a.commit, i, a.term);
    DurablesAgree(s, a.log, i, a.term, b.log, b.commit, b.term);
  }

  lemma CommittedAgreeAnytime(run: seq<C.Cluster>, full: seq<P.State>, j: nat, p: nat, k: nat, q: nat, i: nat)
    requires Follows(run, full) && j < |run| && k < |run| && p < |full[j].peers| && q < |full[k].peers|
    requires i <= full[j].peers[p].commit && i <= full[k].peers[q].commit
    ensures i < |full[j].peers[p].log| && i < |full[k].peers[q].log|
    ensures full[j].peers[p].log[i] == full[k].peers[q].log[i]
  {
    if j <= k {
      CommittedAgreeLater(run, full, j, p, k, q, i);
    } else {
      CommittedAgreeLater(run, full, k, q, j, p, i);
    }
    assert full[j].peers[p].log[..i + 1][i] == full[k].peers[q].log[..i + 1][i];
  }

  /** State machine safety: what one peer has committed at index i at one moment and another at any
      other moment is the same entry. */
  lemma StateMachineSafety(run: seq<C.Cluster>, j: nat, p: nat, k: nat, q: nat, i: nat, e: Entry, e': Entry)
    requires C.IsRun(run) && j < |run| && k < |run| && p < |run[j].nodes| && q < |run[k].nodes|
    requires i <= run[j].nodes[p].core.commit && i <= run[k].nodes[q].core.commit
    requires HasEntry(run[j].nodes[p].core, i, e) && HasEntry(run[k].nodes[q].core, i, e')
    ensures e == e'
  {
    var full := RunRefines(run);
    FullEntry(run, full, j, p);
    FullEntry(run, full, k, q);
    SameCluster(run, full, j, k);
    CommittedAgreeAnytime(run, full, j, p, k, q, i);
  }

  lemma CommitGrows(c: C.Cluster, e: C.Event, p: nat)
    requires C.Wellformed(c) && C.Enabled(c, e) && p < |c.nodes|
    ensures |C.Apply(c, e).nodes| == |c.nodes|
    ensures c.nodes[p].core.commit <= C.Apply(c, e).nodes[p].core.commit
  {
  }

  /** The commit index of a peer never decreases. */
  lemma {:induction false} CommitNeverDecreases(run: seq<C.Cluster>, j: nat, k: nat, p: nat)
    requires C.IsRun(run) && j <= k < |run| && p < |run[j].nodes|
    ensures p < |run[k].nodes| && run[j].nodes[p].core.commit <= run[k].nodes[p].core.commit
    decreases k
  {
    if j < k {
      CommitNeverDecreases(run, j, k - 1, p);
      assert C.Stepped(run, k - 1);
      var e :| C.Enabled(run[k - 1], e) && run[k] == C.Apply(run[k - 1], e);
      CommitGrows(run[k - 1], e, p);
    }
  }

  /** Committed entries are never lost: what a peer has committed at one moment is still below its commit
      index at every later one, and its log still holds the same entry there unless a snapshot covers it. */
  lemma CommittedIsKept(run: seq<C.Cluster>, j: nat, k: nat, p: nat, i: nat, e: Entry)
    requires C.IsRun(run) && j <= k < |run| && p < |run[j].nodes|
    requires i <= run[j].nodes[p].core.commit && HasEntry(run[j].nodes[p].core, i, e)
    ensures p < |run[k].nodes|
    ensures var core := run[k].nodes[p].core;
            && i <= core.commit && i < core.End()
            && (i >= core.snapshotIndex ==> HasEntry(core, i, e))
  {
    CommitNeverDecreases(run, j, k, p);
    NoIndexFailure(run, k, p);
    var core := run[k].nodes[p].core;
    if i >= core.snapshotIndex {
      var now := core.log[i - core.snapshotIndex];
      assert HasEntry(core, i, now);
      StateMachineSafety(run, j, p, k, p, i, e, now);
    }
  }

  /** The snapshot of any peer at any moment, installed at any peer at any moment, keeps the installing
      peer's index invariant. */
  lemma InstallKeepsIndices(run: seq<C.Cluster>, j: nat, p: nat, k: nat, q: nat)
    requires C.IsRun(run) && j < |run| && k < |run| && p < |run[j].nodes| && q < |run[k].nodes|
    ensures var from := run[k].nodes[q].core;
            T.Installed(run[j].nodes[p].core, from.snapshotIndex, from.snapshotTerm).IndexOk()
  {
    NoIndexFailure(run, j, p);
    NoIndexFailure(run, k, q);
    var core, from := run[j].nodes[p].core, run[k].nodes[q].core;
    var index := from.snapshotIndex;
    if core.snapshotIndex < index < core.commit {
      assert HasEntry(core, index, core.log[index - core.snapshotIndex]) && HasEntry(from, index, from.log[0]);
      StateMachineSafety(run, j, p, k, q, index, core.log[index - core.snapshotIndex], from.log[0]);
    }
    T.InstallIndices(core, index, from.snapshotTerm);
  }

  /** The commands two services have received agree as far as both have any, at any two moments:
      trimming cannot hide a disagreement. */
  lemma AppliedAgree(run: seq<C.Cluster>, j: nat, p: nat, k: nat, q: nat, i: nat)
    requires C.IsRun(run) && j < |run| && k < |run| && p < |run[j].nodes| && q < |run[k].nodes|
    requires i < |run[j].nodes[p].applied| && i < |run[k].nodes[q].applied|
    ensures run[j].nodes[p].applied[i] == run[k].nodes[q].applied[i]
  {
    var full := RunRefines(run);
    FullEntry(run, full, j, p);
    FullEntry(run, full, k, q);
    SameCluster(run, full, j, k);
    CommittedAgreeAnytime(run, full, j, p, k, q, i + 1);
  }

  /** Every command a service has ever received is the entry that any peer, at any moment, has
      committed at its index, even where the receiving peer has trimmed its own log. */
  lemma AppliedIsCommitted(run: seq<C.Cluster>, j: nat, p: nat, k: nat, q: nat, i: nat, e: Entry)
    requires C.IsRun(run) && j < |run| && k < |run| && p < |run[j].nodes| && q < |run[k].nodes|
    requires i < |run[j].nodes[p].applied|
    requires i + 1 <= run[k].nodes[q].core.commit && HasEntry(run[k].nodes[q].core, i + 1, e)
    ensures run[j].nodes[p].applied[i] == C.ApplyMsg(i + 1, e.command)
  {
    var full := RunRefines(run);
    FullEntry(run, full, j, p);
    FullEntry(run, full, k, q);
    SameCluster(run, full, j, k);
    CommittedAgreeAnytime(run, full, j, p, k, q, i + 1);
  }

  /** Apply order: the applier delivers indices 1, 2, 3, ... with no gap or repeat, never past the
      commit index, and each command it has delivered and not yet trimmed is the one in the log. */
  lemma ApplyOrder(run: seq<C.Cluster>, k: nat, p: nat)
    requires C.IsRun(run) && k < |run| && p < |run[k].nodes|
    ensures var node := run[k].nodes[p];
            && node.core.snapshotIndex <= |node.applied| <= node.core.commit < node.core.End()
            && forall i | 0 <= i < |node.applied| ::
                 && node.applied[i].index == i + 1
                 && (i + 1 >= node.core.snapshotIndex ==>
                       node.applied[i].command == node.core.log[i + 1 - node.core.snapshotIndex].command)
  {
    var full := RunRefines(run);
    FullEntry(run, full, k, p);
    var node := run[k].nodes[p];
    forall i | 0 <= i < |node.applied| && i + 1 >= node.core.snapshotIndex
      ensures node.applied[i].command == node.core.log[i + 1 - node.core.snapshotIndex].command
    {
      EntryAt(node.core, full[k].peers[p], i + 1 - node.core.snapshotIndex);
    }
  }

  /** The batch the applier takes continues what the service has received and ends at the commit index. */
  lemma BatchEndsAtCommit(run: seq<C.Cluster>, k: nat, p: nat)
    requires C.IsRun(run) && k < |run| && C.Wellformed(run[k]) && C.Enabled(run[k], C.TakeBatch(p))
    ensures var node, node' := run[k].nodes[p], C.Apply(run[k], C.TakeBatch(p)).nodes[p];
      && node'.delivery.Delivering? && node'.delivery.done == 0
      && node'.delivery.lo == |node.applied| + 1
      && node'.delivery.lo + |node'.delivery.entries| - 1 == node.core.commit
      && forall j | 0 <= j < |node'.delivery.entries| ::
           HasEntry(node.core, node'.delivery.lo + j, node'.delivery.entries[j])
  {
    var full := RunRefines(run);
    FullEntry(run, full, k, p);
    NoIndexFailure(run, k, p);
  }

  /** Leader completeness: once a leader of term t has committed through index i, the log of every
      leader of a later term holds that entry, whenever the two are looked at. */
  lemma LeaderCompletenessOverRuns(run: seq<C.Cluster>, j: nat, p: nat, k: nat, q: nat, i: nat, e: Entry)
    requires C.IsRun(run) && j < |run| && k < |run| && p < |run[j].nodes| && q < |run[k].nodes|
    requires run[j].nodes[p].core.role.Leader? && i <= run[j].nodes[p].core.commit
    requires HasEntry(run[j].nodes[p].core, i, e)
    requires run[k].nodes[q].core.role.Leader? && run[k].nodes[q].core.term > run[j].nodes[p].core.term
    ensures i < run[k].nodes[q].core.End()
    ensures i >= run[k].nodes[q].core.snapshotIndex ==> HasEntry(run[k].nodes[q].core, i, e)
  {
    var full := RunRefines(run);
    FullEntry(run, full, j, p);
    FullEntry(run, full, k, q);
    LaterLeaderHolds(run, full, j, p, k, q, i);
    var core := run[k].nodes[q].core;
    if i >= core.snapshotIndex {
      EntryAt(core, full[k].peers[q], i - core.snapshotIndex);
    }
  }

  lemma LaterLeaderHolds(run: seq<C.Cluster>, full: seq<P.State>, j: nat, p: nat, k: nat, q: nat, i: nat)
    requires Follows(run, full) && j < |run| && k < |run| && p < |full[j].peers| && q < |full[k].peers|
    requires i <= full[j].peers[p].commit && i < |full[j].peers[p].log|
    requires full[k].peers[q].role.Leader? && full[k].peers[q].term > full[j].peers[p].term
    ensures i < |full[k].peers[q].log| && full[k].peers[q].log[i] == full[j].peers[p].log[i]
  {
    var m := if j <= k then k else j;
    var a, b := full[j].peers[p], full[k].peers[q];
    assert Inv(full[j]) && Inv(full[k]) && Inv(full[m]);
    assert PeerOk(full[j], p) && PeerOk(full[k], q);
    Persistence(run, full, k, m);
    assert Extends(full[k].reigns[b.term], full[m].reigns[b.term], b.term);
    DurablePersists(run, full, j, m, a.log, a.commit, a.term);
    DurableInReign(full[m], a.log, a.commit, a.term, b.term);
    var lead := full[m].reigns[b.term].log;
    assert lead[..a.commit + 1][i] == a.log[..a.commit + 1][i];
    assert a.log[i].term <= LastTerm(a.log);
    assert lead[..|b.log|] == b.log;
  }

  // ---------------------------------------------------------------- fast backup

  /** In every state of every run a leader keeps matchIndex < nextIndex <= last index + 1 for every
      other peer. */
  lemma LeaderIndices(run: seq<C.Cluster>, k: nat, p: nat, q: nat)
    requires C.IsRun(run) && k < |run| && p < |run[k].nodes| && q < |run[k].nodes| && q != p
    requires run[k].nodes[p].core.role.Leader?
    ensures var core := run[k].nodes[p].core;
            && core.Sized(|run[k].nodes|)
            && core.matchIndex[q] < core.nextIndex[q] <= core.End()
  {
    var full := RunRefines(run);
    FullEntry(run, full, k, p);
  }

  /** A rejection that is not stale strictly lowers nextIndex unless it already equals matchIndex + 1. */
  lemma FastBackup(run: seq<C.Cluster>, k: nat, follower: nat, args: AppendArgs, tag: nat, reply: AppendReply)
    requires C.IsRun(run) && k < |run| && C.Wellformed(run[k])
    requires C.Enabled(run[k], C.CountAck(follower, args, tag, reply)) && follower != args.leader
    requires run[k].nodes[args.leader].core.role.Leader?
    ensures var before := run[k].nodes[args.leader].core;
            var after := C.Apply(run[k], C.CountAck(follower, args, tag, reply)).nodes[args.leader].core;
            before.term == args.term && !reply.success && reply.term <= before.term
            && args.prev + 1 == before.nextIndex[follower] ==>
              if before.nextIndex[follower] == before.matchIndex[follower] + 1
              then after.nextIndex == before.nextIndex
              else before.matchIndex[follower] < after.nextIndex[follower] < before.nextIndex[follower]
  {
    var full := RunRefines(run);
    assert Sim(run[k], full[k]) && Inv(full[k]);
    InvIsWellformed(full[k]);
    FullEntry(run, full, k, args.leader);
    var core := run[k].nodes[args.leader].core;
    if core.term == args.term && !reply.success && reply.term <= core.term && args.prev + 1 == core.nextIndex[follower] {
      BackupProgress(run[k], full[k], follower, args, tag, reply);
    }
  }

  /** No slice or lookup the code makes on a trimmed log ever leaves it, in any run: the
      preconditions of the Raft object's methods hold whenever the cluster calls them. */
  lemma NoIndexFailure(run: seq<C.Cluster>, k: nat, p: nat)
    requires C.IsRun(run) && k < |run| && p < |run[k].nodes|
    ensures C.Wellformed(run[k])
    ensures var node := run[k].nodes[p];
            && (node.core.role.Leader? ==>
                  forall to | 0 <= to < |run[k].nodes| && to != p :: node.core.nextIndex[to] <= node.core.End())
            && (node.delivery.Idle? && node.core.lastApplied < node.core.commit ==>
                  node.core.lastApplied + 1 == T.BatchStart(node.core) <= node.core.commit < node.core.End())
  {
    var full := RunRefines(run);
    assert Sim(run[k], full[k]) && Inv(full[k]);
    SimIsWellformed(run[k], full[k]);
    FullEntry(run, full, k, p);
  }

  lemma NoCommitFailure(run: seq<C.Cluster>, k: nat, follower: nat, args: AppendArgs, tag: nat, reply: AppendReply)
    requires C.IsRun(run) && k < |run| && C.Wellformed(run[k])
    requires C.Enabled(run[k], C.CountAck(follower, args, tag, reply))
    requires run[k].nodes[args.leader].core.role.Leader? && run[k].nodes[args.leader].core.term == args.term
    ensures var core := run[k].nodes[args.leader].core;
            RaftQuorum.MajorityIndex(core.matchIndex[follower := args.prev + |args.entries|][args.leader := core.End() - 1])
              < core.End()
  {
    var full := RunRefines(run);
    assert Sim(run[k], full[k]) && Inv(full[k]);
    InvIsWellformed(full[k]);
    MatchesInRange(run[k], full[k], follower, args, tag, reply);
  }
}
