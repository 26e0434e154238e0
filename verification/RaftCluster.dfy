/** The cluster as the code runs it: trimmed peers, the goroutines of elections, replicators and
    appliers, and the network. `sent` only grows, so messages may be lost, delayed, reordered or
    (for requests and append replies) handled more than once; a vote call is answered at most once. */
module RaftCluster {
  import opened RaftTypes
  import opened RaftQuorum
  import opened RaftTrimmed

  /** What the applier copied under the lock and is delivering without it. */
  datatype Delivery = Idle | Delivering(lo: nat, entries: seq<Entry>, done: nat)

  /** `votes` and `awaiting` belong to the goroutines of the latest election; `applied` is what the
      service has received on applyCh, in order. */
  datatype Node = Node(core: Core, votes: nat, awaiting: set<nat>, delivery: Delivery, applied: seq<ApplyMsg>)

  datatype ApplyMsg = ApplyMsg(index: nat, command: Command)

  datatype Cluster = Cluster(nodes: seq<Node>, sent: set<Message>)

  datatype Event =
    | Campaign(p: nat)
    | Vote(to: nat, ballot: VoteArgs)
    | CountVote(voter: nat, ballot: VoteArgs, verdict: VoteReply)
    | Start(p: nat, command: Command)
    | Send(p: nat, to: nat)
    | Append(to: nat, args: AppendArgs, tag: nat)
    | CountAck(follower: nat, args: AppendArgs, tag: nat, reply: AppendReply)
    | CallFails(p: nat, to: nat, tag: nat)
    | TakeBatch(p: nat)
    | Deliver(p: nat)
    | FinishBatch(p: nat)
    | Snapshot(p: nat, index: nat)

  ghost predicate Wellformed(c: Cluster) {
    forall p | 0 <= p < |c.nodes| :: c.nodes[p].core.IndexOk() && c.nodes[p].core.Sized(|c.nodes|)
  }

  /** When an event can happen. Send and TakeBatch also ask that the slice they take is in range;
      the code would fail otherwise, and RaftTheorems.NoIndexFailure shows it always is. */
  ghost predicate Enabled(c: Cluster, e: Event)
    requires Wellformed(c)
  {
    match e
    case Campaign(p) => p < |c.nodes| && !c.nodes[p].core.role.Leader?
    case Vote(to, ballot) => to < |c.nodes| && VoteRequest(to, ballot) in c.sent
    case CountVote(voter, ballot, verdict) =>
      && ballot.candidate < |c.nodes|
      && VoteAnswer(voter, ballot, verdict) in c.sent
      && (c.nodes[ballot.candidate].core.term == ballot.term ==> voter in c.nodes[ballot.candidate].awaiting)
    case Start(p, command) => p < |c.nodes|
    case Send(p, to) =>
      && p < |c.nodes| && to < |c.nodes| && p != to
      && c.nodes[p].core.role.Leader?
      && c.nodes[p].core.snapshotIndex < c.nodes[p].core.nextIndex[to] <= c.nodes[p].core.End()
    case Append(to, args, tag) => to < |c.nodes| && AppendRequest(to, args, tag) in c.sent
    case CountAck(follower, args, tag, reply) =>
      && args.leader < |c.nodes| && follower < |c.nodes|
      && AppendAnswer(follower, args, tag, reply) in c.sent
    case CallFails(p, to, tag) => p < |c.nodes| && to < |c.nodes|
    case TakeBatch(p) =>
      && p < |c.nodes| && c.nodes[p].delivery.Idle?
      && c.nodes[p].core.lastApplied < c.nodes[p].core.commit
      && BatchStart(c.nodes[p].core) <= c.nodes[p].core.commit
    case Deliver(p) =>
      && p < |c.nodes| && c.nodes[p].delivery.Delivering?
      && c.nodes[p].delivery.done < |c.nodes[p].delivery.entries|
    case FinishBatch(p) =>
      && p < |c.nodes| && c.nodes[p].delivery.Delivering?
      && c.nodes[p].delivery.done == |c.nodes[p].delivery.entries|
    // The service snapshots only what it has applied.
    case Snapshot(p, index) => p < |c.nodes| && index <= |c.nodes[p].applied|
  }

  ghost function WithCore(c: Cluster, p: nat, core: Core): Cluster
    requires p < |c.nodes|
  {
    c.(nodes := c.nodes[p := c.nodes[p].(core := core)])
  }

  ghost function Apply(c: Cluster, e: Event): Cluster
    requires Wellformed(c) && Enabled(c, e)
  {
    var n := |c.nodes|;
    match e
    case Campaign(p) =>
      var d := Campaigning(c.nodes[p].core, p);
      c.(nodes := c.nodes[p := c.nodes[p].(core := d, votes := 1, awaiting := Others(n, p))],
         sent := c.sent + VoteRequests(n, p, BallotOf(d, p)))
    case Vote(to, ballot) =>
      var (d, verdict) := OnVoteRequest(c.nodes[to].core, ballot);
      WithCore(c, to, d).(sent := c.sent + {VoteAnswer(to, ballot, verdict)})
    case CountVote(voter, ballot, verdict) =>
      var p := ballot.candidate;
      var node := c.nodes[p];
      var (d, votes) := OnVoteReply(node.core, p, n, node.votes, ballot, verdict);
      c.(nodes := c.nodes[p := node.(core := d, votes := votes,
                                     awaiting := if node.core.term == ballot.term then node.awaiting - {voter} else node.awaiting)])
    case Start(p, command) => WithCore(c, p, Started(c.nodes[p].core, p, command))
    case Send(p, to) =>
      var d := Sent(c.nodes[p].core, to);
      WithCore(c, p, d).(sent := c.sent + {AppendRequest(to, NextArgs(c.nodes[p].core, p, to), d.sendSeq[to])})
    case Append(to, args, tag) =>
      var (d, reply) := OnAppend(c.nodes[to].core, args);
      WithCore(c, to, d).(sent := c.sent + {AppendAnswer(to, args, tag, reply)})
    case CountAck(follower, args, tag, reply) =>
      WithCore(c, args.leader, OnAppendReply(c.nodes[args.leader].core, args.leader, follower, args, tag, reply))
    case CallFails(p, to, tag) => WithCore(c, p, Landed(c.nodes[p].core, to, tag))
    case TakeBatch(p) =>
      var core := c.nodes[p].core;
      c.(nodes := c.nodes[p := c.nodes[p].(delivery := Delivering(BatchStart(core), Batch(core), 0))])
    case Deliver(p) =>
      var d := c.nodes[p].delivery;
      c.(nodes := c.nodes[p := c.nodes[p].(delivery := d.(done := d.done + 1),
                                           applied := c.nodes[p].applied + [ApplyMsg(d.lo + d.done, d.entries[d.done].command)])])
    case FinishBatch(p) =>
      var d := c.nodes[p].delivery;
      c.(nodes := c.nodes[p := c.nodes[p].(delivery := Idle, core := Applied(c.nodes[p].core, d.lo + |d.entries| - 1))])
    case Snapshot(p, index) => WithCore(c, p, Trimmed(c.nodes[p].core, index))
  }

  ghost predicate Next(c: Cluster, c': Cluster) {
    Wellformed(c) && exists e :: Enabled(c, e) && c' == Apply(c, e)
  }

  function FreshCore(n: nat): Core {
    Core(0, NO_VOTE, Follower, [SENTINEL], 0, 0, seq(n, _ => 1), seq(n, _ => 0), seq(n, _ => false), seq(n, _ => 0), 0, 0)
  }

  ghost predicate Init(c: Cluster) {
    && (forall p | 0 <= p < |c.nodes| :: c.nodes[p] == Node(FreshCore(|c.nodes|), 0, {}, Idle, []))
    && c.sent == {}
  }

  ghost predicate Stepped(run: seq<Cluster>, k: nat)
    requires k + 1 < |run|
  {
    Next(run[k], run[k + 1])
  }

  ghost predicate IsRun(run: seq<Cluster>) {
    && |run| > 0
    && Init(run[0])
    && forall k: nat {:trigger Stepped(run, k)} | k + 1 < |run| :: Stepped(run, k)
  }
}
