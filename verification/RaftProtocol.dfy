/** The Raft cluster over untrimmed logs: handlers, one step per critical section, and runs.
    `sent` only grows, so a message may be lost, delayed, reordered or handled twice. */
module RaftProtocol {
  import opened RaftTypes
  import opened RaftQuorum

  /** One peer with its whole log. `granted` and `awaiting` belong to its latest election:
      who has granted the vote, and which RequestVote calls have not been answered yet. */
  datatype Peer = Peer(term: nat, votedFor: int, role: Role, log: seq<Entry>, commit: nat,
                       matched: seq<nat>, granted: set<nat>, awaiting: set<nat>)

  /** History of one elected leader: who voted, the log it was elected with
      (`log[..base]`), and the log as it has grown since. */
  datatype Reign = Reign(leader: nat, voters: set<nat>, base: nat, log: seq<Entry>)

  /** History variables: `ballots` maps (term, voter) to the candidate voted for, `bids` maps
      (term, candidate) to the log campaigned with, `acks` maps (term, peer) to the highest
      index that peer has acknowledged in that term. */
  datatype State = State(peers: seq<Peer>, sent: set<Message>,
                         ballots: map<(nat, nat), nat>,
                         bids: map<(nat, nat), seq<Entry>>,
                         reigns: map<nat, Reign>,
                         acks: map<(nat, nat), nat>)

  // ---------------------------------------------------------------- handlers

  function StepDown(p: Peer, term: nat): Peer {
    if term > p.term then p.(term := term, votedFor := NO_VOTE, role := Follower)
    else p.(role := Follower)
  }

  function Campaigning(p: Peer, me: nat, n: nat): Peer {
    p.(role := Candidate, term := p.term + 1, votedFor := me, granted := {me}, awaiting := Others(n, me))
  }

  function OnVoteRequest(p: Peer, args: VoteArgs): (Peer, VoteReply)
    requires |p.log| > 0
  {
    if args.term < p.term then (p, VoteReply(p.term, false))
    else
      var q := if args.term > p.term then StepDown(p, args.term) else p;
      if (q.votedFor == NO_VOTE || q.votedFor == args.candidate)
         && UpToDate(args, LastTerm(q.log), |q.log| - 1)
      then (q.(votedFor := args.candidate), VoteReply(q.term, true))
      else (q, VoteReply(q.term, false))
  }

  function Crowned(p: Peer, me: nat, n: nat): Peer
    requires |p.log| > 0 && me < n
  {
    p.(role := Leader, matched := seq(n, i => if i == me then |p.log| - 1 else 0))
  }

  function OnVoteAnswer(p: Peer, me: nat, n: nat, voter: nat, args: VoteArgs, reply: VoteReply): Peer
    requires |p.log| > 0 && me < n
  {
    if p.term != args.term || !p.role.Candidate? then p
    else
      var q := p.(awaiting := p.awaiting - {voter});
      if reply.term > q.term then StepDown(q, reply.term)
      else
        var r := if reply.granted then q.(granted := q.granted + {voter}) else q;
        if |r.granted| > n / 2 then Crowned(r, me, n) else r
  }

  function Proposed(p: Peer, me: nat, command: Command): Peer
    requires me < |p.matched|
  {
    p.(log := p.log + [Entry(p.term, command)], matched := p.matched[me := |p.log|])
  }

  function Heard(p: Peer, term: nat): Peer {
    if term > p.term || p.role.Candidate? then StepDown(p, term) else p
  }

  predicate Accepts(p: Peer, args: AppendArgs) {
    args.term >= p.term && args.prev < |p.log| && p.log[args.prev].term == args.prevTerm
  }

  function NewCommit(commit: nat, args: AppendArgs): nat {
    Max(commit, Min(args.leaderCommit, args.prev + |args.entries|))
  }

  function OnAppend(p: Peer, args: AppendArgs): Peer {
    if args.term < p.term then p
    else if !Accepts(p, args) then Heard(p, args.term)
    else Heard(p, args.term).(log := Merge(p.log, args.prev, args.entries), commit := NewCommit(p.commit, args))
  }

  /** The replies a handler may give. How far back `conflictIndex` reaches is left open. */
  predicate AnswersAppend(p: Peer, args: AppendArgs, reply: AppendReply) {
    && reply.term == (if args.term < p.term then p.term else args.term)
    && reply.success == Accepts(p, args)
    && (!reply.success && args.term >= p.term ==>
          if args.prev >= |p.log| then reply.conflictLen == |p.log|
          else
            && reply.conflictLen == NO_HINT
            && reply.conflictTerm == p.log[args.prev].term
            && 0 <= reply.conflictIndex <= args.prev)
  }

  function Committing(p: Peer, me: nat): Peer
    requires me < |p.matched| && |p.log| > 0
  {
    var i := MajorityIndex(p.matched[me := |p.log| - 1]);
    if p.commit < i < |p.log| && p.log[i].term == p.term then p.(commit := i) else p
  }

  function OnAppendAnswer(p: Peer, me: nat, follower: nat, args: AppendArgs, reply: AppendReply): Peer
    requires me < |p.matched| && follower < |p.matched| && |p.log| > 0
  {
    if !p.role.Leader? || p.term != args.term then p
    else if reply.term > p.term then StepDown(p, reply.term)
    else if reply.success && args.prev + |args.entries| > p.matched[follower] then
      Committing(p.(matched := p.matched[follower := args.prev + |args.entries|]), me)
    else p
  }

  // ---------------------------------------------------------------- steps

  datatype Step =
    | Campaign(p: nat)
    | Vote(to: nat, ballot: VoteArgs)
    | CountVote(voter: nat, ballot: VoteArgs, verdict: VoteReply)
    | Propose(p: nat, command: Command)
    | Replicate(p: nat, to: nat, prev: nat, count: nat, tag: nat)
    | Append(to: nat, args: AppendArgs, tag: nat, reply: AppendReply)
    | CountAck(follower: nat, args: AppendArgs, tag: nat, reply: AppendReply)

  ghost predicate Wellformed(s: State) {
    forall p | 0 <= p < |s.peers| :: |s.peers[p].log| > 0 && |s.peers[p].matched| == |s.peers|
  }

  ghost predicate Enabled(s: State, step: Step)
    requires Wellformed(s)
  {
    match step
    case Campaign(p) => p < |s.peers| && !s.peers[p].role.Leader?
    case Vote(to, ballot) => to < |s.peers| && VoteRequest(to, ballot) in s.sent
    case CountVote(voter, ballot, verdict) =>
      && ballot.candidate < |s.peers|
      && VoteAnswer(voter, ballot, verdict) in s.sent
      && (s.peers[ballot.candidate].term == ballot.term ==> voter in s.peers[ballot.candidate].awaiting)
    case Propose(p, command) => p < |s.peers| && s.peers[p].role.Leader?
    case Replicate(p, to, prev, count, tag) =>
      && p < |s.peers| && to < |s.peers| && p != to
      && s.peers[p].role.Leader?
      && prev + count < |s.peers[p].log|
    case Append(to, args, tag, reply) =>
      && to < |s.peers|
      && AppendRequest(to, args, tag) in s.sent
      && AnswersAppend(s.peers[to], args, reply)
    case CountAck(follower, args, tag, reply) =>
      && args.leader < |s.peers| && follower < |s.peers|
      && AppendAnswer(follower, args, tag, reply) in s.sent
  }

  /** The AppendEntries arguments a leader builds from its log. */
  function AppendFrom(p: Peer, me: nat, prev: nat, count: nat): AppendArgs
    requires prev + count < |p.log|
  {
    AppendArgs(p.term, me, prev, p.log[prev].term, p.log[prev + 1..prev + 1 + count], p.commit)
  }

  ghost function Raised(acks: map<(nat, nat), nat>, key: (nat, nat), index: nat): map<(nat, nat), nat> {
    acks[key := if key in acks then Max(acks[key], index) else index]
  }

  ghost function Apply(s: State, step: Step): State
    requires Wellformed(s) && Enabled(s, step)
  {
    match step
    case Campaign(p) =>
      var q := Campaigning(s.peers[p], p, |s.peers|);
      s.(peers := s.peers[p := q],
         sent := s.sent + VoteRequests(|s.peers|, p, VoteArgs(q.term, p, |q.log| - 1, LastTerm(q.log))),
         ballots := s.ballots[(q.term, p) := p],
         bids := s.bids[(q.term, p) := q.log])
    case Vote(to, ballot) =>
      var (q, verdict) := OnVoteRequest(s.peers[to], ballot);
      s.(peers := s.peers[to := q],
         sent := s.sent + {VoteAnswer(to, ballot, verdict)},
         ballots := if verdict.granted then s.ballots[(ballot.term, to) := ballot.candidate] else s.ballots)
    case CountVote(voter, ballot, verdict) =>
      var p := ballot.candidate;
      var q := OnVoteAnswer(s.peers[p], p, |s.peers|, voter, ballot, verdict);
      if q.role.Leader? && !s.peers[p].role.Leader? then
        s.(peers := s.peers[p := q],
           reigns := s.reigns[q.term := Reign(p, q.granted, |q.log|, q.log)],
           acks := Raised(s.acks, (q.term, p), |q.log| - 1))
      else s.(peers := s.peers[p := q])
    case Propose(p, command) =>
      var q := Proposed(s.peers[p], p, command);
      if q.term in s.reigns then
        s.(peers := s.peers[p := q],
           reigns := s.reigns[q.term := s.reigns[q.term].(log := q.log)],
           acks := Raised(s.acks, (q.term, p), |q.log| - 1))
      else s
    case Replicate(p, to, prev, count, tag) =>
      s.(sent := s.sent + {AppendRequest(to, AppendFrom(s.peers[p], p, prev, count), tag)})
    case Append(to, args, tag, reply) =>
      s.(peers := s.peers[to := OnAppend(s.peers[to], args)],
         sent := s.sent + {AppendAnswer(to, args, tag, reply)},
         acks := if reply.success then Raised(s.acks, (args.term, to), args.prev + |args.entries|) else s.acks)
    case CountAck(follower, args, tag, reply) =>
      s.(peers := s.peers[args.leader := OnAppendAnswer(s.peers[args.leader], args.leader, follower, args, reply)])
  }

  ghost predicate Next(s: State, s': State) {
    Wellformed(s) && exists step :: Enabled(s, step) && s' == Apply(s, step)
  }

  function Fresh(n: nat): Peer {
    Peer(0, NO_VOTE, Follower, [SENTINEL], 0, seq(n, _ => 0), {}, {})
  }

  /** A cluster of `n` peers as Make leaves them, before any message. Term 0 has no leader; its
      reign stands for the sentinel every log starts with. */
  ghost predicate Init(s: State) {
    && (forall p | 0 <= p < |s.peers| :: s.peers[p] == Fresh(|s.peers|))
    && s.sent == {} && s.ballots == map[] && s.bids == map[] && s.acks == map[]
    && s.reigns == map[0 := Reign(0, {}, 1, [SENTINEL])]
  }

  ghost predicate Stepped(run: seq<State>, k: nat)
    requires k + 1 < |run|
  {
    Next(run[k], run[k + 1])
  }

  ghost predicate IsRun(run: seq<State>) {
    && |run| > 0
    && Init(run[0])
    && forall k: nat {:trigger Stepped(run, k)} | k + 1 < |run| :: Stepped(run, k)
  }
}
