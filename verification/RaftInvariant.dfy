/** The inductive invariant of the cluster, one family per kind of object, and what every step
    preserves about history. */
module RaftInvariant {
  import opened RaftTypes
  import opened RaftQuorum
  import opened RaftProtocol

  // ---------------------------------------------------------------- vocabulary

  ghost predicate Ordered(l: seq<Entry>) {
    forall i, j | 0 <= i <= j < |l| :: l[i].term <= l[j].term
  }

  /** Entry i of `l` was created by the leader of its term, and everything before it is what that
      leader had before it. */
  ghost predicate Grounded(s: State, l: seq<Entry>, i: nat)
    requires i < |l|
  {
    var t := l[i].term;
    t in s.reigns && i < |s.reigns[t].log| && l[..i + 1] == s.reigns[t].log[..i + 1]
  }

  ghost predicate GoodLog(s: State, l: seq<Entry>) {
    && |l| > 0 && l[0] == SENTINEL
    && Ordered(l)
    && forall i: nat | i < |l| :: Grounded(s, l, i)
  }

  /** Peer `v` acknowledged in term `t` an entry created in that very term, at index `i`. */
  ghost predicate AckedOwn(s: State, t: nat, v: nat, i: nat) {
    && t in s.reigns && i < |s.reigns[t].log| && s.reigns[t].log[i].term == t
    && (t, v) in s.acks && i <= s.acks[(t, v)]
  }

  /** `l` holds the leader of term t's entry i and everything before it. */
  ghost predicate Holds(s: State, l: seq<Entry>, t: nat, i: nat)
    requires t in s.reigns && i < |s.reigns[t].log|
  {
    i < |l| && l[..i + 1] == s.reigns[t].log[..i + 1]
  }

  /** Every leader elected strictly between t and u holds entry i of term t. */
  ghost predicate Passed(s: State, t: nat, i: nat, u: nat)
    requires t in s.reigns && i < |s.reigns[t].log|
  {
    forall x {:trigger s.reigns[x]} | t < x < u && x in s.reigns :: Holds(s, s.reigns[x].log, t, i)
  }

  ghost function Ackers(s: State, t: nat, i: nat): set<nat> {
    set q: nat | q < |s.peers| && (t, q) in s.acks && i <= s.acks[(t, q)]
  }

  /** Entry i of term t is on a commit quorum. */
  ghost predicate Chosen(s: State, t: nat, i: nat) {
    && t in s.reigns && i < |s.reigns[t].log| && s.reigns[t].log[i].term == t
    && |Ackers(s, t, i)| >= |s.peers| - |s.peers| / 2
  }

  ghost predicate ChosenPrefix(s: State, l: seq<Entry>, k: nat, t: nat, i: nat)
    requires k < |l|
  {
    Chosen(s, t, i) && k <= i && l[..k + 1] == s.reigns[t].log[..k + 1]
  }

  /** The first k entries of `l` are a prefix of something chosen in a term up to `bound`. */
  ghost predicate Durable(s: State, l: seq<Entry>, k: nat, bound: nat) {
    && k < |l|
    && (k > 0 ==> exists t: nat, i: nat :: t <= bound && ChosenPrefix(s, l, k, t, i))
  }

  // ---------------------------------------------------------------- families

  ghost predicate CandidateOk(s: State, p: nat)
    requires p < |s.peers|
  {
    var r := s.peers[p];
    && r.term > 0 && p in r.granted
    && Within(r.granted, |s.peers|) && Within(r.awaiting, |s.peers|) && r.awaiting !! r.granted
    && (forall q | q in r.granted :: (r.term, q) in s.ballots && s.ballots[(r.term, q)] == p)
    && (r.term, p) in s.bids && s.bids[(r.term, p)] == r.log
    && !(r.term in s.reigns && s.reigns[r.term].leader == p)
  }

  ghost predicate LeaderOk(s: State, p: nat)
    requires p < |s.peers|
  {
    var r := s.peers[p];
    && r.term > 0 && r.term in s.reigns
    && s.reigns[r.term].leader == p && s.reigns[r.term].log == r.log
    && (r.term, p) in s.acks && s.acks[(r.term, p)] == |r.log| - 1
    && |r.matched| == |s.peers|
    && forall q | 0 <= q < |r.matched| && q != p && r.matched[q] > 0 ::
         (r.term, q) in s.acks && r.matched[q] <= s.acks[(r.term, q)]
  }

  ghost predicate PeerOk(s: State, p: nat)
    requires p < |s.peers|
  {
    var r := s.peers[p];
    && |r.matched| == |s.peers|
    && GoodLog(s, r.log) && LastTerm(r.log) <= r.term
    && (r.votedFor == NO_VOTE
        || (r.votedFor >= 0 && (r.term, p) in s.ballots && s.ballots[(r.term, p)] == r.votedFor))
    && Durable(s, r.log, r.commit, r.term)
    && (r.role.Candidate? ==> CandidateOk(s, p))
    && (r.role.Leader? ==> LeaderOk(s, p))
  }

  ghost predicate ReignOk(s: State, t: nat)
    requires t in s.reigns
  {
    var g := s.reigns[t];
    && GoodLog(s, g.log) && LastTerm(g.log) <= t
    && if t == 0 then g.log == [SENTINEL]
       else
         && g.leader < |s.peers| && t <= s.peers[g.leader].term
         && (s.peers[g.leader].term == t ==> s.peers[g.leader].role.Leader?)
         && Within(g.voters, |s.peers|) && |g.voters| > |s.peers| / 2
         && (forall v | v in g.voters :: (t, v) in s.ballots && s.ballots[(t, v)] == g.leader)
         && (t, g.leader) in s.bids
         && g.base <= |g.log| && g.log[..g.base] == s.bids[(t, g.leader)]
         && forall i | g.base <= i < |g.log| :: g.log[i].term == t
  }

  ghost predicate BidOk(s: State, key: (nat, nat))
    requires key in s.bids
  {
    && key.1 < |s.peers| && 0 < key.0 <= s.peers[key.1].term
    && GoodLog(s, s.bids[key]) && LastTerm(s.bids[key]) < key.0
  }

  /** What the voter had acknowledged before the vote, the candidate's log holds. */
  ghost predicate Backed(s: State, key: (nat, nat))
    requires key in s.ballots && (key.0, s.ballots[key]) in s.bids
  {
    forall t: nat, i: nat {:trigger AckedOwn(s, t, key.1, i)} |
      t < key.0 && AckedOwn(s, t, key.1, i) && Passed(s, t, i, key.0) ::
      Holds(s, s.bids[(key.0, s.ballots[key])], t, i)
  }

  ghost predicate BallotOk(s: State, key: (nat, nat))
    requires key in s.ballots
  {
    && key.1 < |s.peers| && s.ballots[key] < |s.peers| && key.0 <= s.peers[key.1].term
    && (key.0 == s.peers[key.1].term ==> s.peers[key.1].votedFor == s.ballots[key])
    && (key.0, s.ballots[key]) in s.bids
    && ((key.0 in s.reigns ==> key.1 in s.reigns[key.0].voters) ==> Backed(s, key))
  }

  /** What a peer has acknowledged it still holds, unless a later leader lacks it. */
  ghost predicate Kept(s: State, key: (nat, nat))
    requires key.1 < |s.peers|
  {
    forall i: nat {:trigger AckedOwn(s, key.0, key.1, i)} |
      AckedOwn(s, key.0, key.1, i) && Passed(s, key.0, i, s.peers[key.1].term + 1) ::
      Holds(s, s.peers[key.1].log, key.0, i)
  }

  ghost predicate AckOk(s: State, key: (nat, nat))
    requires key in s.acks
  {
    && key.1 < |s.peers| && 0 < key.0 <= s.peers[key.1].term
    && key.0 in s.reigns && s.acks[key] < |s.reigns[key.0].log|
    && Kept(s, key)
  }

  ghost predicate SliceOk(s: State, args: AppendArgs, to: nat) {
    && to < |s.peers| && args.leader < |s.peers| && args.term > 0 && args.term in s.reigns
    && args.leader == s.reigns[args.term].leader && to != args.leader
    && var log := s.reigns[args.term].log;
       && args.prev + |args.entries| < |log|
       && args.prevTerm == log[args.prev].term
       && args.entries == log[args.prev + 1..args.prev + 1 + |args.entries|]
       && Durable(s, log, args.leaderCommit, args.term)
  }

  /** A rejection names either a log too short to hold prev, or a term that really has another
      entry at prev. */
  ghost predicate HintOk(s: State, args: AppendArgs, reply: AppendReply) {
    if reply.conflictLen != NO_HINT then 0 < reply.conflictLen <= args.prev
    else
      && 0 <= reply.conflictIndex <= args.prev
      && reply.conflictTerm >= 0 && reply.conflictTerm != args.prevTerm
      && reply.conflictTerm in s.reigns && args.prev < |s.reigns[reply.conflictTerm].log|
      && s.reigns[reply.conflictTerm].log[args.prev].term == reply.conflictTerm
  }

  ghost predicate MessageOk(s: State, m: Message) {
    match m
    case VoteRequest(to, ballot) =>
      && to < |s.peers| && to != ballot.candidate
      && (ballot.term, ballot.candidate) in s.bids
      && var l := s.bids[(ballot.term, ballot.candidate)];
         |l| > 0 && ballot.lastIndex == |l| - 1 && ballot.lastTerm == LastTerm(l)
    case VoteAnswer(voter, ballot, verdict) =>
      && voter < |s.peers|
      && (ballot.term, ballot.candidate) in s.bids
      && (verdict.granted ==>
            (ballot.term, voter) in s.ballots && s.ballots[(ballot.term, voter)] == ballot.candidate)
    case AppendRequest(to, args, tag) => SliceOk(s, args, to)
    case AppendAnswer(follower, args, tag, reply) =>
      && SliceOk(s, args, follower)
      && (reply.success ==>
            (args.term, follower) in s.acks && args.prev + |args.entries| <= s.acks[(args.term, follower)])
      && (!reply.success && reply.term <= args.term ==> HintOk(s, args, reply))
  }

  ghost predicate ReignsOk(s: State) {
    forall t {:trigger ReignOk(s, t)} | t in s.reigns :: ReignOk(s, t)
  }

  ghost predicate AcksOk(s: State) {
    forall k {:trigger AckOk(s, k)} | k in s.acks :: AckOk(s, k)
  }

  /** The quantifiers fire only on the family predicates, so a proof names the object it uses. */
  ghost predicate Inv(s: State) {
    && 0 in s.reigns
    && (forall p: nat {:trigger PeerOk(s, p)} | p < |s.peers| :: PeerOk(s, p))
    && ReignsOk(s)
    && (forall k {:trigger BidOk(s, k)} | k in s.bids :: BidOk(s, k))
    && (forall k {:trigger BallotOk(s, k)} | k in s.ballots :: BallotOk(s, k))
    && AcksOk(s)
    && (forall m {:trigger MessageOk(s, m)} | m in s.sent :: MessageOk(s, m))
  }

  // ---------------------------------------------------------------- growth of history

  ghost predicate Extends(g: Reign, g': Reign, t: nat) {
    && g'.leader == g.leader && g'.voters == g.voters && g'.base == g.base
    && |g.log| <= |g'.log| && g'.log[..|g.log|] == g.log
    && forall i | |g.log| <= i < |g'.log| :: g'.log[i].term == t
  }

  /** What no step undoes. An acknowledgement is only ever added in the peer's present term. */
  ghost predicate Grows(s: State, s': State) {
    && |s'.peers| == |s.peers|
    && (forall p | 0 <= p < |s.peers| :: s.peers[p].term <= s'.peers[p].term)
    && s.sent <= s'.sent
    && (forall k | k in s.ballots :: k in s'.ballots && s'.ballots[k] == s.ballots[k])
    && (forall k | k in s.bids :: k in s'.bids && s'.bids[k] == s.bids[k])
    && (forall t | t in s.reigns :: t in s'.reigns && Extends(s.reigns[t], s'.reigns[t], t))
    && (forall k | k in s.acks :: k in s'.acks && s.acks[k] <= s'.acks[k])
    && (forall k | k in s'.acks && (k !in s.acks || s.acks[k] != s'.acks[k]) ::
          k.1 < |s.peers| && k.0 == s'.peers[k.1].term)
  }

  lemma GroundedGrows(s: State, s': State, l: seq<Entry>, i: nat)
    requires Grows(s, s') && i < |l| && Grounded(s, l, i)
    ensures Grounded(s', l, i)
  {
    var t := l[i].term;
    assert Extends(s.reigns[t], s'.reigns[t], t);
    assert s'.reigns[t].log[..i + 1] == s.reigns[t].log[..i + 1];
  }

  lemma GoodLogGrows(s: State, s': State, l: seq<Entry>)
    requires Grows(s, s') && GoodLog(s, l)
    ensures GoodLog(s', l)
  {
    forall i: nat | i < |l| ensures Grounded(s', l, i) {
      GroundedGrows(s, s', l, i);
    }
  }

  lemma HoldsGrows(s: State, s': State, l: seq<Entry>, t: nat, i: nat)
    requires Grows(s, s') && t in s.reigns && i < |s.reigns[t].log|
    ensures t in s'.reigns && i < |s'.reigns[t].log| && s'.reigns[t].log[i] == s.reigns[t].log[i]
    ensures Holds(s', l, t, i) == Holds(s, l, t, i)
  {
    assert Extends(s.reigns[t], s'.reigns[t], t);
    assert s'.reigns[t].log[..i + 1] == s.reigns[t].log[..i + 1];
    assert s'.reigns[t].log[..i + 1][i] == s.reigns[t].log[..i + 1][i];
  }

  /** A leader that lacked an entry of another term never acquires it, so Passed only gets harder. */
  lemma PassedShrinks(s: State, s': State, t: nat, i: nat, u: nat)
    requires Grows(s, s') && t in s.reigns && i < |s.reigns[t].log| && s.reigns[t].log[i].term == t
    requires t in s'.reigns && i < |s'.reigns[t].log|
    requires Passed(s', t, i, u)
    ensures Passed(s, t, i, u)
  {
    forall x | t < x < u && x in s.reigns ensures Holds(s, s.reigns[x].log, t, i) {
      HoldsGrows(s, s', s.reigns[x].log, t, i);
      var l, l' := s.reigns[x].log, s'.reigns[x].log;
      assert Extends(s.reigns[x], s'.reigns[x], x);
      assert Holds(s', l', t, i);
      assert l'[..i + 1][i] == s'.reigns[t].log[..i + 1][i];
      assert i < |l|;
      assert l[..i + 1] == l'[..i + 1];
    }
  }

  lemma ChosenGrows(s: State, s': State, t: nat, i: nat)
    requires Grows(s, s') && Chosen(s, t, i)
    ensures Chosen(s', t, i)
  {
    HoldsGrows(s, s', [], t, i);
    SubsetSize(Ackers(s, t, i), Ackers(s', t, i));
  }

  lemma DurableGrows(s: State, s': State, l: seq<Entry>, k: nat, bound: nat, bound': nat)
    requires Grows(s, s') && Durable(s, l, k, bound) && bound <= bound'
    ensures Durable(s', l, k, bound')
  {
    if k > 0 {
      var t: nat, i: nat :| t <= bound && ChosenPrefix(s, l, k, t, i);
      ChosenGrows(s, s', t, i);
      HoldsGrows(s, s', l, t, k);
      assert Holds(s, l, t, k);
      assert ChosenPrefix(s', l, k, t, i);
    }
  }

  lemma SliceGrows(s: State, s': State, args: AppendArgs, to: nat)
    requires Grows(s, s') && SliceOk(s, args, to)
    ensures SliceOk(s', args, to)
  {
    var l, l' := s.reigns[args.term].log, s'.reigns[args.term].log;
    assert Extends(s.reigns[args.term], s'.reigns[args.term], args.term);
    assert l == l'[..|l|];
    assert l'[args.prev + 1..args.prev + 1 + |args.entries|] == l[args.prev + 1..args.prev + 1 + |args.entries|];
    DurableGrows(s, s', l, args.leaderCommit, args.term, args.term);
    DurableLonger(s', l, l', args.leaderCommit, args.term);
  }

  lemma DurableLonger(s: State, l: seq<Entry>, l': seq<Entry>, k: nat, bound: nat)
    requires Durable(s, l, k, bound) && k < |l'| && l'[..k + 1] == l[..k + 1]
    ensures Durable(s, l', k, bound)
  {
    if k > 0 {
      var t: nat, i: nat :| t <= bound && ChosenPrefix(s, l, k, t, i);
      assert ChosenPrefix(s, l', k, t, i);
    }
  }

  lemma MessageGrows(s: State, s': State, m: Message)
    requires Grows(s, s') && MessageOk(s, m)
    ensures MessageOk(s', m)
  {
    match m
    case VoteRequest(to, ballot) =>
    case VoteAnswer(voter, ballot, verdict) =>
    case AppendRequest(to, args, tag) => SliceGrows(s, s', args, to);
    case AppendAnswer(follower, args, tag, reply) =>
      SliceGrows(s, s', args, follower);
      if !reply.success && reply.term <= args.term && reply.conflictLen == NO_HINT {
        HoldsGrows(s, s', [], reply.conflictTerm, args.prev);
      }
  }

  lemma BidGrows(s: State, s': State, k: (nat, nat))
    requires Grows(s, s') && k in s.bids && BidOk(s, k)
    ensures BidOk(s', k)
  {
    GoodLogGrows(s, s', s.bids[k]);
  }

  lemma AckedOwnGrows(s: State, s': State, t: nat, v: nat, i: nat)
    requires Grows(s, s') && AckedOwn(s', t, v, i)
    requires (t, v) in s.acks && AckOk(s, (t, v)) && s'.acks[(t, v)] == s.acks[(t, v)]
    ensures AckedOwn(s, t, v, i)
  {
    HoldsGrows(s, s', [], t, i);
  }

  /** A recorded vote stays backed: its voter's earlier-term acknowledgements are frozen. */
  lemma BackedGrows(s: State, s': State, k: (nat, nat))
    requires Grows(s, s') && k in s.ballots && BallotOk(s, k) && Backed(s, k)
    requires AcksOk(s)
    ensures Backed(s', k)
  {
    var bid := s.bids[(k.0, s.ballots[k])];
    forall t: nat, i: nat {:trigger AckedOwn(s', t, k.1, i)} |
      t < k.0 && AckedOwn(s', t, k.1, i) && Passed(s', t, i, k.0)
      ensures Holds(s', bid, t, i)
    {
      var a := (t, k.1);
      assert a in s'.acks;
      assert a in s.acks && s.acks[a] == s'.acks[a];
      assert AckOk(s, a);
      AckedOwnGrows(s, s', t, k.1, i);
      PassedShrinks(s, s', t, i, k.0);
      HoldsGrows(s, s', bid, t, i);
    }
  }

  lemma BallotGrows(s: State, s': State, k: (nat, nat))
    requires Grows(s, s') && k in s.ballots && BallotOk(s, k)
    requires AcksOk(s)
    requires k.0 == s'.peers[k.1].term ==> s'.peers[k.1].votedFor == s.ballots[k]
    ensures BallotOk(s', k)
  {
    if k.0 in s'.reigns ==> k.1 in s'.reigns[k.0].voters {
      assert k.0 in s.reigns ==> Extends(s.reigns[k.0], s'.reigns[k.0], k.0);
      BackedGrows(s, s', k);
    }
  }

  /** An old acknowledgement survives a step that leaves its peer's log alone or only extends it. */
  lemma AckGrows(s: State, s': State, k: (nat, nat))
    requires Grows(s, s') && k in s.acks && AckOk(s, k) && s'.acks[k] == s.acks[k]
    requires |s.peers[k.1].log| <= |s'.peers[k.1].log|
    requires s'.peers[k.1].log[..|s.peers[k.1].log|] == s.peers[k.1].log
    ensures AckOk(s', k)
  {
    assert Extends(s.reigns[k.0], s'.reigns[k.0], k.0);
    var l, l' := s.peers[k.1].log, s'.peers[k.1].log;
    forall i: nat {:trigger AckedOwn(s', k.0, k.1, i)} |
      AckedOwn(s', k.0, k.1, i) && Passed(s', k.0, i, s'.peers[k.1].term + 1)
      ensures Holds(s', l', k.0, i)
    {
      AckedOwnGrows(s, s', k.0, k.1, i);
      PassedEarlier(s', k.0, i, s.peers[k.1].term + 1, s'.peers[k.1].term + 1);
      PassedShrinks(s, s', k.0, i, s.peers[k.1].term + 1);
      HoldsGrows(s, s', l, k.0, i);
      assert l'[..i + 1] == l[..i + 1];
    }
  }

  lemma PassedEarlier(s: State, t: nat, i: nat, u: nat, w: nat)
    requires t in s.reigns && i < |s.reigns[t].log|
    requires Passed(s, t, i, w) && u <= w
    ensures Passed(s, t, i, u)
  {
  }

  lemma ReignGrows(s: State, s': State, t: nat)
    requires Grows(s, s') && t in s.reigns && ReignOk(s, t) && s'.reigns[t] == s.reigns[t]
    requires t > 0 ==> s'.peers[s.reigns[t].leader].term == t ==> s'.peers[s.reigns[t].leader].role.Leader?
    ensures ReignOk(s', t)
  {
    GoodLogGrows(s, s', s.reigns[t].log);
  }

  /** A peer a step does not touch stays fine, as long as nobody takes over its reign. */
  lemma PeerGrows(s: State, s': State, p: nat)
    requires Grows(s, s') && p < |s.peers| && PeerOk(s, p) && s'.peers[p] == s.peers[p]
    requires s.peers[p].role.Leader? ==>
               s'.reigns[s.peers[p].term] == s.reigns[s.peers[p].term] && s'.acks[(s.peers[p].term, p)] == s.acks[(s.peers[p].term, p)]
    requires s.peers[p].role.Candidate? && s.peers[p].term in s'.reigns ==> s'.reigns[s.peers[p].term].leader != p
    ensures PeerOk(s', p)
  {
    var r := s.peers[p];
    GoodLogGrows(s, s', r.log);
    DurableGrows(s, s', r.log, r.commit, r.term, r.term);
  }
}
