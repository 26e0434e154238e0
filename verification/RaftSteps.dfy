/** Every step of the cluster keeps the invariant. */
module RaftSteps {
  import opened RaftTypes
  import opened RaftQuorum
  import opened RaftProtocol
  import opened RaftInvariant
  import opened RaftSafety

  // ---------------------------------------------------------------- shared by all steps

  /** A step touches one peer, its acknowledgements and its own reign. */
  ghost predicate OnlyPeer(s: State, s': State, p: nat) {
    && Grows(s, s')
    && p < |s.peers|
    && (forall q | 0 <= q < |s.peers| && q != p :: s'.peers[q] == s.peers[q])
    && (forall k | k in s'.acks && k.1 != p :: k in s.acks && s'.acks[k] == s.acks[k])
    && (forall t | t in s'.reigns :: (t in s.reigns && s'.reigns[t] == s.reigns[t]) || s'.reigns[t].leader == p)
  }

  /** A vote already cast in the touched peer's present term is the one it remembers. */
  ghost predicate Remembers(s: State, s': State, p: nat)
    requires p < |s'.peers|
  {
    forall k | k in s.ballots && k.1 == p && k.0 == s'.peers[p].term :: s'.peers[p].votedFor == s.ballots[k]
  }

  ghost predicate StillLeads(s: State, s': State, p: nat)
    requires p < |s'.peers|
  {
    forall t | t in s.reigns && 0 < t == s'.peers[p].term && s.reigns[t].leader == p :: s'.peers[p].role.Leader?
  }

  lemma OtherPeersKept(s: State, s': State, p: nat)
    requires Inv(s) && OnlyPeer(s, s', p)
    ensures forall q: nat {:trigger PeerOk(s', q)} | q < |s.peers| && q != p :: PeerOk(s', q)
  {
    forall q: nat | q < |s.peers| && q != p ensures PeerOk(s', q) {
      assert PeerOk(s, q);
      PeerGrows(s, s', q);
    }
  }

  lemma OldReignsKept(s: State, s': State, p: nat)
    requires Inv(s) && OnlyPeer(s, s', p) && StillLeads(s, s', p)
    ensures forall t {:trigger ReignOk(s', t)} | t in s.reigns && s'.reigns[t] == s.reigns[t] :: ReignOk(s', t)
  {
    forall t | t in s.reigns && s'.reigns[t] == s.reigns[t] ensures ReignOk(s', t) {
      assert ReignOk(s, t);
      ReignGrows(s, s', t);
    }
  }

  lemma OldBidsKept(s: State, s': State)
    requires Inv(s) && Grows(s, s')
    ensures forall k {:trigger BidOk(s', k)} | k in s.bids :: BidOk(s', k)
  {
    forall k | k in s.bids ensures BidOk(s', k) {
      assert BidOk(s, k);
      BidGrows(s, s', k);
    }
  }

  lemma OldBallotsKept(s: State, s': State, p: nat)
    requires Inv(s) && OnlyPeer(s, s', p) && Remembers(s, s', p)
    ensures forall k {:trigger BallotOk(s', k)} | k in s.ballots :: BallotOk(s', k)
  {
    forall k | k in s.ballots ensures BallotOk(s', k) {
      assert BallotOk(s, k);
      BallotGrows(s, s', k);
    }
  }

  lemma OldMessagesKept(s: State, s': State)
    requires Inv(s) && Grows(s, s')
    ensures forall m {:trigger MessageOk(s', m)} | m in s.sent :: MessageOk(s', m)
  {
    forall m | m in s.sent ensures MessageOk(s', m) {
      assert MessageOk(s, m);
      MessageGrows(s, s', m);
    }
  }

  /** Acknowledgements whose peer keeps its log, or only extends it. */
  lemma OldAcksKept(s: State, s': State, p: nat)
    requires Inv(s) && OnlyPeer(s, s', p)
    requires |s.peers[p].log| <= |s'.peers[p].log| && s'.peers[p].log[..|s.peers[p].log|] == s.peers[p].log
    ensures forall k {:trigger AckOk(s', k)} | k in s.acks && s'.acks[k] == s.acks[k] :: AckOk(s', k)
  {
    forall k | k in s.acks && s'.acks[k] == s.acks[k] ensures AckOk(s', k) {
      assert AckOk(s, k);
      if k.1 != p {
        assert s'.peers[k.1].log[..|s.peers[k.1].log|] == s.peers[k.1].log;
      }
      AckGrows(s, s', k);
    }
  }

  lemma VotesOf(s: State, p: nat)
    requires Inv(s) && p < |s.peers|
    ensures forall k | k in s.ballots && k.1 == p ::
              k.0 <= s.peers[p].term && (k.0 == s.peers[p].term ==> s.peers[p].votedFor == s.ballots[k])
    ensures forall k | k in s.bids && k.1 == p :: k.0 <= s.peers[p].term
  {
    forall k | k in s.ballots && k.1 == p
      ensures k.0 <= s.peers[p].term && (k.0 == s.peers[p].term ==> s.peers[p].votedFor == s.ballots[k])
    {
      assert BallotOk(s, k);
    }
    forall k | k in s.bids && k.1 == p ensures k.0 <= s.peers[p].term {
      assert BidOk(s, k);
    }
  }

  lemma ReignsOf(s: State, p: nat)
    requires Inv(s) && p < |s.peers|
    ensures forall t | t in s.reigns && 0 < t && s.reigns[t].leader == p ::
              t <= s.peers[p].term && (t == s.peers[p].term ==> s.peers[p].role.Leader?)
    ensures forall k | k in s.acks && k.1 == p :: k.0 in s.reigns && k.0 <= s.peers[p].term
  {
    forall t | t in s.reigns && 0 < t && s.reigns[t].leader == p
      ensures t <= s.peers[p].term && (t == s.peers[p].term ==> s.peers[p].role.Leader?)
    {
      assert ReignOk(s, t);
    }
    forall k | k in s.acks && k.1 == p ensures k.0 in s.reigns && k.0 <= s.peers[p].term {
      assert AckOk(s, k);
    }
  }

  /** A step that changes no reign and no acknowledgement, and keeps the peer's log. */
  lemma QuietStepKeeps(s: State, s': State, p: nat)
    requires Inv(s) && OnlyPeer(s, s', p) && Remembers(s, s', p) && StillLeads(s, s', p)
    requires s'.reigns == s.reigns && s'.acks == s.acks && s'.peers[p].log == s.peers[p].log
    requires PeerOk(s', p)
    requires forall k | k in s'.bids && k !in s.bids :: BidOk(s', k)
    requires forall k | k in s'.ballots && k !in s.ballots :: BallotOk(s', k)
    requires forall m | m in s'.sent && m !in s.sent :: MessageOk(s', m)
    ensures Inv(s')
  {
    OtherPeersKept(s, s', p);
    OldReignsKept(s, s', p);
    OldBidsKept(s, s');
    OldBallotsKept(s, s', p);
    OldMessagesKept(s, s');
    assert s'.peers[p].log[..|s.peers[p].log|] == s.peers[p].log;
    OldAcksKept(s, s', p);
  }

  // ---------------------------------------------------------------- elections

  lemma CampaignKeeps(s: State, p: nat)
    requires Inv(s) && Wellformed(s) && Enabled(s, Campaign(p))
    ensures Inv(Apply(s, Campaign(p)))
  {
    var s' := Apply(s, Campaign(p));
    var q := s'.peers[p];
    assert PeerOk(s, p);
    VotesOf(s, p);
    ReignsOf(s, p);
    assert Grows(s, s');
    GoodLogGrows(s, s', q.log);
    DurableGrows(s, s', q.log, q.commit, s.peers[p].term, q.term);
    assert CandidateOk(s', p);
    assert PeerOk(s', p);
    OwnVoteBacked(s, p);
    QuietStepKeeps(s, s', p);
  }

  lemma OwnVoteBacked(s: State, p: nat)
    requires Inv(s) && Wellformed(s) && Enabled(s, Campaign(p))
    ensures Backed(Apply(s, Campaign(p)), (s.peers[p].term + 1, p))
  {
    var s' := Apply(s, Campaign(p));
    var u := s'.peers[p].term;
    var l := s.peers[p].log;
    forall t: nat, i: nat {:trigger AckedOwn(s', t, p, i)} |
      t < u && AckedOwn(s', t, p, i) && Passed(s', t, i, u)
      ensures Holds(s', l, t, i)
    {
      assert AckOk(s, (t, p));
      assert AckedOwn(s, t, p, i);
      assert Passed(s, t, i, u);
    }
  }

  /** A vote granted before its term has a leader is backed: the voter's log held what the voter
      had acknowledged, and the candidate's log is up to date with it. */
  lemma GrantedVoteBacked(s: State, to: nat, ballot: VoteArgs)
    requires Inv(s) && Wellformed(s) && Enabled(s, Vote(to, ballot))
    requires OnVoteRequest(s.peers[to], ballot).1.granted
    requires (ballot.term, to) !in s.ballots && ballot.term !in s.reigns
    ensures (ballot.term, ballot.candidate) in s.bids
    ensures Backed(Apply(s, Vote(to, ballot)), (ballot.term, to))
  {
    var s' := Apply(s, Vote(to, ballot));
    var p := s.peers[to];
    assert PeerOk(s, to);
    assert MessageOk(s, VoteRequest(to, ballot));
    var bid := s.bids[(ballot.term, ballot.candidate)];
    assert BidOk(s, (ballot.term, ballot.candidate));
    forall t: nat, i: nat {:trigger AckedOwn(s', t, to, i)} |
      t < ballot.term && AckedOwn(s', t, to, i) && Passed(s', t, i, ballot.term)
      ensures Holds(s', bid, t, i)
    {
      assert AckOk(s, (t, to));
      assert AckedOwn(s, t, to, i);
      assert Passed(s, t, i, p.term + 1);
      assert Passed(s, t, i, ballot.term);
      UpToDateHolds(s, bid, p.log, t, i, ballot.term);
    }
  }

  lemma VoteGrows(s: State, to: nat, ballot: VoteArgs)
    requires Inv(s) && Wellformed(s) && Enabled(s, Vote(to, ballot))
    ensures OnlyPeer(s, Apply(s, Vote(to, ballot)), to)
    ensures Remembers(s, Apply(s, Vote(to, ballot)), to)
    ensures StillLeads(s, Apply(s, Vote(to, ballot)), to)
    ensures ballot.candidate < |s.peers|
  {
    assert PeerOk(s, to);
    assert MessageOk(s, VoteRequest(to, ballot));
    assert BidOk(s, (ballot.term, ballot.candidate));
    VotesOf(s, to);
    ReignsOf(s, to);
  }

  lemma VoterKept(s: State, to: nat, ballot: VoteArgs)
    requires Inv(s) && Wellformed(s) && Enabled(s, Vote(to, ballot))
    requires Grows(s, Apply(s, Vote(to, ballot)))
    ensures PeerOk(Apply(s, Vote(to, ballot)), to)
  {
    var s' := Apply(s, Vote(to, ballot));
    var p, q := s.peers[to], s'.peers[to];
    assert PeerOk(s, to);
    if q == p {
      PeerGrows(s, s', to);
    } else {
      GoodLogGrows(s, s', q.log);
      DurableGrows(s, s', q.log, q.commit, p.term, q.term);
      if q.role.Candidate? {
        assert CandidateOk(s', to);
      }
    }
  }

  lemma NewBallotOk(s: State, to: nat, ballot: VoteArgs)
    requires Inv(s) && Wellformed(s) && Enabled(s, Vote(to, ballot))
    requires OnVoteRequest(s.peers[to], ballot).1.granted && (ballot.term, to) !in s.ballots
    ensures BallotOk(Apply(s, Vote(to, ballot)), (ballot.term, to))
  {
    assert MessageOk(s, VoteRequest(to, ballot));
    assert BidOk(s, (ballot.term, ballot.candidate));
    if ballot.term in s.reigns {
      assert ReignOk(s, ballot.term);
    } else {
      GrantedVoteBacked(s, to, ballot);
    }
  }

  lemma VoteKeeps(s: State, to: nat, ballot: VoteArgs)
    requires Inv(s) && Wellformed(s) && Enabled(s, Vote(to, ballot))
    ensures Inv(Apply(s, Vote(to, ballot)))
  {
    var s' := Apply(s, Vote(to, ballot));
    VoteGrows(s, to, ballot);
    VoterKept(s, to, ballot);
    assert MessageOk(s, VoteRequest(to, ballot));
    if OnVoteRequest(s.peers[to], ballot).1.granted && (ballot.term, to) !in s.ballots {
      NewBallotOk(s, to, ballot);
    }
    QuietStepKeeps(s, s', to);
  }

  /** A candidate with a majority is alone: its term has no leader yet. */
  lemma WinnerIsFirst(s: State, p: nat, granted: set<nat>)
    requires Inv(s) && p < |s.peers| && CandidateOk(s, p)
    requires Within(granted, |s.peers|) && |granted| > |s.peers| / 2
    requires forall q | q in granted :: (s.peers[p].term, q) in s.ballots && s.ballots[(s.peers[p].term, q)] == p
    ensures s.peers[p].term !in s.reigns
  {
    var t := s.peers[p].term;
    if t in s.reigns {
      assert ReignOk(s, t);
      var v := MajoritiesMeet(|s.peers|, s.reigns[t].voters, granted);
      assert false;
    }
  }

  ghost predicate Wins(s: State, voter: nat, ballot: VoteArgs, verdict: VoteReply) {
    && Wellformed(s) && Enabled(s, CountVote(voter, ballot, verdict))
    && !s.peers[ballot.candidate].role.Leader?
    && OnVoteAnswer(s.peers[ballot.candidate], ballot.candidate, |s.peers|, voter, ballot, verdict).role.Leader?
  }

  lemma CrownGrows(s: State, voter: nat, ballot: VoteArgs, verdict: VoteReply)
    requires Inv(s) && Wins(s, voter, ballot, verdict)
    ensures s.peers[ballot.candidate].term !in s.reigns
    ensures (s.peers[ballot.candidate].term, ballot.candidate) !in s.acks
    ensures OnlyPeer(s, Apply(s, CountVote(voter, ballot, verdict)), ballot.candidate)
    ensures Remembers(s, Apply(s, CountVote(voter, ballot, verdict)), ballot.candidate)
  {
    var p := ballot.candidate;
    assert PeerOk(s, p);
    assert MessageOk(s, VoteAnswer(voter, ballot, verdict));
    WinnerIsFirst(s, p, Apply(s, CountVote(voter, ballot, verdict)).peers[p].granted);
    VotesOf(s, p);
    ReignsOf(s, p);
  }

  lemma CrownedOk(s: State, voter: nat, ballot: VoteArgs, verdict: VoteReply)
    requires Inv(s) && Wins(s, voter, ballot, verdict)
    requires Grows(s, Apply(s, CountVote(voter, ballot, verdict)))
    requires (s.peers[ballot.candidate].term, ballot.candidate) !in s.acks
    ensures PeerOk(Apply(s, CountVote(voter, ballot, verdict)), ballot.candidate)
    ensures ReignOk(Apply(s, CountVote(voter, ballot, verdict)), ballot.term)
    ensures AckOk(Apply(s, CountVote(voter, ballot, verdict)), (ballot.term, ballot.candidate))
  {
    var s' := Apply(s, CountVote(voter, ballot, verdict));
    var p := ballot.candidate;
    var q := s'.peers[p];
    assert PeerOk(s, p);
    assert MessageOk(s, VoteAnswer(voter, ballot, verdict));
    assert BidOk(s, (q.term, p));
    GoodLogGrows(s, s', q.log);
    DurableGrows(s, s', q.log, q.commit, q.term, q.term);
    assert q.log[..|q.log|] == q.log;
  }

  lemma CrownKeeps(s: State, voter: nat, ballot: VoteArgs, verdict: VoteReply)
    requires Inv(s) && Wins(s, voter, ballot, verdict)
    ensures Inv(Apply(s, CountVote(voter, ballot, verdict)))
  {
    var s' := Apply(s, CountVote(voter, ballot, verdict));
    var p := ballot.candidate;
    CrownGrows(s, voter, ballot, verdict);
    CrownedOk(s, voter, ballot, verdict);
    OtherPeersKept(s, s', p);
    OldReignsKept(s, s', p);
    OldBidsKept(s, s');
    OldBallotsKept(s, s', p);
    OldMessagesKept(s, s');
    assert s'.peers[p].log[..|s.peers[p].log|] == s.peers[p].log;
    OldAcksKept(s, s', p);
  }

  ghost predicate CountsOn(s: State, voter: nat, ballot: VoteArgs, verdict: VoteReply) {
    && Wellformed(s) && Enabled(s, CountVote(voter, ballot, verdict))
    && !Wins(s, voter, ballot, verdict)
  }

  lemma CountVoteGrows(s: State, voter: nat, ballot: VoteArgs, verdict: VoteReply)
    requires Inv(s) && CountsOn(s, voter, ballot, verdict)
    ensures OnlyPeer(s, Apply(s, CountVote(voter, ballot, verdict)), ballot.candidate)
    ensures Remembers(s, Apply(s, CountVote(voter, ballot, verdict)), ballot.candidate)
    ensures StillLeads(s, Apply(s, CountVote(voter, ballot, verdict)), ballot.candidate)
  {
    assert PeerOk(s, ballot.candidate);
    VotesOf(s, ballot.candidate);
    ReignsOf(s, ballot.candidate);
  }

  lemma CounterOk(s: State, voter: nat, ballot: VoteArgs, verdict: VoteReply)
    requires Inv(s) && CountsOn(s, voter, ballot, verdict)
    requires Grows(s, Apply(s, CountVote(voter, ballot, verdict)))
    ensures PeerOk(Apply(s, CountVote(voter, ballot, verdict)), ballot.candidate)
  {
    var s' := Apply(s, CountVote(voter, ballot, verdict));
    var r, q := s.peers[ballot.candidate], s'.peers[ballot.candidate];
    assert PeerOk(s, ballot.candidate);
    assert MessageOk(s, VoteAnswer(voter, ballot, verdict));
    if q == r {
      PeerGrows(s, s', ballot.candidate);
    } else {
      GoodLogGrows(s, s', q.log);
      DurableGrows(s, s', q.log, q.commit, r.term, q.term);
      assert q.role.Candidate? ==> CandidateOk(s', ballot.candidate);
    }
  }

  lemma CountVoteKeeps(s: State, voter: nat, ballot: VoteArgs, verdict: VoteReply)
    requires Inv(s) && Wellformed(s) && Enabled(s, CountVote(voter, ballot, verdict))
    ensures Inv(Apply(s, CountVote(voter, ballot, verdict)))
  {
    if Wins(s, voter, ballot, verdict) {
      CrownKeeps(s, voter, ballot, verdict);
    } else {
      CountVoteGrows(s, voter, ballot, verdict);
      CounterOk(s, voter, ballot, verdict);
      QuietStepKeeps(s, Apply(s, CountVote(voter, ballot, verdict)), ballot.candidate);
    }
  }
}
