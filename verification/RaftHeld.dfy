/** What a peer has acknowledged in its present term it holds: its log agrees with the leader's that far. */
module RaftHeld {
  import opened RaftTypes
  import opened RaftProtocol
  import opened RaftInvariant
  import opened RaftReplication

  ghost predicate HeldBy(s: State, q: nat)
    requires q < |s.peers|
  {
    var t := s.peers[q].term;
    (t, q) in s.acks && t in s.reigns ==> AgreeTo(s.peers[q].log, s.reigns[t].log, s.acks[(t, q)])
  }

  /** A peer that has just moved to a term has acknowledged nothing in it. */
  lemma NewTermUnacked(s: State, q: nat, t: nat)
    requires Inv(s) && q < |s.peers| && s.peers[q].term < t
    ensures (t, q) !in s.acks
  {
    if (t, q) in s.acks {
      AckedTermReached(s, q, t);
    }
  }

  lemma AckedTermReached(s: State, q: nat, t: nat)
    requires Inv(s) && q < |s.peers| && (t, q) in s.acks
    ensures t <= s.peers[q].term
  {
    assert AckOk(s, (t, q));
  }

  lemma AgreeLonger(a: seq<Entry>, b: seq<Entry>, b': seq<Entry>, m: nat)
    requires AgreeTo(a, b, m) && |b| <= |b'| && b'[..|b|] == b
    ensures AgreeTo(a, b', m)
  {
    assert b'[..m + 1] == b'[..|b|][..m + 1];
  }

  /** Nothing of the peer's own changes but perhaps its term, which then is new to it. */
  lemma HeldIfUntouched(s: State, s': State, q: nat)
    requires Inv(s) && Grows(s, s') && q < |s.peers| && HeldBy(s, q)
    requires s'.peers[q].log == s.peers[q].log
    requires forall t | (t, q) in s'.acks :: (t, q) in s.acks && s'.acks[(t, q)] == s.acks[(t, q)]
    ensures HeldBy(s', q)
  {
    var t := s'.peers[q].term;
    if (t, q) in s'.acks {
      if s.peers[q].term < t {
        NewTermUnacked(s, q, t);
      } else {
        assert AckOk(s, (t, q));
        AgreeLonger(s.peers[q].log, s.reigns[t].log, s'.reigns[t].log, s.acks[(t, q)]);
      }
    }
  }

  lemma LeaderHolds(s: State, p: nat)
    requires Inv(s) && p < |s.peers| && s.peers[p].role.Leader?
    ensures HeldBy(s, p)
  {
    assert PeerOk(s, p);
  }

  /** Merging a call's entries keeps what was acknowledged, and adds the call's own last index. */
  lemma HeldAfterMerge(s: State, to: nat, args: AppendArgs, ack: nat)
    requires Inv(s) && to < |s.peers| && SliceOk(s, args, to) && Accepts(s.peers[to], args)
    requires ack == args.prev + |args.entries| || AgreeTo(s.peers[to].log, s.reigns[args.term].log, ack)
    ensures AgreeTo(Merge(s.peers[to].log, args.prev, args.entries), s.reigns[args.term].log, ack)
  {
    assert PeerOk(s, to) && ReignOk(s, args.term);
    MergeFollowsLeader(s, s.peers[to].log, args, to);
  }

  lemma HeldAfterAppend(s: State, to: nat, args: AppendArgs, tag: nat, reply: AppendReply)
    requires Inv(s) && Wellformed(s) && Enabled(s, Append(to, args, tag, reply)) && HeldBy(s, to)
    requires Grows(s, Apply(s, Append(to, args, tag, reply)))
    ensures HeldBy(Apply(s, Append(to, args, tag, reply)), to)
  {
    var s' := Apply(s, Append(to, args, tag, reply));
    if !Accepts(s.peers[to], args) {
      HeldIfUntouched(s, s', to);
    } else {
      assert MessageOk(s, AppendRequest(to, args, tag));
      if (args.term, to) in s.acks {
        AckedTermReached(s, to, args.term);
      }
      HeldAfterMerge(s, to, args, s'.acks[(args.term, to)]);
    }
  }

  lemma OthersUntouched(s: State, step: Step, q: nat)
    requires Wellformed(s) && Enabled(s, step) && q < |s.peers|
    requires !Apply(s, step).peers[q].role.Leader? && (step.Append? ==> step.to != q)
    ensures var s' := Apply(s, step);
      && s'.peers[q].log == s.peers[q].log
      && forall t | (t, q) in s'.acks :: (t, q) in s.acks && s'.acks[(t, q)] == s.acks[(t, q)]
  {
  }

  lemma HeldKept(s: State, step: Step, q: nat)
    requires Inv(s) && Wellformed(s) && Enabled(s, step) && q < |s.peers| && HeldBy(s, q)
    requires Inv(Apply(s, step)) && Grows(s, Apply(s, step))
    ensures HeldBy(Apply(s, step), q)
  {
    var s' := Apply(s, step);
    if s'.peers[q].role.Leader? {
      LeaderHolds(s', q);
    } else if step.Append? && step.to == q {
      HeldAfterAppend(s, q, step.args, step.tag, step.reply);
    } else {
      OthersUntouched(s, step, q);
      HeldIfUntouched(s, s', q);
    }
  }
}
