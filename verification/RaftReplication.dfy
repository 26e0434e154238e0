/** Log replication steps keep the invariant; with the elections of RaftSteps this covers every run. */
module RaftReplication {
  import opened RaftTypes
  import opened RaftQuorum
  import opened RaftProtocol
  import opened RaftInvariant
  import opened RaftSafety
  import opened RaftSteps

  // ---------------------------------------------------------------- proposals

  lemma ProposeGrows(s: State, p: nat, command: Command)
    requires Inv(s) && Wellformed(s) && Enabled(s, Propose(p, command))
    ensures OnlyPeer(s, Apply(s, Propose(p, command)), p)
    ensures Remembers(s, Apply(s, Propose(p, command)), p)
    ensures StillLeads(s, Apply(s, Propose(p, command)), p)
  {
    assert PeerOk(s, p);
    VotesOf(s, p);
    ReignsOf(s, p);
  }

  /** A leader's log extended by an entry of its own term is good in the state that records it. */
  lemma ExtendedGood(s: State, s': State, l: seq<Entry>, t: nat, e: Entry)
    requires Grows(s, s') && GoodLog(s, l) && LastTerm(l) <= t == e.term
    requires t in s'.reigns && s'.reigns[t].log == l + [e]
    ensures GoodLog(s', l + [e])
  {
    GoodLogGrows(s, s', l);
    forall i: nat | i < |l + [e]| ensures Grounded(s', l + [e], i) {
      if i < |l| {
        assert Grounded(s', l, i);
        assert (l + [e])[..i + 1] == l[..i + 1];
      }
    }
  }

  lemma ProposedOk(s: State, p: nat, command: Command)
    requires Inv(s) && Wellformed(s) && Enabled(s, Propose(p, command))
    requires Grows(s, Apply(s, Propose(p, command)))
    ensures PeerOk(Apply(s, Propose(p, command)), p)
    ensures ReignOk(Apply(s, Propose(p, command)), s.peers[p].term)
    ensures AckOk(Apply(s, Propose(p, command)), (s.peers[p].term, p))
  {
    var s' := Apply(s, Propose(p, command));
    var l, l' := s.peers[p].log, s'.peers[p].log;
    var t := s.peers[p].term;
    assert PeerOk(s, p);
    assert ReignOk(s, t);
    assert l'[..|l|] == l;
    ExtendedGood(s, s', l, t, Entry(t, command));
    DurableGrows(s, s', l, s.peers[p].commit, t, t);
    DurableLonger(s', l, l', s.peers[p].commit, t);
    assert l'[..s.reigns[t].base] == l[..s.reigns[t].base];
  }

  lemma ProposeKeeps(s: State, p: nat, command: Command)
    requires Inv(s) && Wellformed(s) && Enabled(s, Propose(p, command))
    ensures Inv(Apply(s, Propose(p, command)))
  {
    var s' := Apply(s, Propose(p, command));
    ProposeGrows(s, p, command);
    ProposedOk(s, p, command);
    assert PeerOk(s, p);
    OtherPeersKept(s, s', p);
    OldReignsKept(s, s', p);
    OldBidsKept(s, s');
    OldBallotsKept(s, s', p);
    OldMessagesKept(s, s');
    OldAcksKept(s, s', p);
  }

  lemma ReplicateKeeps(s: State, p: nat, to: nat, prev: nat, count: nat, tag: nat)
    requires Inv(s) && Wellformed(s) && Enabled(s, Replicate(p, to, prev, count, tag))
    ensures Inv(Apply(s, Replicate(p, to, prev, count, tag)))
  {
    var s' := Apply(s, Replicate(p, to, prev, count, tag));
    assert PeerOk(s, p);
    VotesOf(s, p);
    ReignsOf(s, p);
    assert OnlyPeer(s, s', p);
    var args := AppendFrom(s.peers[p], p, prev, count);
    assert SliceOk(s, args, to);
    SliceGrows(s, s', args, to);
    PeerGrows(s, s', p);
    QuietStepKeeps(s, s', p);
  }

  // ---------------------------------------------------------------- AppendEntries

  /** Merge keeps the log as it is when every entry agrees, and otherwise cuts at the first
      disagreement `cut` and takes the rest of the entries. */
  lemma {:induction false} MergeCases(log: seq<Entry>, at: nat, entries: seq<Entry>) returns (cut: nat)
    requires at < |log|
    ensures at < cut <= at + 1 + |entries| && cut <= |log|
    ensures forall j | at < j < cut :: log[j].term == entries[j - at - 1].term
    ensures cut == at + 1 + |entries| ==> Merge(log, at, entries) == log
    ensures cut < at + 1 + |entries| ==>
              && Merge(log, at, entries) == log[..cut] + entries[cut - at - 1..]
              && (cut < |log| ==> log[cut].term != entries[cut - at - 1].term)
    decreases |entries|
  {
    if entries != [] && at + 1 < |log| && log[at + 1].term == entries[0].term {
      cut := MergeCases(log, at + 1, entries[1..]);
      forall j | at < j < cut ensures log[j].term == entries[j - at - 1].term {
        if j > at + 1 {
          assert entries[1..][j - at - 2] == entries[j - at - 1];
        }
      }
      if cut < at + 1 + |entries| {
        assert entries[1..][cut - at - 2..] == entries[cut - at - 1..];
      }
    } else {
      cut := at + 1;
      assert entries[0..] == entries;
    }
  }

  ghost predicate AgreeTo(a: seq<Entry>, b: seq<Entry>, m: nat) {
    m < |a| && m < |b| && a[..m + 1] == b[..m + 1]
  }

  /** What merging a slice of `lead` ending before `end` leaves: the log itself, already equal to
      `lead` that far, or `lead[..end]`; nothing that agreed with `lead` is lost. */
  ghost predicate MergedWith(log: seq<Entry>, lead: seq<Entry>, end: nat, merged: seq<Entry>) {
    && end <= |merged| && end <= |lead| && merged[..end] == lead[..end]
    && (merged == log || merged == lead[..end])
    && forall m: nat {:trigger AgreeTo(log, lead, m)} | AgreeTo(log, lead, m) :: AgreeTo(merged, lead, m)
  }

  lemma AgreeAll(a: seq<Entry>, b: seq<Entry>, m: nat)
    requires AgreeTo(a, b, m)
    ensures forall j | 0 <= j <= m :: a[j] == b[j]
  {
    forall j | 0 <= j <= m ensures a[j] == b[j] {
      assert a[..m + 1][j] == b[..m + 1][j];
    }
  }

  lemma CutAgrees(log: seq<Entry>, lead: seq<Entry>, cut: nat, end: nat)
    requires 0 < cut < end <= |lead| && cut <= |log| && AgreeTo(log, lead, cut - 1)
    requires cut < |log| ==> log[cut].term != lead[cut].term
    ensures MergedWith(log, lead, end, log[..cut] + lead[cut..end])
  {
    var merged := log[..cut] + lead[cut..end];
    assert merged == lead[..end];
    forall m: nat {:trigger AgreeTo(log, lead, m)} | AgreeTo(log, lead, m) ensures AgreeTo(merged, lead, m) {
      AgreeAll(log, lead, m);
      assert m < cut;
    }
  }

  /** The two outcomes of Merge, from the point `cut` where the entries stop agreeing. */
  lemma MergeOnto(log: seq<Entry>, lead: seq<Entry>, prev: nat, entries: seq<Entry>, cut: nat)
    requires prev < |log| && prev + |entries| < |lead|
    requires entries == lead[prev + 1..prev + 1 + |entries|]
    requires prev < cut <= prev + 1 + |entries| && cut <= |log| && AgreeTo(log, lead, cut - 1)
    requires cut == prev + 1 + |entries| ==> Merge(log, prev, entries) == log
    requires cut < prev + 1 + |entries| ==>
               && Merge(log, prev, entries) == log[..cut] + entries[cut - prev - 1..]
               && (cut < |log| ==> log[cut].term != entries[cut - prev - 1].term)
    ensures MergedWith(log, lead, prev + 1 + |entries|, Merge(log, prev, entries))
  {
    var end := prev + 1 + |entries|;
    if cut < end {
      assert lead[cut..end] == entries[cut - prev - 1..];
      assert lead[cut] == entries[cut - prev - 1];
      CutAgrees(log, lead, cut, end);
    }
  }

  lemma MergeFollows(s: State, log: seq<Entry>, lead: seq<Entry>, prev: nat, entries: seq<Entry>)
    requires GoodLog(s, log) && GoodLog(s, lead)
    requires prev < |log| && prev + |entries| < |lead| && log[prev].term == lead[prev].term
    requires entries == lead[prev + 1..prev + 1 + |entries|]
    ensures MergedWith(log, lead, prev + 1 + |entries|, Merge(log, prev, entries))
  {
    var cut := MergeCases(log, prev, entries);
    if cut - 1 > prev {
      assert lead[cut - 1] == entries[cut - 1 - prev - 1];
    }
    LogsMatch(s, log, lead, cut - 1);
    MergeOnto(log, lead, prev, entries, cut);
  }

  lemma MergeFollowsLeader(s: State, log: seq<Entry>, args: AppendArgs, to: nat)
    requires GoodLog(s, log) && SliceOk(s, args, to) && GoodLog(s, s.reigns[args.term].log)
    requires args.prev < |log| && log[args.prev].term == args.prevTerm
    ensures MergedWith(log, s.reigns[args.term].log, args.prev + 1 + |args.entries|,
                       Merge(log, args.prev, args.entries))
  {
    MergeFollows(s, log, s.reigns[args.term].log, args.prev, args.entries);
  }

  lemma GoodPrefix(s: State, l: seq<Entry>, k: nat)
    requires GoodLog(s, l) && 0 < k <= |l|
    ensures GoodLog(s, l[..k])
  {
    forall i: nat | i < k ensures Grounded(s, l[..k], i) {
      assert Grounded(s, l, i);
      assert l[..k][..i + 1] == l[..i + 1];
    }
  }

  lemma DurableShorter(s: State, l: seq<Entry>, k: nat, j: nat, bound: nat)
    requires Durable(s, l, k, bound) && j <= k
    ensures Durable(s, l, j, bound)
  {
    if j > 0 {
      var t: nat, i: nat :| t <= bound && ChosenPrefix(s, l, k, t, i);
      assert l[..j + 1] == l[..k + 1][..j + 1];
      assert s.reigns[t].log[..j + 1] == s.reigns[t].log[..k + 1][..j + 1];
      assert ChosenPrefix(s, l, j, t, i);
    }
  }

  ghost predicate Appends(s: State, to: nat, args: AppendArgs, tag: nat, reply: AppendReply) {
    Wellformed(s) && Enabled(s, Append(to, args, tag, reply))
  }

  /** Nobody but the leader itself leads the term, so a peer that hears from it is a follower. */
  lemma HearsAsFollower(s: State, to: nat, args: AppendArgs, tag: nat, reply: AppendReply)
    requires Inv(s) && Appends(s, to, args, tag, reply)
    ensures SliceOk(s, args, to) && PeerOk(s, to) && ReignOk(s, args.term)
    ensures args.term >= s.peers[to].term ==> Heard(s.peers[to], args.term).role.Follower?
    ensures args.term >= s.peers[to].term ==> Heard(s.peers[to], args.term).term == args.term
  {
    assert MessageOk(s, AppendRequest(to, args, tag));
    assert PeerOk(s, to) && ReignOk(s, args.term);
  }

  lemma AppendGrows(s: State, to: nat, args: AppendArgs, tag: nat, reply: AppendReply)
    requires Inv(s) && Appends(s, to, args, tag, reply)
    ensures OnlyPeer(s, Apply(s, Append(to, args, tag, reply)), to)
    ensures Remembers(s, Apply(s, Append(to, args, tag, reply)), to)
    ensures StillLeads(s, Apply(s, Append(to, args, tag, reply)), to)
  {
    HearsAsFollower(s, to, args, tag, reply);
    VotesOf(s, to);
    ReignsOf(s, to);
  }

  lemma AnswerOk(s: State, to: nat, args: AppendArgs, tag: nat, reply: AppendReply)
    requires Inv(s) && Appends(s, to, args, tag, reply)
    requires Grows(s, Apply(s, Append(to, args, tag, reply)))
    ensures MessageOk(Apply(s, Append(to, args, tag, reply)), AppendAnswer(to, args, tag, reply))
  {
    var s' := Apply(s, Append(to, args, tag, reply));
    HearsAsFollower(s, to, args, tag, reply);
    SliceGrows(s, s', args, to);
    var p := s.peers[to];
    if !reply.success && args.term >= p.term && args.prev < |p.log| {
      assert Grounded(s, p.log, args.prev);
      assert p.log[args.prev] == p.log[..args.prev + 1][args.prev];
      HoldsGrows(s, s', p.log, p.log[args.prev].term, args.prev);
    }
  }

  /** A refused request: nothing but the term can change. */
  lemma RefusedAppendKeeps(s: State, to: nat, args: AppendArgs, tag: nat, reply: AppendReply)
    requires Inv(s) && Appends(s, to, args, tag, reply) && !reply.success
    ensures Inv(Apply(s, Append(to, args, tag, reply)))
  {
    var s' := Apply(s, Append(to, args, tag, reply));
    var p, q := s.peers[to], s'.peers[to];
    AppendGrows(s, to, args, tag, reply);
    HearsAsFollower(s, to, args, tag, reply);
    AnswerOk(s, to, args, tag, reply);
    if q == p {
      PeerGrows(s, s', to);
    } else {
      GoodLogGrows(s, s', q.log);
      DurableGrows(s, s', q.log, q.commit, p.term, q.term);
      assert PeerOk(s', to);
    }
    QuietStepKeeps(s, s', to);
  }

  /** The follower's committed prefix survives the merge, and its new commit index is durable. */
  lemma MergedDurable(s: State, to: nat, args: AppendArgs, tag: nat, reply: AppendReply)
    requires Inv(s) && Appends(s, to, args, tag, reply) && reply.success
    ensures var p := s.peers[to];
            Durable(s, Merge(p.log, args.prev, args.entries), NewCommit(p.commit, args), args.term)
  {
    HearsAsFollower(s, to, args, tag, reply);
    var p := s.peers[to];
    MergeFollowsLeader(s, p.log, args, to);
    DurableInReign(s, p.log, p.commit, p.term, args.term);
    MergeKeepsDurable(s, p.log, p.commit, p.term, args, Merge(p.log, args.prev, args.entries));
  }

  lemma MergeKeepsDurable(s: State, log: seq<Entry>, commit: nat, bound: nat, args: AppendArgs, merged: seq<Entry>)
    requires args.term in s.reigns && bound <= args.term
    requires MergedWith(log, s.reigns[args.term].log, args.prev + 1 + |args.entries|, merged)
    requires Durable(s, log, commit, bound) && AgreeTo(log, s.reigns[args.term].log, commit)
    requires Durable(s, s.reigns[args.term].log, args.leaderCommit, args.term)
    ensures Durable(s, merged, NewCommit(commit, args), args.term)
  {
    var lead := s.reigns[args.term].log;
    var reached := Min(args.leaderCommit, args.prev + |args.entries|);
    if reached > commit {
      DurableShorter(s, lead, args.leaderCommit, reached, args.term);
      PrefixAgrees(merged, lead, args.prev + 1 + |args.entries|, reached);
      DurableLonger(s, lead, merged, reached, args.term);
    } else {
      DurableLonger(s, log, merged, commit, bound);
      DurableWider(s, merged, commit, bound, args.term);
    }
  }

  lemma PrefixAgrees(a: seq<Entry>, b: seq<Entry>, end: nat, k: nat)
    requires k < end <= |a| && end <= |b| && a[..end] == b[..end]
    ensures AgreeTo(a, b, k)
  {
    assert a[..k + 1] == a[..end][..k + 1];
    assert b[..k + 1] == b[..end][..k + 1];
  }

  lemma DurableWider(s: State, l: seq<Entry>, k: nat, bound: nat, bound': nat)
    requires Durable(s, l, k, bound) && bound <= bound'
    ensures Durable(s, l, k, bound')
  {
  }

  lemma FollowerOk(s: State, to: nat, args: AppendArgs, tag: nat, reply: AppendReply)
    requires Inv(s) && Appends(s, to, args, tag, reply) && reply.success
    requires Grows(s, Apply(s, Append(to, args, tag, reply)))
    ensures PeerOk(Apply(s, Append(to, args, tag, reply)), to)
  {
    var s' := Apply(s, Append(to, args, tag, reply));
    var q := s'.peers[to];
    HearsAsFollower(s, to, args, tag, reply);
    MergedDurable(s, to, args, tag, reply);
    DurableGrows(s, s', q.log, q.commit, args.term, args.term);
    MergedGood(s, to, args);
    GoodLogGrows(s, s', q.log);
  }

  lemma MergedGood(s: State, to: nat, args: AppendArgs)
    requires to < |s.peers| && SliceOk(s, args, to) && PeerOk(s, to) && ReignOk(s, args.term)
    requires Accepts(s.peers[to], args)
    ensures var merged := Merge(s.peers[to].log, args.prev, args.entries);
            GoodLog(s, merged) && LastTerm(merged) <= args.term
  {
    MergeFollowsLeader(s, s.peers[to].log, args, to);
    var lead := s.reigns[args.term].log;
    var end := args.prev + 1 + |args.entries|;
    GoodPrefix(s, lead, end);
    assert LastTerm(lead[..end]) <= LastTerm(lead);
  }

  /** Everything the follower ever acknowledged and no later leader lacks survives the merge. */
  lemma FollowerAcksKept(s: State, to: nat, args: AppendArgs, tag: nat, reply: AppendReply, t: nat)
    requires Inv(s) && Appends(s, to, args, tag, reply) && reply.success
    requires Grows(s, Apply(s, Append(to, args, tag, reply)))
    requires (t, to) in Apply(s, Append(to, args, tag, reply)).acks
    ensures AckOk(Apply(s, Append(to, args, tag, reply)), (t, to))
  {
    var s' := Apply(s, Append(to, args, tag, reply));
    var p, q := s.peers[to], s'.peers[to];
    HearsAsFollower(s, to, args, tag, reply);
    var lead := s.reigns[args.term].log;
    var end := args.prev + 1 + |args.entries|;
    MergeFollowsLeader(s, p.log, args, to);
    assert (t, to) in s.acks ==> AckOk(s, (t, to));
    assert s'.reigns == s.reigns;
    forall i: nat {:trigger AckedOwn(s', t, to, i)} |
      AckedOwn(s', t, to, i) && Passed(s', t, i, q.term + 1)
      ensures Holds(s', q.log, t, i)
    {
      if t == args.term && i < end {
        PrefixAgrees(q.log, lead, end, i);
      } else {
        assert AckedOwn(s, t, to, i);
        assert Passed(s, t, i, p.term + 1);
        assert Holds(s, p.log, t, i);
        assert Holds(s, lead, t, i);
        assert AgreeTo(p.log, lead, i);
      }
    }
  }

  lemma AcceptedAppendKeeps(s: State, to: nat, args: AppendArgs, tag: nat, reply: AppendReply)
    requires Inv(s) && Appends(s, to, args, tag, reply) && reply.success
    ensures Inv(Apply(s, Append(to, args, tag, reply)))
  {
    var s' := Apply(s, Append(to, args, tag, reply));
    AppendGrows(s, to, args, tag, reply);
    AnswerOk(s, to, args, tag, reply);
    FollowerOk(s, to, args, tag, reply);
    OtherPeersKept(s, s', to);
    OldReignsKept(s, s', to);
    OldBidsKept(s, s');
    OldBallotsKept(s, s', to);
    OldMessagesKept(s, s');
    forall k | k in s'.acks ensures AckOk(s', k) {
      if k.1 == to {
        FollowerAcksKept(s, to, args, tag, reply, k.0);
      } else {
        assert AckOk(s, k);
        assert s'.peers[k.1].log[..|s.peers[k.1].log|] == s.peers[k.1].log;
        AckGrows(s, s', k);
      }
    }
  }

  // ---------------------------------------------------------------- acknowledgements

  /** The commit rule of a leader only picks chosen entries. */
  lemma CommitIsChosen(s: State, me: nat, r: Peer)
    requires Inv(s) && me < |s.peers| && LeaderOk(s, me)
    requires r.term == s.peers[me].term && r.log == s.peers[me].log && |r.matched| == |s.peers| && |r.log| > 0
    requires forall q | 0 <= q < |r.matched| && q != me && r.matched[q] > 0 ::
               (r.term, q) in s.acks && r.matched[q] <= s.acks[(r.term, q)]
    requires Committing(r, me).commit > r.commit
    ensures Chosen(s, r.term, Committing(r, me).commit)
  {
    var matches := r.matched[me := |r.log| - 1];
    var i := MajorityIndex(matches);
    MajorityIndexIsLargest(matches);
    assert Reached(matches, i) <= Ackers(s, r.term, i);
    SubsetSize(Reached(matches, i), Ackers(s, r.term, i));
  }

  lemma CommittingKeepsRest(r: Peer, me: nat)
    requires me < |r.matched| && |r.log| > 0
    ensures Committing(r, me) == r.(commit := Committing(r, me).commit)
    ensures Committing(r, me).commit >= r.commit
  {
  }

  /** The leader of a state that differs from `s` in its match and commit indices only. */
  lemma AckRaised(s: State, s': State, p: nat, q: Peer)
    requires Inv(s) && p < |s.peers| && LeaderOk(s, p) && PeerOk(s, p)
    requires s' == s.(peers := s.peers[p := q]) && Grows(s, s')
    requires q == s.peers[p].(matched := q.matched, commit := q.commit) && |q.matched| == |s.peers|
    requires forall i | 0 <= i < |q.matched| && i != p && q.matched[i] > 0 ::
               (q.term, i) in s.acks && q.matched[i] <= s.acks[(q.term, i)]
    requires q.role.Leader? && q.commit >= s.peers[p].commit
    requires q.commit > s.peers[p].commit ==> q.commit < |q.log| && Chosen(s, q.term, q.commit)
    ensures PeerOk(s', p)
  {
    GoodLogGrows(s, s', q.log);
    if q.commit > s.peers[p].commit {
      ChosenGrows(s, s', q.term, q.commit);
      assert ChosenPrefix(s', q.log, q.commit, q.term, q.commit);
    } else {
      DurableGrows(s, s', q.log, s.peers[p].commit, q.term, q.term);
    }
  }

  lemma AckCounted(s: State, follower: nat, args: AppendArgs, tag: nat, reply: AppendReply)
    requires Inv(s) && Wellformed(s) && Enabled(s, CountAck(follower, args, tag, reply))
    requires Grows(s, Apply(s, CountAck(follower, args, tag, reply)))
    ensures PeerOk(Apply(s, CountAck(follower, args, tag, reply)), args.leader)
  {
    var s' := Apply(s, CountAck(follower, args, tag, reply));
    var p := args.leader;
    var r, q := s.peers[p], s'.peers[p];
    assert PeerOk(s, p);
    if q == r {
      PeerGrows(s, s', p);
    } else if reply.term > r.term {
      GoodLogGrows(s, s', q.log);
      DurableGrows(s, s', q.log, r.commit, r.term, q.term);
    } else {
      assert MessageOk(s, AppendAnswer(follower, args, tag, reply));
      var raised := r.(matched := r.matched[follower := args.prev + |args.entries|]);
      CommittingKeepsRest(raised, p);
      if q.commit > r.commit {
        CommitIsChosen(s, p, raised);
      }
      AckRaised(s, s', p, q);
    }
  }

  lemma CountAckKeeps(s: State, follower: nat, args: AppendArgs, tag: nat, reply: AppendReply)
    requires Inv(s) && Wellformed(s) && Enabled(s, CountAck(follower, args, tag, reply))
    ensures Inv(Apply(s, CountAck(follower, args, tag, reply)))
  {
    var s' := Apply(s, CountAck(follower, args, tag, reply));
    CountAckGrows(s, follower, args, tag, reply);
    AckCounted(s, follower, args, tag, reply);
    QuietStepKeeps(s, s', args.leader);
  }

  lemma CountAckGrows(s: State, follower: nat, args: AppendArgs, tag: nat, reply: AppendReply)
    requires Inv(s) && Wellformed(s) && Enabled(s, CountAck(follower, args, tag, reply))
    ensures OnlyPeer(s, Apply(s, CountAck(follower, args, tag, reply)), args.leader)
    ensures Remembers(s, Apply(s, CountAck(follower, args, tag, reply)), args.leader)
    ensures StillLeads(s, Apply(s, CountAck(follower, args, tag, reply)), args.leader)
  {
    assert PeerOk(s, args.leader);
    VotesOf(s, args.leader);
    ReignsOf(s, args.leader);
  }

  // ---------------------------------------------------------------- runs

  lemma InvIsWellformed(s: State)
    requires Inv(s)
    ensures Wellformed(s)
  {
    forall p: nat | p < |s.peers| ensures |s.peers[p].log| > 0 && |s.peers[p].matched| == |s.peers| {
      assert PeerOk(s, p);
    }
  }

  lemma InitEstablishes(s: State)
    requires Init(s)
    ensures Inv(s)
  {
    assert GoodLog(s, [SENTINEL]) by {
      assert Grounded(s, [SENTINEL], 0);
    }
    forall p: nat | p < |s.peers| ensures PeerOk(s, p) {
      assert s.peers[p] == Fresh(|s.peers|);
    }
    assert ReignOk(s, 0);
  }

  lemma StepKeeps(s: State, step: Step)
    requires Inv(s) && Wellformed(s) && Enabled(s, step)
    ensures Inv(Apply(s, step))
  {
    match step
    case Campaign(p) => CampaignKeeps(s, p);
    case Vote(to, ballot) => VoteKeeps(s, to, ballot);
    case CountVote(voter, ballot, verdict) => CountVoteKeeps(s, voter, ballot, verdict);
    case Propose(p, command) => ProposeKeeps(s, p, command);
    case Replicate(p, to, prev, count, tag) => ReplicateKeeps(s, p, to, prev, count, tag);
    case Append(to, args, tag, reply) =>
      if reply.success { AcceptedAppendKeeps(s, to, args, tag, reply); }
      else { RefusedAppendKeeps(s, to, args, tag, reply); }
    case CountAck(follower, args, tag, reply) => CountAckKeeps(s, follower, args, tag, reply);
  }

  lemma {:induction false} RunKeeps(run: seq<State>, k: nat)
    requires IsRun(run) && k < |run|
    ensures Inv(run[k])
  {
    if k == 0 {
      InitEstablishes(run[0]);
    } else {
      RunKeeps(run, k - 1);
      assert Stepped(run, k - 1);
      var step :| Enabled(run[k - 1], step) && run[k] == Apply(run[k - 1], step);
      StepKeeps(run[k - 1], step);
    }
  }
}
