/** Elections can be won: a peer grants its vote exactly to candidates that are not behind it, and from
    every reachable state of more than one peer some leader can still emerge. */
module RaftElection {
  import opened RaftTypes
  import opened RaftQuorum
  import opened RaftRefinement
  import opened RaftBackup
  import T = RaftTrimmed
  import C = RaftCluster

  // ---------------------------------------------------------------- votes

  /** The last entry (term, index) is not after the other one. */
  predicate NotAfter(term: nat, index: nat, term': nat, index': nat) {
    term < term' || (term == term' && index <= index')
  }

  /** A peer grants its vote exactly when the candidate's term is not over, the peer has voted for nobody
      else in it, and its own log does not end after the candidate's. */
  lemma VoteGrantedExactly(c: T.Core, args: VoteArgs)
    requires |c.log| > 0
    ensures var (c', reply) := T.OnVoteRequest(c, args);
      && (reply.granted <==>
            && args.term >= c.term
            && (args.term > c.term || c.votedFor == NO_VOTE || c.votedFor == args.candidate)
            && NotAfter(LastTerm(c.log), c.End() - 1, args.lastTerm, args.lastIndex))
      && (reply.granted ==> c'.votedFor == args.candidate)
      && reply.term == c'.term == Max(c.term, args.term)
      && c' == c.(term := c'.term, votedFor := c'.votedFor, role := c'.role)
  {
  }

  /** Of any two peers at least one would get the other's vote in a new term. */
  lemma OneOfTwoPasses(a: T.Core, p: nat, b: T.Core, q: nat, term: nat)
    requires |a.log| > 0 && |b.log| > 0 && term > a.term && term > b.term
    ensures || T.OnVoteRequest(b, VoteArgs(term, p, a.End() - 1, LastTerm(a.log))).1.granted
            || T.OnVoteRequest(a, VoteArgs(term, q, b.End() - 1, LastTerm(b.log))).1.granted
  {
  }

  // ---------------------------------------------------------------- runs

  function EndOf(run: seq<C.Cluster>): C.Cluster
    requires |run| > 0
  {
    run[|run| - 1]
  }

  lemma EndIsWellformed(run: seq<C.Cluster>)
    requires C.IsRun(run)
    ensures C.Wellformed(EndOf(run))
  {
    var full := RunRefines(run);
    assert Sim(run[|run| - 1], full[|run| - 1]);
    SimIsWellformed(run[|run| - 1], full[|run| - 1]);
  }

  lemma OneMore(run: seq<C.Cluster>, e: C.Event) returns (run': seq<C.Cluster>)
    requires C.IsRun(run) && C.Wellformed(EndOf(run)) && C.Enabled(EndOf(run), e)
    ensures C.IsRun(run') && run <= run' && EndOf(run') == C.Apply(EndOf(run), e) && C.Wellformed(EndOf(run'))
  {
    run' := run + [C.Apply(EndOf(run), e)];
    forall k: nat | k + 1 < |run'| ensures C.Stepped(run', k) {
      if k + 1 < |run| {
        assert C.Stepped(run, k);
      }
    }
    EndIsWellformed(run');
  }

  /** Logs, commit indices and what services have received are as before; only an election went on. */
  ghost predicate SameLogs(c: C.Cluster, c': C.Cluster) {
    && |c'.nodes| == |c.nodes|
    && forall q | 0 <= q < |c.nodes| ::
         && c'.nodes[q].core.log == c.nodes[q].core.log
         && c'.nodes[q].core.snapshotIndex == c.nodes[q].core.snapshotIndex
         && c'.nodes[q].core.commit == c.nodes[q].core.commit
         && c'.nodes[q].applied == c.nodes[q].applied
  }

  // ---------------------------------------------------------------- campaigning

  ghost predicate NotBehind(a: T.Core, b: T.Core)
    requires |a.log| > 0 && |b.log| > 0
  {
    NotAfter(LastTerm(b.log), b.End() - 1, LastTerm(a.log), a.End() - 1)
  }

  /** p campaigns, nobody has answered yet, and everybody's term is behind. */
  ghost predicate Campaigns(c: C.Cluster, p: nat)
    requires C.Wellformed(c)
  {
    && p < |c.nodes| && c.nodes[p].core.role.Candidate?
    && c.nodes[p].votes == 1 && c.nodes[p].awaiting == Others(|c.nodes|, p)
    && Asked(c, p)
  }

  ghost predicate Asked(c: C.Cluster, p: nat)
    requires C.Wellformed(c) && p < |c.nodes|
  {
    forall q: nat | q < |c.nodes| && q != p :: VoteRequest(q, T.BallotOf(c.nodes[p].core, p)) in c.sent
  }

  /** A peer that is no leader can campaign until its term is beyond any given one. */
  lemma {:induction false} CampaignBeyond(run: seq<C.Cluster>, p: nat, term: nat) returns (run': seq<C.Cluster>)
    requires C.IsRun(run) && C.Wellformed(EndOf(run)) && p < |EndOf(run).nodes|
    requires !EndOf(run).nodes[p].core.role.Leader?
    ensures C.IsRun(run') && run <= run' && C.Wellformed(EndOf(run')) && SameLogs(EndOf(run), EndOf(run'))
    ensures Campaigns(EndOf(run'), p) && EndOf(run').nodes[p].core.term > term
    ensures forall q | 0 <= q < |EndOf(run).nodes| && q != p :: EndOf(run').nodes[q] == EndOf(run).nodes[q]
    decreases term - EndOf(run).nodes[p].core.term
  {
    run' := OneMore(run, C.Campaign(p));
    if EndOf(run').nodes[p].core.term <= term {
      run' := CampaignBeyond(run', p, term);
    }
  }

  // ---------------------------------------------------------------- polling

  /** The peers below i have been polled. */
  ghost predicate Polling(c: C.Cluster, p: nat, i: nat)
    requires C.Wellformed(c)
  {
    && p < |c.nodes| && i <= |c.nodes| && Asked(c, p)
    && (forall q | 0 <= q < |c.nodes| && q != p :: NotBehind(c.nodes[p].core, c.nodes[q].core))
    && (forall q: nat | q < |c.nodes| && q != p ::
          if q < i then c.nodes[q].core.term == c.nodes[p].core.term
          else c.nodes[q].core.term < c.nodes[p].core.term && q in c.nodes[p].awaiting)
    && (c.nodes[p].core.role.Leader?
        || (c.nodes[p].core.role.Candidate? && c.nodes[p].votes == Polled(p, i)
            && (c.nodes[p].votes == 1 || c.nodes[p].votes <= |c.nodes| / 2)))
  }

  /** The votes of p itself and of the other peers below i. */
  function Polled(p: nat, i: nat): nat {
    if p < i then i else i + 1
  }

  lemma PollOne(run: seq<C.Cluster>, p: nat, i: nat) returns (run': seq<C.Cluster>)
    requires C.IsRun(run) && C.Wellformed(EndOf(run)) && Polling(EndOf(run), p, i) && i < |EndOf(run).nodes|
    ensures C.IsRun(run') && run <= run' && C.Wellformed(EndOf(run')) && SameLogs(EndOf(run), EndOf(run'))
    ensures Polling(EndOf(run'), p, i + 1)
    ensures EndOf(run').nodes[p].core.term == EndOf(run).nodes[p].core.term
  {
    if i == p {
      run' := run;
    } else {
      var c := EndOf(run);
      var ballot := T.BallotOf(c.nodes[p].core, p);
      VoteGrantedExactly(c.nodes[i].core, ballot);
      var voted := OneMore(run, C.Vote(i, ballot));
      var v := EndOf(voted);
      var verdict := T.OnVoteRequest(c.nodes[i].core, ballot).1;
      assert VoteAnswer(i, ballot, verdict) in v.sent;
      run' := OneMore(voted, C.CountVote(i, ballot, verdict));
      CountedOne(c, v, EndOf(run'), p, i, ballot, verdict);
    }
  }

  lemma CountedOne(c: C.Cluster, v: C.Cluster, c': C.Cluster, p: nat, i: nat, ballot: VoteArgs, verdict: VoteReply)
    requires C.Wellformed(c) && C.Wellformed(v) && C.Wellformed(c') && Polling(c, p, i) && i < |c.nodes| && i != p
    requires ballot == T.BallotOf(c.nodes[p].core, p)
    requires C.Enabled(c, C.Vote(i, ballot)) && v == C.Apply(c, C.Vote(i, ballot))
    requires verdict == T.OnVoteRequest(c.nodes[i].core, ballot).1 && verdict.granted
    requires C.Enabled(v, C.CountVote(i, ballot, verdict)) && c' == C.Apply(v, C.CountVote(i, ballot, verdict))
    ensures Polling(c', p, i + 1) && SameLogs(c, c') && c'.nodes[p].core.term == c.nodes[p].core.term
  {
    VoteGrantedExactly(c.nodes[i].core, ballot);
    assert T.BallotOf(c'.nodes[p].core, p) == ballot;
  }

  lemma {:induction false} PollAll(run: seq<C.Cluster>, p: nat, i: nat) returns (run': seq<C.Cluster>)
    requires C.IsRun(run) && C.Wellformed(EndOf(run)) && Polling(EndOf(run), p, i)
    ensures C.IsRun(run') && run <= run' && C.Wellformed(EndOf(run')) && SameLogs(EndOf(run), EndOf(run'))
    ensures Polling(EndOf(run'), p, |EndOf(run).nodes|)
    decreases |EndOf(run).nodes| - i
  {
    if i == |EndOf(run).nodes| {
      run' := run;
    } else {
      var next := PollOne(run, p, i);
      run' := PollAll(next, p, i + 1);
    }
  }

  /** A leader whose term nobody has passed. */
  ghost predicate Leads(c: C.Cluster, p: nat) {
    && p < |c.nodes| && c.nodes[p].core.role.Leader?
    && forall q | 0 <= q < |c.nodes| :: c.nodes[q].core.term <= c.nodes[p].core.term
  }

  /** Of more than one peer, one that no log is ahead of wins once it campaigns beyond everybody's term. */
  lemma WinsOnceBeyond(run: seq<C.Cluster>, p: nat) returns (run': seq<C.Cluster>)
    requires C.IsRun(run) && C.Wellformed(EndOf(run)) && |EndOf(run).nodes| > 1 && Campaigns(EndOf(run), p)
    requires forall q | 0 <= q < |EndOf(run).nodes| && q != p ::
               && EndOf(run).nodes[q].core.term < EndOf(run).nodes[p].core.term
               && NotBehind(EndOf(run).nodes[p].core, EndOf(run).nodes[q].core)
    ensures C.IsRun(run') && run <= run' && SameLogs(EndOf(run), EndOf(run')) && Leads(EndOf(run'), p)
  {
    forall q: nat | q < |EndOf(run).nodes| && q != p ensures q in EndOf(run).nodes[p].awaiting {
      assert Natural(q);
    }
    run' := PollAll(run, p, 0);
  }

  // ---------------------------------------------------------------- somebody can win

  lemma {:induction false} HighestTerm(c: C.Cluster, n: nat) returns (r: nat)
    requires 0 < n <= |c.nodes|
    ensures r < n && forall q | 0 <= q < n :: c.nodes[q].core.term <= c.nodes[r].core.term
  {
    if n == 1 {
      r := 0;
    } else {
      r := HighestTerm(c, n - 1);
      r := if c.nodes[n - 1].core.term > c.nodes[r].core.term then n - 1 else r;
    }
  }

  lemma {:induction false} MostComplete(c: C.Cluster, n: nat) returns (p: nat)
    requires C.Wellformed(c) && 0 < n <= |c.nodes|
    ensures p < n && forall q | 0 <= q < n :: NotBehind(c.nodes[p].core, c.nodes[q].core)
  {
    if n == 1 {
      p := 0;
    } else {
      p := MostComplete(c, n - 1);
      p := if NotBehind(c.nodes[p].core, c.nodes[n - 1].core) then p else n - 1;
    }
  }

  /** A leader that another, non-leading peer is ahead of in term can be made to step down. */
  lemma StepsDown(run: seq<C.Cluster>, p: nat, r: nat) returns (run': seq<C.Cluster>)
    requires C.IsRun(run) && C.Wellformed(EndOf(run)) && p < |EndOf(run).nodes| && r < |EndOf(run).nodes| && p != r
    requires !EndOf(run).nodes[r].core.role.Leader? && EndOf(run).nodes[p].core.term <= EndOf(run).nodes[r].core.term
    ensures C.IsRun(run') && run <= run' && C.Wellformed(EndOf(run')) && SameLogs(EndOf(run), EndOf(run'))
    ensures !EndOf(run').nodes[p].core.role.Leader?
  {
    var asking := CampaignBeyond(run, r, EndOf(run).nodes[r].core.term);
    var ballot := T.BallotOf(EndOf(asking).nodes[r].core, r);
    run' := OneMore(asking, C.Vote(p, ballot));
  }

  /** From every reachable state of more than one peer a leader can emerge whose term nobody has passed,
      without any log changing. */
  lemma LeaderCanEmerge(run: seq<C.Cluster>) returns (run': seq<C.Cluster>, p: nat)
    requires C.IsRun(run) && |EndOf(run).nodes| > 1
    ensures C.IsRun(run') && run <= run' && SameLogs(EndOf(run), EndOf(run')) && Leads(EndOf(run'), p)
  {
    EndIsWellformed(run);
    var c := EndOf(run);
    var r := HighestTerm(c, |c.nodes|);
    if c.nodes[r].core.role.Leader? {
      run', p := run, r;
    } else {
      p := MostComplete(c, |c.nodes|);
      var ready := run;
      if c.nodes[p].core.role.Leader? {
        ready := StepsDown(run, p, r);
      }
      var highest := HighestTerm(EndOf(ready), |c.nodes|);
      var asking := CampaignBeyond(ready, p, EndOf(ready).nodes[highest].core.term);
      run' := WinsOnceBeyond(asking, p);
    }
  }

  // ---------------------------------------------------------------- from the start, exactly

  function Start(n: nat): C.Cluster {
    C.Cluster(seq(n, _ => C.Node(C.FreshCore(n), 0, {}, C.Idle, [])), {})
  }

  lemma AnyoneCanLead(n: nat, p: nat) returns (run: seq<C.Cluster>)
    requires p < n && n > 1
    ensures C.IsRun(run) && |run[0].nodes| == n && |EndOf(run).nodes| == n && EndOf(run).nodes[p].core.role.Leader?
  {
    var first := [Start(n)];
    EndIsWellformed(first);
    var asking := CampaignBeyond(first, p, 0);
    run := WinsOnceBeyond(asking, p);
    assert run[0] == first[0];
  }

  ghost predicate Alone(c: C.Cluster) {
    |c.nodes| == 1 && !c.nodes[0].core.role.Leader? && c.nodes[0].awaiting == {}
  }

  lemma AloneStays(c: C.Cluster, e: C.Event)
    requires C.Wellformed(c) && C.Enabled(c, e) && Alone(c)
    ensures Alone(C.Apply(c, e))
  {
    if e.Campaign? {
      assert Others(1, 0) == {};
    }
  }

  /** Alone, a peer has nobody to ask, and only an answer makes a leader. */
  lemma {:induction false} NeverAlone(run: seq<C.Cluster>, k: nat)
    requires C.IsRun(run) && k < |run| && |run[0].nodes| == 1
    ensures Alone(run[k])
  {
    if k > 0 {
      NeverAlone(run, k - 1);
      assert C.Stepped(run, k - 1);
      var e :| C.Enabled(run[k - 1], e) && run[k] == C.Apply(run[k - 1], e);
      AloneStays(run[k - 1], e);
    }
  }

  /** A peer of a cluster of n can become leader if and only if n is more than one. */
  lemma CanLeadExactly(n: nat, p: nat)
    requires p < n
    ensures (exists run: seq<C.Cluster> :: C.IsRun(run) && |run[0].nodes| == n && p < |EndOf(run).nodes|
                           && EndOf(run).nodes[p].core.role.Leader?) <==> n > 1
  {
    if n > 1 {
      var run := AnyoneCanLead(n, p);
    } else {
      forall run: seq<C.Cluster> | C.IsRun(run) && |run[0].nodes| == n
        ensures |EndOf(run).nodes| == 1 && !EndOf(run).nodes[0].core.role.Leader?
      {
        NeverAlone(run, |run| - 1);
      }
    }
  }
}
