/** The cluster never gets stuck: from every reachable state of more than one peer a leader can still be
    elected, and as long as nobody has trimmed its log, a new command can still reach every service. */
module RaftProgress {
  import opened RaftTypes
  import opened RaftQuorum
  import opened RaftInvariant
  import opened RaftHeld
  import opened RaftReplication
  import opened RaftRefinement
  import opened RaftBackup
  import opened RaftTheorems
  import opened RaftElection
  import S = RaftSafety
  import P = RaftProtocol
  import T = RaftTrimmed
  import C = RaftCluster

  // ---------------------------------------------------------------- what a call carries, and what accepting it means

  /** A call the replicator makes while no other is out carries everything from nextIndex through the
      leader's last entry, under the term and index of the entry before. */
  lemma SendCarriesAll(run: seq<C.Cluster>, k: nat, p: nat, to: nat)
    requires C.IsRun(run) && k < |run| && C.Wellformed(run[k]) && C.Enabled(run[k], C.Send(p, to))
    requires !run[k].nodes[p].core.inFlight[to]
    ensures exists args, tag :: AppendRequest(to, args, tag) in C.Apply(run[k], C.Send(p, to)).sent
                                && CarriesAll(run[k].nodes[p].core, p, to, args)
  {
    var core, c' := run[k].nodes[p].core, C.Apply(run[k], C.Send(p, to));
    var args := T.NextArgs(core, p, to);
    FullArgs(core, p, to);
    assert AppendRequest(to, args, T.Sent(core, to).sendSeq[to]) in c'.sent;
  }

  ghost predicate CarriesAll(core: T.Core, p: nat, to: nat, args: AppendArgs) {
    && args.term == core.term && args.leader == p && args.leaderCommit == core.commit
    && to < |core.nextIndex| && args.prev + 1 == core.nextIndex[to] && args.prev + |args.entries| + 1 == core.End()
    && (exists e :: HasEntry(core, args.prev, e) && e.term == args.prevTerm)
    && forall j | 0 <= j < |args.entries| :: HasEntry(core, args.prev + 1 + j, args.entries[j])
  }

  lemma FullArgs(core: T.Core, p: nat, to: nat)
    requires to < |core.nextIndex| && to < |core.inFlight| && !core.inFlight[to]
    requires core.snapshotIndex < core.nextIndex[to] <= core.End()
    ensures CarriesAll(core, p, to, T.NextArgs(core, p, to))
  {
    var args := T.NextArgs(core, p, to);
    assert HasEntry(core, args.prev, core.log[args.prev - core.snapshotIndex]);
  }

  lemma HeldNext(full: seq<P.State>, k: nat, q: nat)
    requires k + 1 < |full| && Linked(full, k) && Inv(full[k]) && Inv(full[k + 1]) && Grows(full[k], full[k + 1])
    requires q < |full[k].peers| && HeldBy(full[k], q)
    ensures HeldBy(full[k + 1], q)
  {
    if full[k + 1] != full[k] {
      var step :| P.Enabled(full[k], step) && full[k + 1] == P.Apply(full[k], step);
      HeldKept(full[k], step, q);
    }
  }

  lemma HeldAtFirst(s: P.State, q: nat)
    requires P.Init(s) && q < |s.peers|
    ensures HeldBy(s, q)
  {
  }

  lemma LinkedAt(run: seq<C.Cluster>, full: seq<P.State>, k: nat)
    requires Follows(run, full) && k + 1 < |full|
    ensures Linked(full, k) && Inv(full[k]) && Inv(full[k + 1]) && |full[k].peers| == |full[k + 1].peers|
    ensures Grows(full[k], full[k + 1])
  {
    OneStepGrows(run, full, k);
  }

  lemma {:induction false} HeldOverRuns(run: seq<C.Cluster>, full: seq<P.State>, k: nat, q: nat)
    requires Follows(run, full) && k < |full| && q < |full[k].peers|
    ensures HeldBy(full[k], q)
  {
    if k == 0 {
      HeldAtFirst(full[0], q);
    } else {
      LinkedAt(run, full, k - 1);
      HeldOverRuns(run, full, k - 1, q);
      HeldNext(full, k - 1, q);
    }
  }

  lemma AcceptedInFull(run: seq<C.Cluster>, full: seq<P.State>, k: nat, to: nat, args: AppendArgs, tag: nat,
                       reply: AppendReply, i: nat)
    requires Follows(run, full) && k < |run| && to < |full[k].peers| && full[k].peers[to].term == args.term
    requires AppendAnswer(to, args, tag, reply) in full[k].sent && reply.success && i <= args.prev + |args.entries|
    ensures args.term in full[k].reigns && i < |full[k].reigns[args.term].log| && i < |full[k].peers[to].log|
    ensures full[k].peers[to].log[i] == full[k].reigns[args.term].log[i]
  {
    HeldOverRuns(run, full, k, to);
    assert Inv(full[k]);
    assert MessageOk(full[k], AppendAnswer(to, args, tag, reply));
    AgreeAll(full[k].peers[to].log, full[k].reigns[args.term].log, full[k].acks[(args.term, to)]);
  }

  lemma ReignsSame(run: seq<C.Cluster>, full: seq<P.State>, j: nat, k: nat, t: nat, i: nat)
    requires Follows(run, full) && j < |run| && k < |run| && t in full[j].reigns && t in full[k].reigns
    requires i < |full[j].reigns[t].log| && i < |full[k].reigns[t].log|
    ensures full[j].reigns[t].log[i] == full[k].reigns[t].log[i]
  {
    if j <= k {
      Persistence(run, full, j, k);
      SameBelow(full[j].reigns[t].log, full[k].reigns[t].log, i);
    } else {
      Persistence(run, full, k, j);
      SameBelow(full[k].reigns[t].log, full[j].reigns[t].log, i);
    }
  }

  lemma SameBelow(a: seq<Entry>, b: seq<Entry>, i: nat)
    requires |a| <= |b| && b[..|a|] == a && i < |a|
    ensures b[i] == a[i]
  {
    assert b[..|a|][i] == b[i];
  }

  lemma LeaderIsReign(run: seq<C.Cluster>, full: seq<P.State>, j: nat, p: nat)
    requires Follows(run, full) && j < |run| && p < |run[j].nodes| && run[j].nodes[p].core.role.Leader?
    ensures var core := run[j].nodes[p].core;
      && core.term in full[j].reigns && |full[j].reigns[core.term].log| == core.End()
      && forall i: nat, e {:trigger HasEntry(core, i, e)} | HasEntry(core, i, e) :: full[j].reigns[core.term].log[i] == e
  {
    FullEntry(run, full, j, p);
  }

  /** A peer that has accepted a call agrees with the call's leader through the last of its entries, for as
      long as it stays in that term. */
  lemma AcceptedAgrees(run: seq<C.Cluster>, k: nat, to: nat, args: AppendArgs, tag: nat, reply: AppendReply,
                       j: nat, i: nat, e: Entry)
    requires C.IsRun(run) && k < |run| && to < |run[k].nodes| && run[k].nodes[to].core.term == args.term
    requires AppendAnswer(to, args, tag, reply) in run[k].sent && reply.success
    requires j < |run| && args.leader < |run[j].nodes| && run[j].nodes[args.leader].core.role.Leader?
    requires run[j].nodes[args.leader].core.term == args.term
    requires i <= args.prev + |args.entries| && HasEntry(run[j].nodes[args.leader].core, i, e)
    ensures var core := run[k].nodes[to].core; i < core.End() && (i >= core.snapshotIndex ==> HasEntry(core, i, e))
  {
    var full := RunRefines(run);
    FullEntry(run, full, k, to);
    assert Sim(run[k], full[k]);
    AcceptedInFull(run, full, k, to, args, tag, reply, i);
    LeaderIsReign(run, full, j, args.leader);
    ReignsSame(run, full, j, k, args.term, i);
    var core := run[k].nodes[to].core;
    if i >= core.snapshotIndex {
      EntryAt(core, full[k].peers[to], i - core.snapshotIndex);
    }
  }

  // ---------------------------------------------------------------- one call

  ghost predicate Untrimmed(c: C.Cluster) {
    forall q | 0 <= q < |c.nodes| :: c.nodes[q].core.snapshotIndex == 0
  }

  /** p leads, nobody has trimmed its log, and q is another peer. */
  ghost predicate CanReplicate(c: C.Cluster, p: nat, q: nat) {
    C.Wellformed(c) && Leads(c, p) && Untrimmed(c) && q < |c.nodes| && q != p
  }

  /** All but the leader's record of its outstanding calls is as before. */
  ghost predicate OnlyCalls(core: T.Core, core': T.Core) {
    core' == core.(inFlight := core'.inFlight, sendSeq := core'.sendSeq)
  }

  ghost predicate OnlyNodes(c: C.Cluster, c': C.Cluster, p: nat, q: nat) {
    && |c'.nodes| == |c.nodes| && c.sent <= c'.sent
    && (forall r | 0 <= r < |c.nodes| && r != p && r != q :: c'.nodes[r] == c.nodes[r])
  }

  /** A call that carries everything can be made. */
  lemma CallOut(run: seq<C.Cluster>, p: nat, q: nat) returns (run': seq<C.Cluster>, args: AppendArgs, tag: nat)
    requires C.IsRun(run) && CanReplicate(EndOf(run), p, q)
    ensures C.IsRun(run') && run <= run' && CanReplicate(EndOf(run'), p, q)
    ensures OnlyNodes(EndOf(run), EndOf(run'), p, p)
    ensures EndOf(run').nodes[p] == EndOf(run).nodes[p].(core := EndOf(run').nodes[p].core)
    ensures OnlyCalls(EndOf(run).nodes[p].core, EndOf(run').nodes[p].core)
    ensures AppendRequest(q, args, tag) in EndOf(run').sent && CarriesAll(EndOf(run').nodes[p].core, p, q, args)
  {
    LeaderIndices(run, |run| - 1, p, q);
    var last := EndOf(run).nodes[p].core.sendSeq[q];
    var idle := OneMore(run, C.CallFails(p, q, last));
    var core := EndOf(idle).nodes[p].core;
    FullArgs(core, p, q);
    args, tag := T.NextArgs(core, p, q), last + 1;
    run' := OneMore(idle, C.Send(p, q));
    CarriesStill(core, EndOf(run').nodes[p].core, p, q, args);
  }

  lemma CarriesStill(core: T.Core, core': T.Core, p: nat, q: nat, args: AppendArgs)
    requires CarriesAll(core, p, q, args) && OnlyCalls(core, core')
    ensures CarriesAll(core', p, q, args)
  {
    var e :| HasEntry(core, args.prev, e) && e.term == args.prevTerm;
    assert HasEntry(core', args.prev, e);
    forall j | 0 <= j < |args.entries| ensures HasEntry(core', args.prev + 1 + j, args.entries[j]) {
      assert HasEntry(core, args.prev + 1 + j, args.entries[j]);
    }
  }

  /** A peer accepts a call that starts right where it matches the leader. */
  lemma AcceptsAtMatch(run: seq<C.Cluster>, p: nat, q: nat, args: AppendArgs, tag: nat)
    requires C.IsRun(run) && CanReplicate(EndOf(run), p, q)
    requires AppendRequest(q, args, tag) in EndOf(run).sent
    requires args.leader == p && args.term == EndOf(run).nodes[p].core.term
    requires q < |EndOf(run).nodes[p].core.matchIndex| && args.prev == EndOf(run).nodes[p].core.matchIndex[q]
    ensures T.OnAppend(EndOf(run).nodes[q].core, args).1.success
  {
    var full := RunRefines(run);
    var k := |run| - 1;
    FullEntry(run, full, k, p);
    FullEntry(run, full, k, q);
    HeldOverRuns(run, full, k, q);
    var a := full[k];
    assert Sim(run[k], a) && Inv(a) && MessageOk(a, AppendRequest(q, args, tag));
    FullAccepts(a, p, q, args);
    CommittedAgreesWithArgs(a, q, args, run[k].nodes[q].core);
    AppendRefinesPlain(run[k].nodes[q].core, a.peers[q], args);
  }

  lemma FullAccepts(a: P.State, p: nat, q: nat, args: AppendArgs)
    requires Inv(a) && p < |a.peers| && q < |a.peers| && p != q && a.peers[p].role.Leader? && HeldBy(a, q)
    requires SliceOk(a, args, q) && args.term == a.peers[p].term && a.peers[q].term <= args.term
    requires |a.peers[p].matched| == |a.peers| && args.prev == a.peers[p].matched[q]
    ensures P.Accepts(a.peers[q], args)
  {
    assert PeerOk(a, p) && PeerOk(a, q) && ReignOk(a, args.term);
    if args.prev > 0 {
      assert AckOk(a, (args.term, q));
      AgreeAll(a.peers[q].log, a.reigns[args.term].log, a.acks[(args.term, q)]);
    }
  }

  /** The peer handles the call: nothing but itself changes, and it is now in the leader's term. */
  lemma CallHandled(run: seq<C.Cluster>, p: nat, q: nat, args: AppendArgs, tag: nat)
    returns (run': seq<C.Cluster>, reply: AppendReply)
    requires C.IsRun(run) && CanReplicate(EndOf(run), p, q)
    requires AppendRequest(q, args, tag) in EndOf(run).sent && args.term == EndOf(run).nodes[p].core.term
    ensures C.IsRun(run') && run <= run' && CanReplicate(EndOf(run'), p, q)
    ensures OnlyNodes(EndOf(run), EndOf(run'), q, q) && EndOf(run').nodes[q].core.term == args.term
    ensures EndOf(run').nodes[q] == EndOf(run).nodes[q].(core := EndOf(run').nodes[q].core)
    ensures AppendAnswer(q, args, tag, reply) in EndOf(run').sent && reply.term == args.term
    ensures reply == T.OnAppend(EndOf(run).nodes[q].core, args).1
    ensures reply.success ==> EndOf(run').nodes[q].core.commit >= Min(args.leaderCommit, args.prev + |args.entries|)
  {
    reply := T.OnAppend(EndOf(run).nodes[q].core, args).1;
    run' := OneMore(run, C.Append(q, args, tag));
  }

  // ---------------------------------------------------------------- catching one peer up

  /** What the leader keeps while it replicates. */
  ghost predicate StillLeads(core: T.Core, core': T.Core) {
    && core'.role == core.role && core'.term == core.term && core'.log == core.log
    && core'.snapshotIndex == core.snapshotIndex && core.commit <= core'.commit
  }

  /** The effect on the leader of a call that carried everything and was accepted. */
  lemma AcceptedEffect(core: T.Core, p: nat, q: nat, args: AppendArgs, tag: nat, reply: AppendReply)
    requires core.IndexOk() && core.Sized(|core.matchIndex|) && p < |core.matchIndex| && q < |core.matchIndex| && p != q
    requires core.role.Leader? && core.term == args.term && reply.term == args.term && reply.success
    requires args.prev + |args.entries| + 1 == core.End() && core.matchIndex[q] < core.nextIndex[q] <= core.End()
    ensures var core' := T.OnAppendReply(core, p, q, args, tag, reply);
      StillLeads(core, core') && |core'.matchIndex| == |core.matchIndex| && Matches(core, core', p, q)
  {
    var last, core' := core.End() - 1, T.OnAppendReply(core, p, q, args, tag, reply);
    var landed := T.Landed(core, q, tag);
    if core.matchIndex[q] < last {
      var raised := landed.(matchIndex := core.matchIndex[q := last]);
      CommitsIfAll(raised, p);
      assert core' == T.Committing(raised, p).(nextIndex := core'.nextIndex);
    } else {
      assert core' == landed.(nextIndex := core'.nextIndex);
    }
  }

  /** When everybody has matched the leader's last entry, of its own term, it is committed. */
  lemma CommitsIfAll(core: T.Core, p: nat)
    requires core.IndexOk() && p < |core.matchIndex|
    ensures var core' := T.Committing(core, p);
      && core' == core.(commit := core'.commit) && core.commit <= core'.commit
      && (core.snapshotIndex < core.End() - 1 && LastTerm(core.log) == core.term
          && (forall r | 0 <= r < |core.matchIndex| && r != p :: core.matchIndex[r] == core.End() - 1)
          ==> core'.commit == core.End() - 1)
  {
    MajorityIndexIsLargest(core.matchIndex[p := core.End() - 1]);
  }

  /** One call and its answer: either everything is accepted, or nextIndex has come down. */
  lemma Exchange(run: seq<C.Cluster>, p: nat, q: nat) returns (run': seq<C.Cluster>, accepted: bool)
    requires C.IsRun(run) && CanReplicate(EndOf(run), p, q)
    ensures C.IsRun(run') && run <= run' && CanReplicate(EndOf(run'), p, q)
    ensures Caught(EndOf(run), EndOf(run'), p, q)
    ensures Exchanged(EndOf(run).nodes[p].core, EndOf(run').nodes[p].core, p, q, accepted)
  {
    var called, args, tag := CallOut(run, p, q);
    var handled, reply := CallHandled(called, p, q, args, tag);
    accepted := reply.success;
    if !accepted && EndOf(called).nodes[p].core.nextIndex[q] == EndOf(called).nodes[p].core.matchIndex[q] + 1 {
      AcceptsAtMatch(called, p, q, args, tag);
    }
    run' := Answered(handled, p, q, args, tag, reply);
  }

  ghost predicate Exchanged(core: T.Core, core': T.Core, p: nat, q: nat, accepted: bool) {
    && core.Sized(|core.matchIndex|) && core'.Sized(|core.matchIndex|) && q < |core.matchIndex|
    && (accepted ==> Matches(core, core', p, q))
    && (!accepted ==> core'.matchIndex == core.matchIndex && core'.nextIndex[q] < core.nextIndex[q])
  }

  /** The answer to a call that carried everything arrives. */
  lemma Answered(run: seq<C.Cluster>, p: nat, q: nat, args: AppendArgs, tag: nat, reply: AppendReply)
    returns (run': seq<C.Cluster>)
    requires C.IsRun(run) && CanReplicate(EndOf(run), p, q)
    requires AppendAnswer(q, args, tag, reply) in EndOf(run).sent && reply.term == args.term
    requires CarriesAll(EndOf(run).nodes[p].core, p, q, args) && EndOf(run).nodes[q].core.term == args.term
    requires !reply.success ==> EndOf(run).nodes[p].core.nextIndex[q] != EndOf(run).nodes[p].core.matchIndex[q] + 1
    ensures C.IsRun(run') && run <= run' && CanReplicate(EndOf(run'), p, q)
    ensures OnlyNodes(EndOf(run), EndOf(run'), p, p)
    ensures EndOf(run').nodes[p] == EndOf(run).nodes[p].(core := EndOf(run').nodes[p].core)
    ensures StillLeads(EndOf(run).nodes[p].core, EndOf(run').nodes[p].core)
    ensures Exchanged(EndOf(run).nodes[p].core, EndOf(run').nodes[p].core, p, q, reply.success)
  {
    var core := EndOf(run).nodes[p].core;
    LeaderIndices(run, |run| - 1, p, q);
    if reply.success {
      AcceptedEffect(core, p, q, args, tag, reply);
    } else {
      FastBackup(run, |run| - 1, q, args, tag, reply);
      RefusedEffect(core, p, q, args, tag, reply);
    }
    run' := OneMore(run, C.CountAck(q, args, tag, reply));
  }

  lemma RefusedEffect(core: T.Core, p: nat, q: nat, args: AppendArgs, tag: nat, reply: AppendReply)
    requires core.Sized(|core.matchIndex|) && p < |core.matchIndex| && q < |core.matchIndex| && |core.log| > 0
    requires core.role.Leader? && core.term == args.term && reply.term == args.term && !reply.success
    ensures var core' := T.OnAppendReply(core, p, q, args, tag, reply);
      StillLeads(core, core') && core'.matchIndex == core.matchIndex
  {
  }

  /** Only p and q have moved; p still leads with its log, and q is in its term. */
  ghost predicate Caught(c: C.Cluster, c': C.Cluster, p: nat, q: nat) {
    && p < |c.nodes| && q < |c.nodes| && OnlyNodes(c, c', p, q)
    && StillLeads(c.nodes[p].core, c'.nodes[p].core)
    && c'.nodes[p].applied == c.nodes[p].applied && c'.nodes[q].applied == c.nodes[q].applied
  }

  /** q has caught up with p's whole log, and if that was the last peer to do so, p has committed it. */
  ghost predicate Matches(core: T.Core, core': T.Core, p: nat, q: nat)
    requires |core.matchIndex| == |core'.matchIndex| && q < |core.matchIndex|
  {
    && |core.log| > 0 && core'.matchIndex == core.matchIndex[q := core.End() - 1]
    && (core.matchIndex[q] < core.End() - 1 && core.snapshotIndex < core.End() - 1 && LastTerm(core.log) == core.term
        && (forall r | 0 <= r < |core.matchIndex| && r != p :: core'.matchIndex[r] == core.End() - 1)
        ==> core'.commit == core.End() - 1)
  }

  /** A leader can bring any peer up to its whole log, however far behind or diverged the peer's log is. */
  lemma {:induction false} CatchUp(run: seq<C.Cluster>, p: nat, q: nat) returns (run': seq<C.Cluster>)
    requires C.IsRun(run) && CanReplicate(EndOf(run), p, q)
    ensures C.IsRun(run') && run <= run' && CanReplicate(EndOf(run'), p, q)
    ensures Caught(EndOf(run), EndOf(run'), p, q)
    ensures var core, core' := EndOf(run).nodes[p].core, EndOf(run').nodes[p].core;
      |core.matchIndex| == |core'.matchIndex| == |EndOf(run).nodes| && Matches(core, core', p, q)
    decreases EndOf(run).nodes[p].core.nextIndex[q]
  {
    var accepted;
    run', accepted := Exchange(run, p, q);
    if !accepted {
      run' := CatchUp(run', p, q);
    }
  }

  // ---------------------------------------------------------------- everybody

  /** p has a last entry of its own term; the peers below i hold its whole log and the others do not know
      of the last entry yet. Once everybody holds it, p has committed it. */
  ghost predicate Spreading(c: C.Cluster, p: nat, i: nat) {
    && C.Wellformed(c) && Leads(c, p) && Untrimmed(c) && i <= |c.nodes|
    && var core := c.nodes[p].core;
       && LastTerm(core.log) == core.term && core.End() > 1
       && (forall q | 0 <= q < |c.nodes| && q != p ::
             if q < i then core.matchIndex[q] == core.End() - 1 else core.matchIndex[q] < core.End() - 1)
       && (AllBelow(|c.nodes|, p, i) ==> core.commit == core.End() - 1)
  }

  /** Every peer of n but p is below i. */
  predicate AllBelow(n: nat, p: nat, i: nat) {
    i >= n || (p == n - 1 && i >= n - 1)
  }

  lemma SpreadOne(run: seq<C.Cluster>, p: nat, i: nat) returns (run': seq<C.Cluster>)
    requires C.IsRun(run) && Spreading(EndOf(run), p, i) && i < |EndOf(run).nodes|
    ensures C.IsRun(run') && run <= run' && Spreading(EndOf(run'), p, i + 1)
    ensures |EndOf(run').nodes| == |EndOf(run).nodes| && EndOf(run').nodes[p].core.log == EndOf(run).nodes[p].core.log
  {
    if i == p {
      run' := run;
    } else {
      run' := CatchUp(run, p, i);
      var core, core' := EndOf(run).nodes[p].core, EndOf(run').nodes[p].core;
      if AllBelow(|EndOf(run).nodes|, p, i + 1) {
        assert forall r | 0 <= r < |core.matchIndex| && r != p :: core'.matchIndex[r] == core.End() - 1;
      }
    }
  }

  lemma {:induction false} SpreadAll(run: seq<C.Cluster>, p: nat, i: nat) returns (run': seq<C.Cluster>)
    requires C.IsRun(run) && Spreading(EndOf(run), p, i)
    ensures C.IsRun(run') && run <= run' && Spreading(EndOf(run'), p, |EndOf(run).nodes|)
    ensures |EndOf(run').nodes| == |EndOf(run).nodes| && EndOf(run').nodes[p].core.log == EndOf(run).nodes[p].core.log
    decreases |EndOf(run).nodes| - i
  {
    if i == |EndOf(run).nodes| {
      run' := run;
    } else {
      var next := SpreadOne(run, p, i);
      run' := SpreadAll(next, p, i + 1);
    }
  }

  /** Everybody holds p's log, p has committed it, and the peers below i have, too. */
  ghost predicate Telling(c: C.Cluster, p: nat, i: nat) {
    && Spreading(c, p, |c.nodes|) && i <= |c.nodes|
    && forall q | 0 <= q < i :: c.nodes[q].core.commit >= c.nodes[p].core.End() - 1
  }

  lemma TellOne(run: seq<C.Cluster>, p: nat, i: nat) returns (run': seq<C.Cluster>)
    requires C.IsRun(run) && Telling(EndOf(run), p, i) && i < |EndOf(run).nodes|
    ensures C.IsRun(run') && run <= run' && Telling(EndOf(run'), p, i + 1)
    ensures |EndOf(run').nodes| == |EndOf(run).nodes| && EndOf(run').nodes[p].core.log == EndOf(run).nodes[p].core.log
  {
    if i == p {
      run' := run;
    } else {
      LeaderIndices(run, |run| - 1, p, i);
      var called, args, tag := CallOut(run, p, i);
      AcceptsAtMatch(called, p, i, args, tag);
      var reply;
      run', reply := CallHandled(called, p, i, args, tag);
    }
  }

  lemma {:induction false} TellAll(run: seq<C.Cluster>, p: nat, i: nat) returns (run': seq<C.Cluster>)
    requires C.IsRun(run) && Telling(EndOf(run), p, i)
    ensures C.IsRun(run') && run <= run' && Telling(EndOf(run'), p, |EndOf(run).nodes|)
    ensures |EndOf(run').nodes| == |EndOf(run).nodes| && EndOf(run').nodes[p].core.log == EndOf(run).nodes[p].core.log
    decreases |EndOf(run).nodes| - i
  {
    if i == |EndOf(run).nodes| {
      run' := run;
    } else {
      var next := TellOne(run, p, i);
      run' := TellAll(next, p, i + 1);
    }
  }

  // ---------------------------------------------------------------- delivery

  /** How much of its present batch a node has left to do before it can take the next one. */
  function Stage(node: C.Node): nat {
    match node.delivery
    case Idle => 1
    case Delivering(_, entries, done) => if done < |entries| then 0 else 2
  }

  /** The applier of any peer can deliver everything the peer has committed. */
  lemma {:induction false} DeliverUpTo(run: seq<C.Cluster>, r: nat, i: nat) returns (run': seq<C.Cluster>)
    requires C.IsRun(run) && r < |EndOf(run).nodes| && i <= EndOf(run).nodes[r].core.commit
    ensures C.IsRun(run') && run <= run' && |EndOf(run').nodes| == |EndOf(run).nodes|
    ensures |EndOf(run').nodes[r].applied| >= i
    ensures forall q | 0 <= q < |EndOf(run).nodes| && q != r :: EndOf(run').nodes[q] == EndOf(run).nodes[q]
    ensures EndOf(run').nodes[r].core == EndOf(run).nodes[r].core.(lastApplied := EndOf(run').nodes[r].core.lastApplied)
    decreases i - |EndOf(run).nodes[r].applied|, Stage(EndOf(run).nodes[r])
  {
    EndIsWellformed(run);
    var node := EndOf(run).nodes[r];
    ApplierAt(run, r);
    if |node.applied| >= i {
      run' := run;
    } else if node.delivery.Idle? {
      run' := OneMore(run, C.TakeBatch(r));
      run' := DeliverUpTo(run', r, i);
    } else if node.delivery.done < |node.delivery.entries| {
      run' := OneMore(run, C.Deliver(r));
      run' := DeliverUpTo(run', r, i);
    } else {
      run' := OneMore(run, C.FinishBatch(r));
      run' := DeliverUpTo(run', r, i);
    }
  }

  lemma ApplierAt(run: seq<C.Cluster>, r: nat)
    requires C.IsRun(run) && r < |EndOf(run).nodes|
    ensures var node := EndOf(run).nodes[r];
      && node.core.commit < node.core.End()
      && (node.delivery.Delivering? ==> node.delivery.done <= |node.delivery.entries|)
      && (node.delivery.Idle? ==> node.core.lastApplied == |node.applied|)
      && (node.delivery.Idle? && |node.applied| < node.core.commit ==>
            node.core.lastApplied + 1 == T.BatchStart(node.core) <= node.core.commit)
  {
    var full := RunRefines(run);
    FullEntry(run, full, |run| - 1, r);
    NoIndexFailure(run, |run| - 1, r);
  }

  lemma {:induction false} DeliverAll(run: seq<C.Cluster>, i: nat, n: nat) returns (run': seq<C.Cluster>)
    requires C.IsRun(run) && n <= |EndOf(run).nodes|
    requires forall r | 0 <= r < |EndOf(run).nodes| :: i <= EndOf(run).nodes[r].core.commit
    ensures C.IsRun(run') && run <= run' && |EndOf(run').nodes| == |EndOf(run).nodes|
    ensures forall r | 0 <= r < n :: |EndOf(run').nodes[r].applied| >= i
    ensures forall r | 0 <= r < |EndOf(run).nodes| ::
              EndOf(run').nodes[r].core == EndOf(run).nodes[r].core.(lastApplied := EndOf(run').nodes[r].core.lastApplied)
  {
    if n == 0 {
      run' := run;
    } else {
      var rest := DeliverAll(run, i, n - 1);
      run' := DeliverUpTo(rest, n - 1, i);
    }
  }

  // ---------------------------------------------------------------- a command reaches every service

  /** What anybody has committed, a leader nobody's term has passed has in its log. */
  lemma LeaderHasCommitted(run: seq<C.Cluster>, p: nat, r: nat)
    requires C.IsRun(run) && Leads(EndOf(run), p) && r < |EndOf(run).nodes|
    ensures EndOf(run).nodes[r].core.commit < EndOf(run).nodes[p].core.End()
    ensures |EndOf(run).nodes[r].applied| <= EndOf(run).nodes[r].core.commit
  {
    var full := RunRefines(run);
    var k := |run| - 1;
    FullEntry(run, full, k, p);
    FullEntry(run, full, k, r);
    var a := full[k];
    assert Inv(a);
    S.DurableInReign(a, a.peers[r].log, a.peers[r].commit, a.peers[r].term, a.peers[p].term);
  }

  lemma StartSpreads(run: seq<C.Cluster>, p: nat, command: Command) returns (run': seq<C.Cluster>)
    requires C.IsRun(run) && C.Wellformed(EndOf(run)) && Leads(EndOf(run), p) && Untrimmed(EndOf(run))
    requires |EndOf(run).nodes| > 1
    ensures C.IsRun(run') && run <= run' && |EndOf(run').nodes| == |EndOf(run).nodes| && Spreading(EndOf(run'), p, 0)
    ensures var core, core' := EndOf(run).nodes[p].core, EndOf(run').nodes[p].core;
      core'.log == core.log + [Entry(core.term, command)]
  {
    forall q: nat | q < |EndOf(run).nodes| && q != p
      ensures EndOf(run).nodes[p].core.matchIndex[q] < EndOf(run).nodes[p].core.End()
    {
      LeaderIndices(run, |run| - 1, p, q);
    }
    run' := OneMore(run, C.Start(p, command));
  }

  /** From every reachable state of more than one peer in which nobody has trimmed its log, any command can
      still be started and reach every service, as the command at one index none of them has received yet. */
  lemma CommandCanReachEveryService(run: seq<C.Cluster>, command: Command) returns (run': seq<C.Cluster>, i: nat)
    requires C.IsRun(run) && |EndOf(run).nodes| > 1 && Untrimmed(EndOf(run))
    ensures C.IsRun(run') && run <= run' && |EndOf(run').nodes| == |EndOf(run).nodes| && i > 0
    ensures forall r | 0 <= r < |EndOf(run).nodes| ::
              && |EndOf(run).nodes[r].applied| < i <= |EndOf(run').nodes[r].applied|
              && EndOf(run').nodes[r].applied[i - 1] == C.ApplyMsg(i, command)
  {
    var led, p := LeaderCanEmerge(run);
    EndIsWellformed(led);
    i := EndOf(led).nodes[p].core.End();
    forall r: nat | r < |EndOf(run).nodes| ensures |EndOf(run).nodes[r].applied| < i {
      LeaderHasCommitted(led, p, r);
    }
    var started := StartSpreads(led, p, command);
    var spread := SpreadAll(started, p, 0);
    var told := TellAll(spread, p, 0);
    run' := DeliverAll(told, i, |EndOf(told).nodes|);
    var core := EndOf(run').nodes[p].core;
    assert HasEntry(core, i, Entry(EndOf(led).nodes[p].core.term, command));
    forall r: nat | r < |EndOf(run).nodes| ensures EndOf(run').nodes[r].applied[i - 1] == C.ApplyMsg(i, command) {
      AppliedIsCommitted(run', |run'| - 1, r, |run'| - 1, p, i - 1, Entry(EndOf(led).nodes[p].core.term, command));
    }
  }
}
