/** What the invariant means: log matching, leader completeness and state
    machine safety, each in a single state. */
module RaftSafety {
  import opened RaftTypes
  import opened RaftQuorum
  import opened RaftProtocol
  import opened RaftInvariant

  /** Log matching for any two logs of the system: the same term at the same index means the
      same entries up to and including that index. */
  lemma LogsMatch(s: State, a: seq<Entry>, b: seq<Entry>, i: nat)
    requires GoodLog(s, a) && GoodLog(s, b)
    requires i < |a| && i < |b| && a[i].term == b[i].term
    ensures a[..i + 1] == b[..i + 1]
  {
    assert Grounded(s, a, i) && Grounded(s, b, i);
  }

  /** A whole log is a prefix of the log of the leader of its last term. */
  lemma LogIsPrefix(s: State, l: seq<Entry>)
    requires GoodLog(s, l)
    ensures LastTerm(l) in s.reigns && |l| <= |s.reigns[LastTerm(l)].log|
    ensures s.reigns[LastTerm(l)].log[..|l|] == l
  {
    assert Grounded(s, l, |l| - 1);
    assert l[..|l|] == l;
  }

  /** A candidate whose log is up to date with a voter's log holds what the voter holds. */
  lemma UpToDateHolds(s: State, bid: seq<Entry>, l: seq<Entry>, t: nat, i: nat, u: nat)
    requires ReignsOk(s)
    requires GoodLog(s, bid) && GoodLog(s, l) && LastTerm(bid) < u
    requires t in s.reigns && i < |s.reigns[t].log| && s.reigns[t].log[i].term == t
    requires Passed(s, t, i, u) && Holds(s, l, t, i)
    requires LastTerm(bid) > LastTerm(l) || (LastTerm(bid) == LastTerm(l) && |bid| >= |l|)
    ensures Holds(s, bid, t, i)
  {
    LogIsPrefix(s, bid);
    LogIsPrefix(s, l);
    assert l[..i + 1][i] == s.reigns[t].log[..i + 1][i];
    assert l[i].term == t;
    var b := LastTerm(bid);
    var log := s.reigns[b].log;
    if b == LastTerm(l) {
      assert bid[..i + 1] == log[..i + 1] == l[..i + 1];
    } else {
      assert Holds(s, log, t, i);
      assert log[..i + 1][i] == s.reigns[t].log[..i + 1][i];
      assert ReignOk(s, b);
      assert log[|bid| - 1] == log[..|bid|][|bid| - 1];
      assert bid[..i + 1] == log[..i + 1];
    }
  }

  /** Leader completeness: an entry on a commit quorum of its own term is in the log of every
      leader of a later term. */
  lemma {:induction false} LeaderCompleteness(s: State, t: nat, i: nat, u: nat)
    requires Inv(s) && Chosen(s, t, i) && u in s.reigns && t < u
    ensures Holds(s, s.reigns[u].log, t, i)
    decreases u
  {
    forall x | t < x < u && x in s.reigns ensures Holds(s, s.reigns[x].log, t, i) {
      LeaderCompleteness(s, t, i, x);
    }
    assert ReignOk(s, u);
    var g := s.reigns[u];
    var v := QuorumsMeet(|s.peers|, Ackers(s, t, i), g.voters);
    assert BallotOk(s, (u, v));
    assert AckedOwn(s, t, v, i);
    assert Holds(s, s.bids[(u, g.leader)], t, i);
    assert g.log[..i + 1] == g.log[..g.base][..i + 1];
  }

  /** The committed part of any log is in the log of every leader that may still speak to it. */
  lemma DurableInReign(s: State, l: seq<Entry>, k: nat, bound: nat, u: nat)
    requires Inv(s) && GoodLog(s, l) && Durable(s, l, k, bound) && bound <= u && u in s.reigns
    ensures k < |s.reigns[u].log| && s.reigns[u].log[..k + 1] == l[..k + 1]
  {
    assert ReignOk(s, u);
    var log := s.reigns[u].log;
    if k == 0 {
      assert log[..1] == [SENTINEL] == l[..1];
    } else {
      var t: nat, i: nat :| t <= bound && ChosenPrefix(s, l, k, t, i);
      if t < u {
        LeaderCompleteness(s, t, i, u);
        assert log[..k + 1] == log[..i + 1][..k + 1];
        assert s.reigns[t].log[..k + 1] == s.reigns[t].log[..i + 1][..k + 1];
      }
    }
  }

  /** Two committed prefixes never disagree. */
  lemma DurablesAgree(s: State, a: seq<Entry>, j: nat, x: nat, b: seq<Entry>, k: nat, y: nat)
    requires Inv(s) && GoodLog(s, a) && GoodLog(s, b)
    requires Durable(s, a, j, x) && Durable(s, b, k, y) && j <= k
    ensures a[..j + 1] == b[..j + 1]
  {
    if j == 0 {
      assert a[..1] == [SENTINEL] == b[..1];
    } else {
      var t: nat, i: nat :| t <= x && ChosenPrefix(s, a, j, t, i);
      var u: nat, m: nat :| u <= y && ChosenPrefix(s, b, k, u, m);
      var r, q := s.reigns[t].log, s.reigns[u].log;
      if t < u {
        LeaderCompleteness(s, t, i, u);
        assert q[..j + 1] == q[..i + 1][..j + 1] == r[..i + 1][..j + 1] == r[..j + 1];
      } else if u < t {
        LeaderCompleteness(s, u, m, t);
        assert r[..j + 1] == r[..m + 1][..j + 1] == q[..m + 1][..j + 1] == q[..j + 1];
      }
      assert b[..j + 1] == b[..k + 1][..j + 1] == q[..k + 1][..j + 1] == q[..j + 1];
    }
  }

  /** State machine safety (section 5.4.3 of the Raft paper). */
  lemma CommittedAgree(s: State, p: nat, q: nat, i: nat)
    requires Inv(s) && p < |s.peers| && q < |s.peers|
    requires i <= s.peers[p].commit && i <= s.peers[q].commit
    ensures i < |s.peers[p].log| && i < |s.peers[q].log|
    ensures s.peers[p].log[i] == s.peers[q].log[i]
  {
    assert PeerOk(s, p) && PeerOk(s, q);
    var a, b := s.peers[p], s.peers[q];
    if a.commit <= b.commit {
      DurablesAgree(s, a.log, a.commit, a.term, b.log, b.commit, b.term);
      assert a.log[..a.commit + 1][i] == b.log[..a.commit + 1][i];
    } else {
      DurablesAgree(s, b.log, b.commit, b.term, a.log, a.commit, a.term);
      assert a.log[..b.commit + 1][i] == b.log[..b.commit + 1][i];
    }
  }
}
