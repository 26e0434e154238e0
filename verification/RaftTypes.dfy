/** Values shared by every Raft module: log entries, RPC arguments and replies, and messages. */
module RaftTypes {

  /** The `any` that a service hands to Start; the sentinel entry at index 0 carries none. */
  datatype Command = NoCommand | Command(payload: string)

  datatype Entry = Entry(term: nat, command: Command)

  datatype Role = Candidate | Follower | Leader

  /** The value of `votedFor` before any vote in the current term. */
  const NO_VOTE := -1

  /** The value of an unused conflict hint. */
  const NO_HINT := -1

  const SENTINEL := Entry(0, NoCommand)

  datatype VoteArgs = VoteArgs(term: nat, candidate: nat, lastIndex: nat, lastTerm: nat)

  datatype VoteReply = VoteReply(term: nat, granted: bool)

  datatype AppendArgs = AppendArgs(term: nat, leader: nat, prev: nat, prevTerm: nat,
                                   entries: seq<Entry>, leaderCommit: nat)

  datatype AppendReply = AppendReply(term: nat, success: bool, conflictTerm: int,
                                     conflictIndex: int, conflictLen: int)

  /** A reply travels together with the arguments of the call it answers, because the
      goroutine that made the call still holds them. `tag` is the sender's sequence number. */
  datatype Message =
    | VoteRequest(to: nat, ballot: VoteArgs)
    | VoteAnswer(voter: nat, ballot: VoteArgs, verdict: VoteReply)
    | AppendRequest(to: nat, args: AppendArgs, tag: nat)
    | AppendAnswer(follower: nat, args: AppendArgs, tag: nat, reply: AppendReply)

  function LastTerm(log: seq<Entry>): nat
    requires |log| > 0
  {
    log[|log| - 1].term
  }

  function Max(a: int, b: int): int { if a < b then b else a }

  function Min(a: int, b: int): int { if a < b then a else b }

  /** The candidate's log is at least as complete as one ending in (lastTerm, lastIndex). */
  predicate UpToDate(args: VoteArgs, lastTerm: nat, lastIndex: nat) {
    args.lastTerm > lastTerm || (args.lastTerm == lastTerm && args.lastIndex >= lastIndex)
  }

  /** Keep what agrees; from the first disagreement on, or past the end, take the leader's entries. */
  function Merge(log: seq<Entry>, at: nat, entries: seq<Entry>): seq<Entry>
    requires at < |log|
    decreases |entries|
  {
    if entries == [] then log
    else if at + 1 < |log| && log[at + 1].term == entries[0].term then Merge(log, at + 1, entries[1..])
    else log[..at + 1] + entries
  }

  /** The RequestVote calls of one election. */
  ghost function VoteRequests(n: nat, me: nat, args: VoteArgs): set<Message> {
    set q: nat | q < n && q != me :: VoteRequest(q, args)
  }
}
