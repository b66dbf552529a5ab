/** Log repair: a leader whose log stands still brings a follower's log to contain its own, exactly when
    the follower can decode the request that would be accepted. */
module RaftRepair {
  import opened RaftServer
  import opened RaftCodec
  import opened RaftLogs
  import opened RaftCluster
  import I = RaftLogInv
  import F = RaftFollowerSteps
  import S = RaftSafety

  datatype Pair = Pair(leader: Server, follower: Server)

  /** Peer has a next index. */
  predicate Tracks(s: Server, peer: NodeId) { peer in s.nextIndex && s.nextIndex[peer] >= 1 }

  /** The leader's part of an exchange, given the reply. */
  function Answered(s: Server, me: NodeId, peer: NodeId, clusterSize: nat, reply: AppendReply): Server
    requires Tracks(s, peer)
  {
    var args := Replicate(s, me, peer);
    HandleAppendReply(s, clusterSize, peer, args.prevLogIndex + 1, |args.entries|, reply)
  }

  /** One replicateTo towards a follower: the bytes of the request, the handler, the answer. */
  function Exchange(p: Pair, me: NodeId, peer: NodeId, clusterSize: nat): Pair
    requires Tracks(p.leader, peer)
  {
    var (f, reply) := HandleAppendData(p.follower, ArgsBytes(Replicate(p.leader, me, peer)));
    Pair(Answered(p.leader, me, peer, clusterSize, reply), f)
  }

  predicate Succeeds(p: Pair, me: NodeId, peer: NodeId)
    requires Tracks(p.leader, peer)
  {
    HandleAppendData(p.follower, ArgsBytes(Replicate(p.leader, me, peer))).1.success
  }

  /** The same exchange if requests had no size limit. */
  function Unlimited(p: Pair, me: NodeId, peer: NodeId, clusterSize: nat): Pair
    requires Tracks(p.leader, peer)
  {
    var (f, reply) := HandleAppendEntries(p.follower, Replicate(p.leader, me, peer));
    Pair(Answered(p.leader, me, peer, clusterSize, reply), f)
  }

  predicate Accepts(p: Pair, me: NodeId, peer: NodeId)
    requires Tracks(p.leader, peer)
  {
    HandleAppendEntries(p.follower, Replicate(p.leader, me, peer)).1.success
  }

  /** Real entries carry real terms: only the sentinel has term 0. */
  ghost predicate Stamped(log: Log) {
    log[0] == Sentinel && forall k :: 1 <= k < |log| ==> log[k].term >= 1
  }

  /** The leader's numbers are Go's uint64, and each of its entries fits a 32-bit length. */
  ghost predicate Sendable(s: Server, me: NodeId) {
    && me < UINT64 && s.term < UINT64 && |s.log| < UINT64 && s.commitIndex < UINT64
    && forall k :: 0 <= k < |s.log| ==> EntryTyped(s.log[k]) && 21 + |s.log[k].command| < UINT32
  }

  /** The follower is not ahead in term, and the two logs satisfy log matching. */
  ghost predicate Repairable(p: Pair, me: NodeId, peer: NodeId) {
    && Sendable(p.leader, me)
    && p.follower.term <= p.leader.term
    && Stamped(p.leader.log) && Stamped(p.follower.log)
    && Matching(p.follower.log, p.leader.log)
    && Tracks(p.leader, peer) && p.leader.nextIndex[peer] <= |p.leader.log|
  }

  /** The follower holds the whole leader log, and the leader knows it. */
  ghost predicate Repaired(p: Pair, peer: NodeId) {
    && Extends(p.leader.log, p.follower.log)
    && peer in p.leader.matchIndex && p.leader.matchIndex[peer] == LastIndex(p.leader.log)
    && peer in p.leader.nextIndex && p.leader.nextIndex[peer] == |p.leader.log|
  }

  /** How many entries the next request carries. */
  function Tail(p: Pair, peer: NodeId): int
    requires peer in p.leader.nextIndex
  {
    |p.leader.log| - p.leader.nextIndex[peer]
  }

  lemma TailFrom(log: Log, next: nat)
    requires 1 <= next <= |log|
    ensures GetFrom(log, next) == log[next..|log|] && |GetFrom(log, next)| == |log| - next
  {
  }

  // -------------------------------------------------------------- without the limit

  lemma AcceptanceRepairs(p: Pair, me: NodeId, peer: NodeId, n: nat)
    requires Repairable(p, me, peer) && Accepts(p, me, peer)
    ensures Repaired(Unlimited(p, me, peer, n), peer)
    ensures var q := Unlimited(p, me, peer, n);
            q.leader.log == p.leader.log && q.leader.term == p.leader.term == q.follower.term
  {
    hide AppendNew, CommitSearch, Sendable;
    var next := p.leader.nextIndex[peer];
    var L, f := p.leader.log, p.follower.log;
    TailFrom(L, next);
    assert Agree(f, L, next - 1);
    AppendMerges(f, L, next, |L|);
  }

  lemma RejectionBacksOff(p: Pair, me: NodeId, peer: NodeId, n: nat)
    requires Repairable(p, me, peer) && !Accepts(p, me, peer)
    ensures var q := Unlimited(p, me, peer, n);
            && Repairable(q, me, peer)
            && q.leader.nextIndex[peer] < p.leader.nextIndex[peer]
            && q.leader == p.leader.(nextIndex := q.leader.nextIndex)
            && q.follower.log == p.follower.log
  {
    hide Sendable;
    var prev := p.leader.nextIndex[peer] - 1;
    if prev <= LastIndex(p.follower.log) {
      F.ConflictIndexBounds(p.follower.log, prev, TermAt(p.follower.log, prev));
    }
    SendableCommit(p.leader, me);
    SameSendable(p.leader, me, Unlimited(p, me, peer, n).leader);
  }

  lemma SameSendable(s: Server, me: NodeId, s': Server)
    requires Sendable(s, me) && s'.log == s.log && s'.term == s.term && s'.commitIndex < UINT64
    ensures Sendable(s', me)
  {
  }

  /** The next index at which a request is accepted if there is no limit. */
  ghost function AcceptedAt(p: Pair, me: NodeId, peer: NodeId, n: nat): (next: nat)
    requires Repairable(p, me, peer)
    ensures 1 <= next <= p.leader.nextIndex[peer]
    decreases p.leader.nextIndex[peer]
  {
    if Accepts(p, me, peer) then p.leader.nextIndex[peer]
    else
      RejectionBacksOff(p, me, peer, n);
      AcceptedAt(Unlimited(p, me, peer, n), me, peer, n)
  }

  /** Below that index the logs agree. */
  lemma {:induction false} AcceptedAgrees(p: Pair, me: NodeId, peer: NodeId, n: nat)
    requires Repairable(p, me, peer)
    ensures Agree(p.follower.log, p.leader.log, AcceptedAt(p, me, peer, n) - 1)
    decreases p.leader.nextIndex[peer]
  {
    hide Sendable, Unlimited;
    if !Accepts(p, me, peer) {
      RejectionBacksOff(p, me, peer, n);
      AcceptedAgrees(Unlimited(p, me, peer, n), me, peer, n);
    }
  }

  // ------------------------------------------------------------------ with the limit

  lemma RequestTyped(p: Pair, me: NodeId, peer: NodeId)
    requires Repairable(p, me, peer)
    ensures var a := Replicate(p.leader, me, peer);
            ArgsTyped(a) && EntriesFit(a.entries) && |a.entries| == Tail(p, peer)
  {
    hide Stamped, Matching, EntryTyped;
    var next := p.leader.nextIndex[peer];
    TailFrom(p.leader.log, next);
    var a := Replicate(p.leader, me, peer);
    assert forall k :: 0 <= k < |a.entries| ==> a.entries[k] == p.leader.log[next + k];
    assert EntryTyped(p.leader.log[next - 1]);
    TypedTerm(p.leader.log[next - 1]);
  }

  lemma TypedTerm(e: LogEntry)
    requires EntryTyped(e)
    ensures e.term < UINT64
  {
  }

  /** A request within the limit is as good as one without. */
  lemma WithinLimit(p: Pair, me: NodeId, peer: NodeId, n: nat)
    requires Repairable(p, me, peer) && Tail(p, peer) <= MAX_ENTRIES
    ensures Exchange(p, me, peer, n) == Unlimited(p, me, peer, n)
    ensures Succeeds(p, me, peer) == Accepts(p, me, peer)
  {
    hide Sendable, Matching, Stamped, ArgsBytes, HandleAppendData, HandleAppendEntries;
    RequestTyped(p, me, peer);
    SentIsReceived(p.follower, Replicate(p.leader, me, peer));
  }

  /** A request beyond it changes nothing but the next index, which makes the next request longer. */
  lemma BeyondLimit(p: Pair, me: NodeId, peer: NodeId, n: nat)
    requires Repairable(p, me, peer) && Tail(p, peer) > MAX_ENTRIES
    ensures !Succeeds(p, me, peer)
    ensures var q := Exchange(p, me, peer, n);
            var next := p.leader.nextIndex[peer];
            && q.follower == p.follower
            && q.leader == p.leader.(nextIndex := p.leader.nextIndex[peer := if next > 1 then next - 1 else next])
            && Repairable(q, me, peer)
  {
    hide ArgsBytes, HandleAppendData, HandleAppendEntries, Sendable, Matching, Stamped;
    RequestTyped(p, me, peer);
    SentIsReceived(p.follower, Replicate(p.leader, me, peer));
    var q := Exchange(p, me, peer, n);
    if p.leader.nextIndex[peer] == 1 {
      assert p.leader.nextIndex[peer := 1] == p.leader.nextIndex;
    }
    SendableCommit(p.leader, me);
    SameSendable(p.leader, me, q.leader);
  }

  lemma SendableCommit(s: Server, me: NodeId)
    requires Sendable(s, me)
    ensures s.commitIndex < UINT64
  {
  }

  /** An accepted exchange brings the follower's log to extend the leader's, and the leader knows it. */
  lemma SuccessRepairs(p: Pair, me: NodeId, peer: NodeId, n: nat)
    requires Repairable(p, me, peer) && Succeeds(p, me, peer)
    ensures var q := Exchange(p, me, peer, n);
            Repaired(q, peer) && q.leader.log == p.leader.log
  {
    hide Exchange, Unlimited, Succeeds, Accepts, Repaired, Sendable, Matching, Stamped;
    if Tail(p, peer) > MAX_ENTRIES {
      BeyondLimit(p, me, peer, n);
    } else {
      WithinLimit(p, me, peer, n);
      AcceptanceRepairs(p, me, peer, n);
    }
  }

  /** A failed exchange leaves both logs and the match indexes alone. It strictly lowers nextIndex, never
      below 1, unless the request is too long to decode and already starts at 1. */
  lemma FailureBacksOff(p: Pair, me: NodeId, peer: NodeId, n: nat)
    requires Repairable(p, me, peer) && !Succeeds(p, me, peer)
    ensures var q := Exchange(p, me, peer, n);
            && Repairable(q, me, peer)
            && q.leader == p.leader.(nextIndex := q.leader.nextIndex) && q.follower.log == p.follower.log
            && (q.leader.nextIndex[peer] < p.leader.nextIndex[peer] ||
                (q == p && p.leader.nextIndex[peer] == 1 && Tail(p, peer) > MAX_ENTRIES))
  {
    hide Exchange, Unlimited, Succeeds, Accepts, Sendable, Matching, Stamped;
    if Tail(p, peer) > MAX_ENTRIES {
      BeyondLimit(p, me, peer, n);
      assert p.leader.nextIndex[peer] == 1 ==> p.leader.nextIndex[peer := 1] == p.leader.nextIndex;
    } else {
      WithinLimit(p, me, peer, n);
      RejectionBacksOff(p, me, peer, n);
    }
  }

  /** The pair after at most so many exchanges, up to the first that succeeds. */
  ghost function After(p: Pair, me: NodeId, peer: NodeId, n: nat, rounds: nat): Pair
    requires Repairable(p, me, peer)
    decreases rounds
  {
    if rounds == 0 then p
    else if Succeeds(p, me, peer) then Exchange(p, me, peer, n)
    else
      FailureBacksOff(p, me, peer, n);
      After(Exchange(p, me, peer, n), me, peer, n, rounds - 1)
  }

  /** Once a request is beyond the limit repair never ends: the follower and the match indexes stay as
      they are and every later request is beyond the limit too. */
  lemma {:induction false} NeverEnds(p: Pair, me: NodeId, peer: NodeId, n: nat, rounds: nat)
    requires Repairable(p, me, peer) && Tail(p, peer) > MAX_ENTRIES
    ensures var q := After(p, me, peer, n, rounds);
            && q.follower == p.follower && q.leader == p.leader.(nextIndex := q.leader.nextIndex)
            && peer in q.leader.nextIndex && Tail(q, peer) > MAX_ENTRIES && !Repaired(q, peer)
    decreases rounds
  {
    hide Exchange, Succeeds, Sendable, Matching, Stamped;
    if rounds > 0 {
      BeyondLimit(p, me, peer, n);
      NeverEnds(Exchange(p, me, peer, n), me, peer, n, rounds - 1);
    }
  }

  /** The request that would be accepted without a limit is within it. */
  ghost predicate Reaches(p: Pair, me: NodeId, peer: NodeId, n: nat)
    requires Repairable(p, me, peer)
  {
    |p.leader.log| - AcceptedAt(p, me, peer, n) <= MAX_ENTRIES
  }

  lemma {:induction false} RepairEnds(p: Pair, me: NodeId, peer: NodeId, n: nat, rounds: nat)
    requires Repairable(p, me, peer) && Reaches(p, me, peer, n) && rounds >= p.leader.nextIndex[peer]
    ensures var q := After(p, me, peer, n, rounds);
            Repaired(q, peer) && q.leader.log == p.leader.log
    decreases rounds
  {
    hide Exchange, Unlimited, Succeeds, Accepts, Sendable, Matching, Stamped, Repaired;
    WithinLimit(p, me, peer, n);
    if Succeeds(p, me, peer) {
      SuccessRepairs(p, me, peer, n);
    } else {
      RejectionBacksOff(p, me, peer, n);
      RepairEnds(Exchange(p, me, peer, n), me, peer, n, rounds - 1);
    }
  }

  lemma {:induction false} RepairFails(p: Pair, me: NodeId, peer: NodeId, n: nat, rounds: nat)
    requires Repairable(p, me, peer) && !Reaches(p, me, peer, n)
    ensures !Repaired(After(p, me, peer, n, rounds), peer)
    decreases rounds
  {
    hide Exchange, Unlimited, Succeeds, Accepts, Sendable, Matching, Stamped;
    if Tail(p, peer) > MAX_ENTRIES {
      NeverEnds(p, me, peer, n, rounds);
    } else if rounds == 0 {
      NotYet(p, me, peer, n);
    } else {
      WithinLimit(p, me, peer, n);
      if !Accepts(p, me, peer) {
        RejectionBacksOff(p, me, peer, n);
        RepairFails(Exchange(p, me, peer, n), me, peer, n, rounds - 1);
      }
    }
  }

  /** A follower that already extends the leader's log would accept the next request. */
  lemma NotYet(p: Pair, me: NodeId, peer: NodeId, n: nat)
    requires Repairable(p, me, peer) && !Reaches(p, me, peer, n)
    ensures !Repaired(p, peer)
  {
    hide Unlimited, Sendable;
  }

  /** Repair converges, within nextIndex exchanges, if and only if the request that would be accepted
      without a limit carries at most 10000 entries. */
  lemma RepairConverges(p: Pair, me: NodeId, peer: NodeId, n: nat)
    requires Repairable(p, me, peer)
    ensures (exists rounds :: Repaired(After(p, me, peer, n, rounds), peer)) <==> Reaches(p, me, peer, n)
    ensures Reaches(p, me, peer, n) ==>
              var q := After(p, me, peer, n, p.leader.nextIndex[peer]);
              Repaired(q, peer) && q.leader.log == p.leader.log
  {
    hide Repairable, Repaired, Reaches, After;
    if Reaches(p, me, peer, n) {
      assert peer in p.leader.nextIndex by { Tracked(p, me, peer); }
      RepairEnds(p, me, peer, n, p.leader.nextIndex[peer]);
    } else {
      forall rounds: nat ensures !Repaired(After(p, me, peer, n, rounds), peer) {
        RepairFails(p, me, peer, n, rounds);
      }
    }
  }

  lemma Tracked(p: Pair, me: NodeId, peer: NodeId)
    requires Repairable(p, me, peer)
    ensures Tracks(p.leader, peer)
  {
  }

  // ------------------------------------------------------- what a caller can check

  /** A leader log of at most 10000 entries is always enough. */
  lemma ShortLogReaches(p: Pair, me: NodeId, peer: NodeId, n: nat)
    requires Repairable(p, me, peer) && LastIndex(p.leader.log) <= MAX_ENTRIES
    ensures Reaches(p, me, peer, n)
  {
    hide Repairable;
    assert AcceptedAt(p, me, peer, n) >= 1;
  }

  /** A follower that lacks one of the leader's entries further back than the last 10000 is never
      repaired. */
  lemma LackingTooMany(p: Pair, me: NodeId, peer: NodeId, n: nat)
    requires Repairable(p, me, peer) && LastIndex(p.leader.log) > MAX_ENTRIES
    requires !Agree(p.follower.log, p.leader.log, LastIndex(p.leader.log) - MAX_ENTRIES)
    ensures !Reaches(p, me, peer, n)
  {
    hide Repairable, AcceptedAt;
    AcceptedAgrees(p, me, peer, n);
  }

  /** A leader of term 1 with so many no-ops, and what it knows of follower 2. */
  ghost function Ahead(entries: nat, next: nat): Server {
    NewServer().(term := 1, role := Leader, nextIndex := map[2 := next], matchIndex := map[2 := 0],
                 log := [Sentinel] + seq(entries, (i: nat) => LogEntry(i + 1, 1, ENTRY_NOOP, [])))
  }

  /** The first leader to append 10001 entries before a follower has any never gets it to have one. */
  lemma StuckFollower(next: nat, n: nat, rounds: nat)
    requires 1 <= next <= 10002
    ensures var p := Pair(Ahead(10001, next), NewServer());
            Repairable(p, 1, 2) && !Repaired(After(p, 1, 2, n, rounds), 2)
  {
    var p := Pair(Ahead(10001, next), NewServer());
    assert Repairable(p, 1, 2);
    hide Repairable, After, Reaches, Repaired;
    LackingTooMany(p, 1, 2, n);
    RepairFails(p, 1, 2, n, rounds);
  }

  lemma RunRepairable(states: seq<Cluster>, actions: seq<Action>, k: nat, i: NodeId, peer: NodeId)
    requires IsRun(states, actions) && CleanRestarts(states, actions) && k < |states|
    requires i in states[k].nodes && states[k].nodes[i].role.Leader? && peer in Peers(states[k], i)
    requires states[k].nodes[peer].term <= states[k].nodes[i].term && Sendable(states[k].nodes[i], i)
    ensures Repairable(Pair(states[k].nodes[i], states[k].nodes[peer]), i, peer)
  {
    hide I.HistoryOk, I.MessageOk, I.Backed, I.PastOk, I.LogOk, Sendable, Stamped, Matching, IsRun, CleanRestarts;
    var c := states[k];
    S.Reachable(states, actions, k);
    S.LogMatching(states, actions, k, k, peer, i);
    assert I.ServerOk(c, i, c.nodes[i]) && I.ServerOk(c, peer, c.nodes[peer]);
    LogOkStamped(c.hist, c.nodes[i].log);
    LogOkStamped(c.hist, c.nodes[peer].log);
  }

  /** Every leader of every run can repair every follower that is not ahead in term, as far as requests
      reach. */
  lemma ReachableRepairable(states: seq<Cluster>, actions: seq<Action>, k: nat, i: NodeId, peer: NodeId)
    requires IsRun(states, actions) && CleanRestarts(states, actions) && k < |states|
    requires i in states[k].nodes && states[k].nodes[i].role.Leader? && peer in Peers(states[k], i)
    requires states[k].nodes[peer].term <= states[k].nodes[i].term && Sendable(states[k].nodes[i], i)
    ensures var p := Pair(states[k].nodes[i], states[k].nodes[peer]);
            && Repairable(p, i, peer)
            && (LastIndex(p.leader.log) <= MAX_ENTRIES ==>
                  Repaired(After(p, i, peer, Size(states[k]), p.leader.nextIndex[peer]), peer))
  {
    hide IsRun, CleanRestarts, Sendable, Stamped, Matching, Repaired, After;
    RunRepairable(states, actions, k, i, peer);
    var p := Pair(states[k].nodes[i], states[k].nodes[peer]);
    if LastIndex(p.leader.log) <= MAX_ENTRIES {
      ShortLogReaches(p, i, peer, Size(states[k]));
      RepairConverges(p, i, peer, Size(states[k]));
    }
  }

  lemma LogOkStamped(h: History, log: Log)
    requires I.LogOk(h, log)
    ensures Stamped(log)
  {
    forall k | 1 <= k < |log| ensures log[k].term >= 1 { assert I.EntryOk(h, log, k); }
  }
}
