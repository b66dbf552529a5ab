/** A follower's handling of AppendEntries keeps the log invariant. */
module RaftFollowerSteps {
  import opened RaftServer
  import opened RaftCluster
  import opened RaftLogs
  import opened RaftLogInv
  import opened RaftLogFrame
  import opened RaftLogSteps
  import E = RaftElection

  // ------------------------------------------------------------------ the merge

  lemma PrefixLogOk(h: History, L: Log, n: nat)
    requires LogOk(h, L) && 1 <= n <= |L|
    ensures LogOk(h, L[..n])
  {
    forall k | 1 <= k < n ensures EntryOk(h, L[..n], k) {
      assert EntryOk(h, L, k);
    }
  }

  /** How the follower's new log r relates to its old log and to the leader's log L. */
  ghost predicate Merged(log: Log, L: Log, n: nat, r: Log) {
    && 1 <= n <= |L|
    && Agree(r, L, n - 1)
    && (r == log || r == L[..n])
    && forall k: nat :: Agree(log, L, k) ==> Agree(r, L, k)
  }

  lemma PrevAgrees(h: History, log: Log, L: Log, a: AppendArgs)
    requires LogOk(h, log) && LogOk(h, L) && PrevMatches(log, a)
    requires a.prevLogIndex < |L| && a.prevLogTerm == L[a.prevLogIndex].term
    ensures Agree(log, L, a.prevLogIndex)
  {
    if a.prevLogIndex > 0 { SameTermAgrees(h, log, L, a.prevLogIndex); }
  }

  lemma LeaderLogOk(h: History, t: nat)
    requires TermsOk(h) && t in h.elected
    ensures LogOk(h, h.leaderLogs[t])
  {
    assert TermOk(h, t, h.elected[t], h.leaderLogs[t]);
  }

  lemma AcceptMerges(h: History, log: Log, a: AppendArgs)
    requires TermsOk(h) && LogOk(h, log) && AppendOk(h, a) && PrevMatches(log, a)
    ensures var n := a.prevLogIndex + 1 + |a.entries|;
            Merged(log, h.leaderLogs[a.term], n, AppendNew(log, a.prevLogIndex + 1, a.entries))
  {
    hide LogOk, TermOk, AppendNew, Matching, Agree, Backed, PrevMatches;
    var L := h.leaderLogs[a.term];
    LeaderLogOk(h, a.term);
    LogsMatch(h, log, L);
    PrevAgrees(h, log, L, a);
    AppendMerges(log, L, a.prevLogIndex + 1, a.prevLogIndex + 1 + |a.entries|);
  }

  lemma MergedLogOk(h: History, log: Log, a: AppendArgs, n: nat, r: Log)
    requires TermsOk(h) && LogOk(h, log) && a.term in h.elected && LastTerm(log) <= a.term
    requires Merged(log, h.leaderLogs[a.term], n, r)
    ensures LogOk(h, r) && LastTerm(r) <= a.term
  {
    var L := h.leaderLogs[a.term];
    assert TermOk(h, a.term, h.elected[a.term], L);
    PrefixLogOk(h, L, n);
    assert L[n - 1].term <= LastTerm(L) == a.term;
  }

  // -------------------------------------------------------- committed stays put

  lemma LeaderExtends(h: History, t: nat)
    requires TermsOk(h) && t in h.elected
    ensures Extends(h.elected[t].log, h.leaderLogs[t])
  {
    assert TermOk(h, t, h.elected[t], h.leaderLogs[t]);
  }

  /** What some leader committed in an earlier or the same term is in this leader's log. */
  lemma CommittedInLeader(c: Cluster, m: Commit, t: nat)
    requires E.ElectionsOk(c) && HistoryOk(c) && m in c.hist.commits && m.term <= t && t in c.hist.elected
    ensures m.term in c.hist.leaderLogs && t in c.hist.leaderLogs
    ensures Agree(c.hist.leaderLogs[m.term], c.hist.leaderLogs[t], m.index)
  {
    hide BallotOk, CandidaciesOk, TermOk, E.ElectionsOk, Acked, Quorum;
    assert CommitOk(c, m);
    var q :| QuorumAcked(c, m.term, m.index, q);
    if m.term < t {
      Completeness(c, m.term, m.index, q, t);
      LeaderExtends(c.hist, t);
    }
  }

  lemma BackedInLeader(c: Cluster, log: Log, s: nat, k: nat, t: nat)
    requires E.ElectionsOk(c) && HistoryOk(c) && Backed(c.hist, s, k, log) && s <= t && t in c.hist.elected
    requires LogOk(c.hist, log) && k < |log|
    ensures t in c.hist.leaderLogs && Agree(log, c.hist.leaderLogs[t], k)
  {
    assert TermOk(c.hist, t, c.hist.elected[t], c.hist.leaderLogs[t]);
    if k > 0 {
      var m :| m in c.hist.commits && m.term <= s && k <= m.index &&
               m.term in c.hist.leaderLogs && Agree(c.hist.leaderLogs[m.term], log, k);
      CommittedInLeader(c, m, t);
    }
  }

  lemma BackedTransfers(h: History, t: nat, t': nat, k: nat, a: Log, b: Log)
    requires Backed(h, t, k, a) && Agree(a, b, k) && t <= t'
    ensures Backed(h, t', k, b)
  {
    if k > 0 {
      var m :| m in h.commits && m.term <= t && k <= m.index &&
               m.term in h.leaderLogs && Agree(h.leaderLogs[m.term], a, k);
      AgreeTrans(h.leaderLogs[m.term], a, b, k);
    }
  }

  /** The clamp never commits anything but what the leader had: the log reaches leaderCommit, and
      neither index is taken back. */
  lemma AcceptCommits(c: Cluster, s: Server, a: AppendArgs)
    requires E.ElectionsOk(c) && HistoryOk(c) && AppendOk(c.hist, a) && s.term <= a.term
    requires LogOk(c.hist, s.log) && s.commitIndex < |s.log| && Backed(c.hist, s.term, s.commitIndex, s.log)
    requires Merged(s.log, c.hist.leaderLogs[a.term], a.prevLogIndex + 1 + |a.entries|, Accept(s, a).log)
    ensures var s' := Accept(s, a);
            && s.commitIndex <= s'.commitIndex < |s'.log|
            && s'.commitIndex == (if a.leaderCommit > s.commitIndex then a.leaderCommit else s.commitIndex)
            && Backed(c.hist, a.term, s'.commitIndex, s'.log)
            && Agree(s.log, s'.log, s.commitIndex)
  {
    hide HistoryOk, E.ElectionsOk, LogOk, AppendNew, Backed;
    var L := c.hist.leaderLogs[a.term];
    var s' := Accept(s, a);
    BackedInLeader(c, s.log, s.term, s.commitIndex, a.term);
    AgreeTrans(s.log, L, s'.log, s.commitIndex);
    if a.leaderCommit > s.commitIndex {
      assert Agree(L, s'.log, a.leaderCommit);
      BackedTransfers(c.hist, a.term, a.term, a.leaderCommit, L, s'.log);
    } else {
      BackedTransfers(c.hist, s.term, a.term, s.commitIndex, s.log, s'.log);
    }
  }

  // ------------------------------------------------- acknowledged stays put

  lemma KeptByMerge(h: History, t: nat, k: nat, log: Log, a: AppendArgs, r: Log)
    requires TermsOk(h) && AppendOk(h, a) && t < a.term && Kept(h, t, k, log) && LastTerm(log) <= a.term
    requires Merged(log, h.leaderLogs[a.term], a.prevLogIndex + 1 + |a.entries|, r)
    ensures Kept(h, t, k, r)
  {
    var L := h.leaderLogs[a.term];
    var e := h.elected[a.term];
    assert TermOk(h, a.term, e, L);
    if r != log {
      assert LastTerm(r) == a.term;
      if Agree(h.leaderLogs[t], log, k) {
        if Agree(h.leaderLogs[t], e.log, k) {
          AgreeTrans(log, h.leaderLogs[t], e.log, k);
          assert Agree(log, L, k) && Agree(r, L, k);
          AgreeTrans(h.leaderLogs[t], log, L, k);
          AgreeTrans(h.leaderLogs[t], L, r, k);
        } else {
          assert Lost(h, t, k, a.term);
        }
      } else {
        var u: nat :| u <= LastTerm(log) && Lost(h, t, k, u);
      }
    }
  }

  ghost function NewAck(i: NodeId, a: AppendArgs): Ack {
    Ack(a.term, i, a.prevLogIndex + |a.entries|)
  }

  /** Everything the follower has acknowledged, now including this request, is still kept. */
  lemma AcceptKept(h: History, h': History, i: NodeId, s: Server, a: AppendArgs, r: Log, t: nat, k: nat)
    requires Grown(h, h', i, a.term) && TermsOk(h) && (forall x :: x in h.acks ==> AckOk(h, x))
    requires h' == h.(acks := h.acks + {NewAck(i, a)})
    requires PastOk(h, i, s) && LastTerm(s.log) <= s.term <= a.term && AppendOk(h, a)
    requires h.elected[a.term].leader != i && E.WinnerOk(h, i, s) && s.disk.term <= s.term
    requires Merged(s.log, h.leaderLogs[a.term], a.prevLogIndex + 1 + |a.entries|, r)
    requires Acked(h', t, i, k)
    ensures Kept(h', t, k, r)
  {
    if t < a.term {
      AckedBefore(h, h', i, a.term, t, i, k);
      KeptByMerge(h, t, k, s.log, a, r);
      KeptGrows(h, h', i, a.term, t, k, r);
    } else if t == a.term {
      SameTermKept(h, h', i, s, a, r, k);
    } else {
      FutureAck(h, h', i, s, a, t, k);
    }
  }

  lemma FutureAck(h: History, h': History, i: NodeId, s: Server, a: AppendArgs, t: nat, k: nat)
    requires h' == h.(acks := h.acks + {NewAck(i, a)}) && s.disk.term <= s.term <= a.term
    requires (forall x :: x in h.acks && x.node == i ==> x.term <= s.term) && E.WinnerOk(h, i, s)
    requires Acked(h', t, i, k)
    ensures t <= a.term
  {
  }

  lemma SameTermKept(h: History, h': History, i: NodeId, s: Server, a: AppendArgs, r: Log, k: nat)
    requires h' == h.(acks := h.acks + {NewAck(i, a)})
    requires PastOk(h, i, s) && LastTerm(s.log) <= s.term <= a.term && a.term in h.leaderLogs
    requires a.term in h.elected && h.elected[a.term].leader != i
    requires Merged(s.log, h.leaderLogs[a.term], a.prevLogIndex + 1 + |a.entries|, r)
    requires Acked(h', a.term, i, k)
    ensures Kept(h', a.term, k, r)
  {
    var x :| x in h'.acks && x.term == a.term && x.node == i && k <= x.upTo;
    if x in h.acks {
      assert Acked(h, a.term, i, k);
      assert Kept(h, a.term, k, s.log);
      assert Agree(h.leaderLogs[a.term], s.log, k);
      assert Agree(s.log, h.leaderLogs[a.term], k);
    }
    assert Agree(r, h.leaderLogs[a.term], k);
  }

  // --------------------------------------------------------------- the handlers

  lemma AckGrown(h: History, h': History, i: NodeId, a: AppendArgs)
    requires h' == h.(acks := h.acks + {NewAck(i, a)})
    ensures Grown(h, h', i, a.term)
  {
  }

  lemma AckHistory(c: Cluster, c': Cluster, i: NodeId, a: AppendArgs)
    requires c'.nodes.Keys == c.nodes.Keys && HistoryOk(c) && AppendOk(c.hist, a)
    requires forall b :: b in c.hist.ballots && b.voter == i ==> b.term <= a.term
    requires c'.hist == c.hist.(acks := c.hist.acks + {NewAck(i, a)})
    ensures Grown(c.hist, c'.hist, i, a.term) && HistoryOk(c')
  {
    hide BallotOk, CommitOk, Grown, TermOk, LogOk, Backed, Kept, Acked;
    var h, h' := c.hist, c'.hist;
    AckGrown(h, h', i, a);
    TermsKeep(h, h', i, a.term);
    CandidaciesKeep(h, h', i, a.term);
    HistoryKeeps(c, c', i, a.term);
  }

  /** The leader of a request's term is not the follower that receives it, so the follower is
      never left leading. */
  lemma AcknowledgeOk(c: Cluster, i: NodeId, s: Server, a: AppendArgs)
    requires ServerOk(c, i, s) && E.RoleOk(c, i, s) && s.term <= a.term
    requires a.term in c.hist.elected && c.hist.elected[a.term].leader != i
    ensures Acknowledge(s, a).role.Follower? && Acknowledge(s, a).term == a.term
    ensures ServerOk(c, i, Acknowledge(s, a))
  {
  }

  lemma AcceptPast(c: Cluster, c': Cluster, i: NodeId, s: Server, a: AppendArgs, r: Log)
    requires Grown(c.hist, c'.hist, i, a.term) && HistoryOk(c) && PastOk(c.hist, i, s)
    requires c'.hist == c.hist.(acks := c.hist.acks + {NewAck(i, a)})
    requires LastTerm(s.log) <= s.term <= a.term && AppendOk(c.hist, a)
    requires c.hist.elected[a.term].leader != i && E.WinnerOk(c.hist, i, s) && s.disk.term <= s.term
    requires Merged(s.log, c.hist.leaderLogs[a.term], a.prevLogIndex + 1 + |a.entries|, r)
    ensures forall t: nat, k: nat :: Acked(c'.hist, t, i, k) ==> Kept(c'.hist, t, k, r)
  {
    hide Grown, TermsOk, CandidaciesOk, BallotOk, CommitOk, AckOk, PastOk, AppendOk, Merged, E.WinnerOk;
    AppendTermKnown(c.hist, a);
    forall t: nat, k: nat | Acked(c'.hist, t, i, k) ensures Kept(c'.hist, t, k, r) {
      AcceptKept(c.hist, c'.hist, i, s, a, r, t, k);
    }
  }

  lemma AppendTermKnown(h: History, a: AppendArgs)
    requires AppendOk(h, a)
    ensures a.term in h.elected && a.term in h.leaderLogs
  {
  }

  lemma AcceptServer(c: Cluster, c': Cluster, i: NodeId, s: Server, a: AppendArgs)
    requires c'.nodes.Keys == c.nodes.Keys && HistoryOk(c) && E.ElectionsOk(c)
    requires Grown(c.hist, c'.hist, i, a.term) && ServerOk(c, i, s) && s.role.Follower? && s.term == a.term
    requires E.WinnerOk(c.hist, i, s) && s.disk.term <= s.term
    requires AppendOk(c.hist, a) && PrevMatches(s.log, a) && c.hist.elected[a.term].leader != i
    requires c'.hist == c.hist.(acks := c.hist.acks + {NewAck(i, a)})
    ensures ServerOk(c', i, Accept(s, a))
    ensures s.commitIndex <= Accept(s, a).commitIndex
    ensures Agree(s.log, Accept(s, a).log, s.commitIndex)
  {
    hide Grown, CandidaciesOk, BallotOk, CommitOk, AckOk, E.ElectionsOk, Merged, LogOk, AppendNew, TermOk;
    var h, h' := c.hist, c'.hist;
    var s' := Accept(s, a);
    var n := a.prevLogIndex + 1 + |a.entries|;
    AcceptMerges(h, s.log, a);
    MergedLogOk(h, s.log, a, n, s'.log);
    LogOkGrows(h, h', i, a.term, s'.log);
    AcceptCommits(c, s, a);
    BackedGrows(h, h', i, a.term, a.term, s'.commitIndex, s'.log);
    AcceptPast(c, c', i, s, a, s'.log);
  }

  /** The backward scan stops at the start of a run of equal terms, no further than it began. */
  lemma {:induction false} ConflictIndexBounds(log: Log, i: nat, term: nat)
    requires i >= 1
    ensures 1 <= ConflictIndex(log, i, term) <= i + 1
    ensures TermAt(log, i) == term ==> ConflictIndex(log, i, term) <= i
    ensures forall j :: ConflictIndex(log, i, term) <= j <= i ==> TermAt(log, j) == term
    ensures ConflictIndex(log, i, term) > 1 ==> TermAt(log, ConflictIndex(log, i, term) - 1) != term
  {
    if TermAt(log, i) == term && i > 1 {
      ConflictIndexBounds(log, i - 1, term);
    }
  }

  lemma RejectionOk(c: Cluster, i: NodeId, log: Log, a: AppendArgs)
    requires i in Peers(c, a.leader) && AppendOk(c.hist, a) && !PrevMatches(log, a)
    ensures MessageOk(c, AppendResp(i, a, Rejection(log, a)))
  {
    if a.prevLogIndex <= LastIndex(log) {
      ConflictIndexBounds(log, a.prevLogIndex, TermAt(log, a.prevLogIndex));
    }
  }

  lemma LeaderIsOther(c: Cluster, m: Message)
    requires E.Inv(c) && m in c.pool && m.AppendReq?
    ensures m.args.leader != m.to && m.args.term in c.hist.elected
    ensures c.hist.elected[m.args.term].leader == m.args.leader
  {
    assert E.MessageOk(c, m);
  }

  lemma RefuseKeeps(c: Cluster, c': Cluster, i: NodeId, m: Message)
    requires Inv(c) && E.Inv(c') && i in c.nodes && m in c.pool && m.AppendReq? && m.to == i
    requires var (s', reply) := ReceiveAppend(c.nodes[i], m.args);
             && !reply.success
             && E.Moved(c, c', i, s', {AppendResp(i, m.args, reply)})
             && c'.hist == c.hist
    ensures Inv(c')
  {
    hide ServerOk, E.Inv, HistoryOk, AppendOk;
    var s := c.nodes[i];
    var (s', reply) := ReceiveAppend(s, m.args);
    LeaderIsOther(c, m);
    assert MessageOk(c, m);
    if |m.args.entries| > MAX_ENTRIES || m.args.term < s.term {
      QuietKeeps(c, c', i, s', {AppendResp(i, m.args, reply)});
    } else {
      RoleOf(c, i);
      AcknowledgeOk(c, i, s, m.args);
      RejectionOk(c, i, s.log, m.args);
      QuietKeeps(c, c', i, s', {AppendResp(i, m.args, reply)});
    }
  }

  lemma ElectionsOf(c: Cluster)
    requires E.Inv(c)
    ensures E.ElectionsOk(c)
  {
  }

  lemma AcknowledgedWinner(h: History, i: NodeId, s: Server, a: AppendArgs)
    requires E.WinnerOk(h, i, s) && a.term >= s.term && a.term in h.elected && h.elected[a.term].leader != i
    requires s.disk.term <= s.term
    ensures E.WinnerOk(h, i, Acknowledge(s, a)) && Acknowledge(s, a).disk.term <= a.term
  {
  }

  lemma AcceptKeeps(c: Cluster, c': Cluster, i: NodeId, m: Message)
    requires Inv(c) && E.Inv(c') && i in c.nodes && m in c.pool && m.AppendReq? && m.to == i
    requires var (s', reply) := ReceiveAppend(c.nodes[i], m.args);
             && reply.success
             && E.Moved(c, c', i, s', {AppendResp(i, m.args, reply)})
             && c'.hist == c.hist.(acks := c.hist.acks + {NewAck(i, m.args)})
    ensures Inv(c')
  {
    hide ServerOk, E.Inv, HistoryOk, AppendOk, Grown, Acknowledge, Accept, E.WinnerOk;
    var s := c.nodes[i];
    var a := m.args;
    var s1 := Acknowledge(s, a);
    var (s', reply) := ReceiveAppend(s, a);
    LeaderIsOther(c, m);
    assert MessageOk(c, m);
    assert c'.nodes.Keys == c.nodes.Keys;
    VotesBounded(c, i);
    RoleOf(c, i);
    AcknowledgeOk(c, i, s, a);
    AcknowledgedWinner(c.hist, i, s, a);
    AckHistory(c, c', i, a);
    ElectionsOf(c);
    AcceptServer(c, c', i, s1, a);
    AppendOkGrows(c.hist, c'.hist, i, a.term, a);
    StepKeeps(c, c', i, a.term, s', {AppendResp(i, a, reply)});
  }
}
