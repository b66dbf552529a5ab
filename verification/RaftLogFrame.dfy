/** What one server's step leaves intact of everybody else's part of the log invariant. */
module RaftLogFrame {
  import opened RaftServer
  import opened RaftCluster
  import opened RaftLogs
  import opened RaftLogInv
  import E = RaftElection

  /** The history grows only by what server i did in terms from lo on, and leader logs only extend. */
  ghost predicate Grown(h: History, h': History, i: NodeId, lo: nat) {
    && E.Grown(h, h', i)
    && (forall t :: t in h'.elected && t !in h.elected ==> lo <= t)
    && (forall t :: t in h.leaderLogs ==> t in h'.leaderLogs && Extends(h.leaderLogs[t], h'.leaderLogs[t]))
    && (forall t :: t in h'.leaderLogs && !(t in h.leaderLogs && h'.leaderLogs[t] == h.leaderLogs[t]) ==>
          lo <= t && t in h'.elected && h'.elected[t].leader == i)
    && (forall x :: x in h.candidacies ==> x in h'.candidacies && h'.candidacies[x] == h.candidacies[x])
    && (forall x :: x in h'.candidacies && x !in h.candidacies ==> x.1 == i)
    && h.acks <= h'.acks
    && (forall a :: a in h'.acks && a !in h.acks ==> a.node == i && lo <= a.term)
    && h.commits <= h'.commits
  }

  lemma LogOkGrows(h: History, h': History, i: NodeId, lo: nat, log: Log)
    requires Grown(h, h', i, lo) && LogOk(h, log)
    ensures LogOk(h', log)
  {
    forall k | 1 <= k < |log| ensures EntryOk(h', log, k) {
      assert EntryOk(h, log, k);
    }
  }

  lemma AckedGrows(h: History, h': History, i: NodeId, lo: nat, t: nat, v: NodeId, k: nat)
    requires Grown(h, h', i, lo) && Acked(h, t, v, k)
    ensures Acked(h', t, v, k)
  {
  }

  /** Nothing new was acknowledged by others, nor by i in earlier terms. */
  lemma AckedBefore(h: History, h': History, i: NodeId, lo: nat, t: nat, v: NodeId, k: nat)
    requires Grown(h, h', i, lo) && TermsOk(h) && (forall a :: a in h.acks ==> AckOk(h, a))
    requires Acked(h', t, v, k) && (v != i || t < lo)
    ensures Acked(h, t, v, k)
  {
    if h'.elected[t].leader != v {
      var a :| a in h'.acks && a.term == t && a.node == v && k <= a.upTo;
      assert a in h.acks && AckOk(h, a);
    }
  }

  lemma KeptGrows(h: History, h': History, i: NodeId, lo: nat, t: nat, k: nat, log: Log)
    requires Grown(h, h', i, lo) && Kept(h, t, k, log) && k < |h.leaderLogs[t]|
    ensures Kept(h', t, k, log)
  {
    if !Agree(h.leaderLogs[t], log, k) {
      var u: nat :| u <= LastTerm(log) && Lost(h, t, k, u);
      assert Lost(h', t, k, u);
    }
  }

  lemma BackedGrows(h: History, h': History, i: NodeId, lo: nat, t: nat, k: nat, log: Log)
    requires Grown(h, h', i, lo) && Backed(h, t, k, log)
    ensures Backed(h', t, k, log)
  {
    if k > 0 {
      var m :| m in h.commits && m.term <= t && k <= m.index &&
               m.term in h.leaderLogs && Agree(h.leaderLogs[m.term], log, k);
      assert m in h'.commits && Agree(h'.leaderLogs[m.term], log, k);
    }
  }

  lemma BackedExtends(h: History, t: nat, k: nat, log: Log, log': Log)
    requires Backed(h, t, k, log) && Extends(log, log')
    ensures Backed(h, t, k, log')
  {
    if k > 0 {
      var m :| m in h.commits && m.term <= t && k <= m.index &&
               m.term in h.leaderLogs && Agree(h.leaderLogs[m.term], log, k);
      assert Agree(h.leaderLogs[m.term], log', k);
    }
  }

  lemma TermOkGrows(h: History, h': History, i: NodeId, lo: nat, t: nat)
    requires Grown(h, h', i, lo) && TermsOk(h) && t in h.elected && h'.leaderLogs[t] == h.leaderLogs[t]
    ensures TermOk(h', t, h'.elected[t], h'.leaderLogs[t])
  {
    assert TermOk(h, t, h.elected[t], h.leaderLogs[t]);
    LogOkGrows(h, h', i, lo, h.leaderLogs[t]);
  }

  lemma TermsKeep(h: History, h': History, i: NodeId, lo: nat)
    requires Grown(h, h', i, lo) && TermsOk(h) && h'.leaderLogs.Keys == h'.elected.Keys
    requires forall t :: t in h'.elected && !(t in h.leaderLogs && h'.leaderLogs[t] == h.leaderLogs[t]) ==>
               TermOk(h', t, h'.elected[t], h'.leaderLogs[t])
    ensures TermsOk(h')
  {
    forall t | t in h'.elected ensures TermOk(h', t, h'.elected[t], h'.leaderLogs[t]) {
      if t in h.leaderLogs && h'.leaderLogs[t] == h.leaderLogs[t] {
        TermOkGrows(h, h', i, lo, t);
      }
    }
  }

  lemma BallotGrows(h: History, h': History, i: NodeId, lo: nat, b: Ballot)
    requires Grown(h, h', i, lo) && TermsOk(h) && (forall a :: a in h.acks ==> AckOk(h, a))
    requires BallotOk(h, b) && (b.voter == i ==> b.term <= lo)
    ensures BallotOk(h', b)
  {
    LogOkGrows(h, h', i, lo, b.log);
    forall t: nat, k: nat | t < b.term && Acked(h', t, b.voter, k) ensures Kept(h', t, k, b.log) {
      AckedBefore(h, h', i, lo, t, b.voter, k);
      KeptGrows(h, h', i, lo, t, k, b.log);
    }
  }

  lemma CommitGrows(c: Cluster, c': Cluster, i: NodeId, lo: nat, m: Commit)
    requires Grown(c.hist, c'.hist, i, lo) && c'.nodes.Keys == c.nodes.Keys && CommitOk(c, m)
    ensures CommitOk(c', m)
  {
    var q :| QuorumAcked(c, m.term, m.index, q);
    forall v | v in q ensures Acked(c'.hist, m.term, v, m.index) {
      AckedGrows(c.hist, c'.hist, i, lo, m.term, v, m.index);
    }
    assert QuorumAcked(c', m.term, m.index, q);
  }

  lemma CandidaciesKeep(h: History, h': History, i: NodeId, lo: nat)
    requires Grown(h, h', i, lo) && CandidaciesOk(h)
    requires forall x :: x in h'.candidacies && x !in h.candidacies ==>
               LogOk(h', h'.candidacies[x]) && LastTerm(h'.candidacies[x]) < x.0
    ensures CandidaciesOk(h')
  {
    forall x | x in h'.candidacies
      ensures LogOk(h', h'.candidacies[x]) && LastTerm(h'.candidacies[x]) < x.0
    {
      if x in h.candidacies { LogOkGrows(h, h', i, lo, h.candidacies[x]); }
    }
  }

  lemma HistoryKeeps(c: Cluster, c': Cluster, i: NodeId, lo: nat)
    requires HistoryOk(c) && Grown(c.hist, c'.hist, i, lo) && c'.nodes.Keys == c.nodes.Keys
    requires forall b :: b in c.hist.ballots && b.voter == i ==> b.term <= lo
    requires TermsOk(c'.hist) && CandidaciesOk(c'.hist)
    requires forall b :: b in c'.hist.ballots && b !in c.hist.ballots ==> BallotOk(c'.hist, b)
    requires forall a :: a in c'.hist.acks && a !in c.hist.acks ==> AckOk(c'.hist, a)
    requires forall m :: m in c'.hist.commits && m !in c.hist.commits ==> CommitOk(c', m)
    ensures HistoryOk(c')
  {
    forall b | b in c'.hist.ballots ensures BallotOk(c'.hist, b) {
      if b in c.hist.ballots { BallotGrows(c.hist, c'.hist, i, lo, b); }
    }
    forall a | a in c'.hist.acks ensures AckOk(c'.hist, a) {
      if a in c.hist.acks { assert AckOk(c.hist, a); }
    }
    forall m | m in c'.hist.commits ensures CommitOk(c', m) {
      if m in c.hist.commits { CommitGrows(c, c', i, lo, m); }
    }
  }

  lemma PastKeeps(h: History, h': History, i: NodeId, lo: nat, j: NodeId, s: Server)
    requires Grown(h, h', i, lo) && TermsOk(h) && (forall a :: a in h.acks ==> AckOk(h, a))
    requires j != i && PastOk(h, j, s)
    ensures PastOk(h', j, s)
  {
    forall t: nat, k: nat | Acked(h', t, j, k) ensures Kept(h', t, k, s.log) {
      AckedBefore(h, h', i, lo, t, j, k);
      KeptGrows(h, h', i, lo, t, k, s.log);
    }
  }

  lemma ReplicationKeeps(c: Cluster, c': Cluster, i: NodeId, lo: nat, j: NodeId, s: Server)
    requires Grown(c.hist, c'.hist, i, lo) && c'.nodes.Keys == c.nodes.Keys
    requires E.RoleOk(c, j, s) && ReplicationOk(c, j, s)
    requires j != i || (s.term in c.hist.leaderLogs ==> c'.hist.leaderLogs[s.term] == c.hist.leaderLogs[s.term])
    ensures ReplicationOk(c', j, s)
  {
    if s.role.Leader? {
      forall p | p in s.matchIndex
        ensures s.matchIndex[p] == 0 || Acked(c'.hist, s.term, p, s.matchIndex[p])
      {
        if s.matchIndex[p] != 0 { AckedGrows(c.hist, c'.hist, i, lo, s.term, p, s.matchIndex[p]); }
      }
    }
  }

  lemma OthersKeep(c: Cluster, c': Cluster, i: NodeId, lo: nat, j: NodeId)
    requires Grown(c.hist, c'.hist, i, lo) && c'.nodes.Keys == c.nodes.Keys && HistoryOk(c)
    requires j in c.nodes && j != i && E.ServerOk(c, j, c.nodes[j]) && ServerOk(c, j, c.nodes[j])
    ensures ServerOk(c', j, c.nodes[j])
  {
    var s := c.nodes[j];
    LogOkGrows(c.hist, c'.hist, i, lo, s.log);
    BackedGrows(c.hist, c'.hist, i, lo, s.term, s.commitIndex, s.log);
    PastKeeps(c.hist, c'.hist, i, lo, j, s);
    ReplicationKeeps(c, c', i, lo, j, s);
  }

  lemma AppendOkGrows(h: History, h': History, i: NodeId, lo: nat, a: AppendArgs)
    requires Grown(h, h', i, lo) && AppendOk(h, a)
    ensures AppendOk(h', a)
  {
    BackedGrows(h, h', i, lo, a.term, a.leaderCommit, h.leaderLogs[a.term]);
    BackedExtends(h', a.term, a.leaderCommit, h.leaderLogs[a.term], h'.leaderLogs[a.term]);
    var n := a.prevLogIndex + 1 + |a.entries|;
    assert h.leaderLogs[a.term][a.prevLogIndex + 1..n] == h'.leaderLogs[a.term][a.prevLogIndex + 1..n];
  }

  lemma MessagesKeep(c: Cluster, c': Cluster, i: NodeId, lo: nat, m: Message)
    requires Grown(c.hist, c'.hist, i, lo) && c'.nodes.Keys == c.nodes.Keys && MessageOk(c, m)
    ensures MessageOk(c', m)
  {
    if m.AppendReq? || m.AppendResp? {
      AppendOkGrows(c.hist, c'.hist, i, lo, m.args);
    }
  }

  lemma ServersKeep(c: Cluster, c': Cluster, i: NodeId, lo: nat, s': Server)
    requires Grown(c.hist, c'.hist, i, lo) && HistoryOk(c)
    requires i in c.nodes && c'.nodes == c.nodes[i := s']
    requires forall j :: j in c.nodes ==> E.ServerOk(c, j, c.nodes[j]) && ServerOk(c, j, c.nodes[j])
    requires ServerOk(c', i, s')
    ensures forall j :: j in c'.nodes ==> ServerOk(c', j, c'.nodes[j])
  {
    hide Grown, HistoryOk, ServerOk, E.ServerOk;
    assert c'.nodes.Keys == c.nodes.Keys;
    forall j | j in c'.nodes ensures ServerOk(c', j, c'.nodes[j]) {
      if j != i { OthersKeep(c, c', i, lo, j); }
    }
  }

  lemma PoolKeeps(c: Cluster, c': Cluster, i: NodeId, lo: nat, sent: set<Message>)
    requires Grown(c.hist, c'.hist, i, lo) && c'.nodes.Keys == c.nodes.Keys
    requires c'.pool == c.pool + sent
    requires forall m :: m in c.pool ==> MessageOk(c, m)
    requires forall m :: m in sent ==> MessageOk(c', m)
    ensures forall m :: m in c'.pool ==> MessageOk(c', m)
  {
    forall m | m in c'.pool ensures MessageOk(c', m) {
      if m in c.pool { MessagesKeep(c, c', i, lo, m); }
    }
  }

  /** The frame argument shared by all actions. */
  lemma StepKeeps(c: Cluster, c': Cluster, i: NodeId, lo: nat, s': Server, sent: set<Message>)
    requires Inv(c) && E.Inv(c') && E.Moved(c, c', i, s', sent) && Grown(c.hist, c'.hist, i, lo)
    requires HistoryOk(c') && ServerOk(c', i, s')
    requires forall m :: m in sent ==> MessageOk(c', m)
    ensures Inv(c')
  {
    assert c'.nodes.Keys == c.nodes.Keys;
    ServersKeep(c, c', i, lo, s');
    PoolKeeps(c, c', i, lo, sent);
  }
}
