/** A leader's steps keep the log invariant: winning an election, appending to its own log,
    learning what followers hold, and committing. */
module RaftLeaderSteps {
  import opened Bytes
  import opened RaftServer
  import opened RaftCluster
  import opened RaftLogs
  import opened RaftLogInv
  import opened RaftLogFrame
  import opened RaftLogSteps
  import E = RaftElection

  // ------------------------------------------------- one more entry at the end

  /** The leader of s.term adds an entry of its own term to its log. */
  ghost predicate Appended(log: Log, log': Log, t: nat) {
    |log'| == |log| + 1 && log' == log + [log'[|log|]] && log'[|log|].term == t && log'[|log|].index == |log|
  }

  lemma AppendedLogOk(h: History, h': History, i: NodeId, t: nat, log: Log, log': Log)
    requires Grown(h, h', i, t) && LogOk(h, log) && Appended(log, log', t)
    requires LastTerm(log) <= t && t >= 1 && t in h'.leaderLogs && h'.leaderLogs[t] == log'
    ensures LogOk(h', log')
  {
    LogOkGrows(h, h', i, t, log);
    forall k | 1 <= k < |log'| ensures EntryOk(h', log', k) {
      if k < |log| {
        assert EntryOk(h', log, k) && log'[k] == log[k];
      }
    }
  }

  lemma KeptExtends(h: History, t: nat, k: nat, log: Log, log': Log)
    requires Kept(h, t, k, log) && Extends(log, log') && LastTerm(log) <= LastTerm(log')
    ensures Kept(h, t, k, log')
  {
    if !Agree(h.leaderLogs[t], log, k) {
      var u: nat :| u <= LastTerm(log) && Lost(h, t, k, u);
    }
  }

  /** Nothing is acknowledged by a server in a term beyond its own. */
  lemma NoFutureAck(h: History, h': History, i: NodeId, s: Server, t: nat, k: nat)
    requires E.WinnerOk(h, i, s) && s.disk.term <= s.term && h'.acks == h.acks
    requires forall u :: u in h'.elected && u != s.term ==> u in h.elected && h.elected[u] == h'.elected[u]
    requires (forall a :: a in h.acks && a.node == i ==> a.term <= s.term) && Acked(h', t, i, k)
    ensures t <= s.term
  {
  }

  /** The leader still keeps all it ever acknowledged. */
  lemma LeaderPast(h: History, h': History, i: NodeId, s: Server, log': Log)
    requires Grown(h, h', i, s.term) && TermsOk(h) && (forall a :: a in h.acks ==> AckOk(h, a))
    requires PastOk(h, i, s) && LastTerm(s.log) <= s.term && Appended(s.log, log', s.term)
    requires s.term in h'.leaderLogs && h'.leaderLogs[s.term] == log'
    requires E.WinnerOk(h, i, s) && s.disk.term <= s.term && h'.acks == h.acks
    requires forall t :: t in h'.elected && t != s.term ==> t in h.elected && h.elected[t] == h'.elected[t]
    ensures forall t: nat, k: nat :: Acked(h', t, i, k) ==> Kept(h', t, k, log')
  {
    forall t: nat, k: nat | Acked(h', t, i, k) ensures Kept(h', t, k, log') {
      NoFutureAck(h, h', i, s, t, k);
      if t == s.term {
        assert Agree(log', log', k);
      } else {
        AckedBefore(h, h', i, s.term, t, i, k);
        KeptGrows(h, h', i, s.term, t, k, s.log);
        KeptExtends(h', t, k, s.log, log');
      }
    }
  }

  // --------------------------------------------------------- winning an election

  lemma WinGrown(h: History, h': History, i: NodeId, s: Server, votes: set<NodeId>, log': Log)
    requires s.term !in h.elected && h.leaderLogs.Keys == h.elected.Keys
    requires h' == h.(elected := h.elected[s.term := Election(i, s.log, votes)],
                      leaderLogs := h.leaderLogs[s.term := log'])
    ensures Grown(h, h', i, s.term)
  {
  }

  lemma WinTermOk(h: History, h': History, i: NodeId, s: Server, votes: set<NodeId>, log': Log)
    requires Grown(h, h', i, s.term) && LogOk(h, s.log) && Appended(s.log, log', s.term)
    requires (s.term, i) in h'.candidacies && h'.candidacies[(s.term, i)] == s.log && LastTerm(s.log) < s.term
    requires s.term in h'.leaderLogs && h'.leaderLogs[s.term] == log'
    ensures TermOk(h', s.term, Election(i, s.log, votes), log')
  {
    AppendedLogOk(h, h', i, s.term, s.log, log');
  }

  lemma WinHistory(c: Cluster, c': Cluster, i: NodeId, votes: set<NodeId>, log': Log)
    requires i in c.nodes && c'.nodes.Keys == c.nodes.Keys && HistoryOk(c) && ServerOk(c, i, c.nodes[i])
    requires forall b :: b in c.hist.ballots && b.voter == i ==> b.term <= c.nodes[i].term
    requires c.nodes[i].role.Candidate? && c.nodes[i].term !in c.hist.elected
    requires Appended(c.nodes[i].log, log', c.nodes[i].term)
    requires var s := c.nodes[i];
             c'.hist == c.hist.(elected := c.hist.elected[s.term := Election(i, s.log, votes)],
                                leaderLogs := c.hist.leaderLogs[s.term := log'])
    ensures Grown(c.hist, c'.hist, i, c.nodes[i].term) && HistoryOk(c')
  {
    hide BallotOk, CommitOk, AckOk, Grown, TermOk, LogOk, PastOk, Backed, Kept, Acked, Appended;
    var s := c.nodes[i];
    var h, h' := c.hist, c'.hist;
    WinGrown(h, h', i, s, votes, log');
    WinTermOk(h, h', i, s, votes, log');
    TermsKeep(h, h', i, s.term);
    CandidaciesKeep(h, h', i, s.term);
    HistoryKeeps(c, c', i, s.term);
  }

  /** The part of a leader's state that speaks of its log alone. */
  lemma LeaderLogState(h: History, h': History, i: NodeId, s: Server, s': Server)
    requires Grown(h, h', i, s.term) && LogStateOk(h, i, s) && TermsOk(h') && Appended(s.log, s'.log, s.term)
    requires s.term in h'.leaderLogs && h'.leaderLogs[s.term] == s'.log
    requires s'.term == s.term && s'.commitIndex == s.commitIndex && s'.lastApplied == s.lastApplied
    ensures LogStateOk(h', i, s')
  {
    hide Grown;
    assert TermOk(h', s.term, h'.elected[s.term], s'.log);
    BackedGrows(h, h', i, s.term, s.term, s.commitIndex, s.log);
    BackedExtends(h', s.term, s.commitIndex, s.log, s'.log);
  }

  lemma WinReplication(c: Cluster, c': Cluster, i: NodeId, s: Server, votes: set<NodeId>)
    requires ReplicationOk(c, i, s) && c'.nodes.Keys == c.nodes.Keys
    requires var s' := BecomeLeader(s.(votes := votes), i, Peers(c, i));
             s.term in c'.hist.leaderLogs && c'.hist.leaderLogs[s.term] == s'.log
    ensures ReplicationOk(c', i, BecomeLeader(s.(votes := votes), i, Peers(c, i)))
  {
  }

  lemma WinServer(c: Cluster, c': Cluster, i: NodeId, votes: set<NodeId>)
    requires i in c.nodes && c'.nodes.Keys == c.nodes.Keys && HistoryOk(c) && ServerOk(c, i, c.nodes[i])
    requires c.nodes[i].role.Candidate? && c.nodes[i].term !in c.hist.elected
    requires E.WinnerOk(c.hist, i, c.nodes[i]) && c.nodes[i].disk.term <= c.nodes[i].term
    requires Grown(c.hist, c'.hist, i, c.nodes[i].term) && TermsOk(c'.hist)
    requires var s := c.nodes[i];
             c'.hist == c.hist.(elected := c.hist.elected[s.term := Election(i, s.log, votes)],
                                leaderLogs := c.hist.leaderLogs[s.term := BecomeLeader(s.(votes := votes), i, Peers(c, i)).log])
    ensures ServerOk(c', i, BecomeLeader(c.nodes[i].(votes := votes), i, Peers(c, i)))
  {
    hide Grown, BallotOk, CommitOk, LogOk, TermOk, ReplicationOk, AckOk;
    var s := c.nodes[i];
    var s' := BecomeLeader(s.(votes := votes), i, Peers(c, i));
    assert Appended(s.log, s'.log, s.term);
    LeaderPast(c.hist, c'.hist, i, s, s'.log);
    LeaderLogState(c.hist, c'.hist, i, s, s');
    WinReplication(c, c', i, s, votes);
  }

  lemma WinKeeps(c: Cluster, c': Cluster, i: NodeId, votes: set<NodeId>)
    requires Inv(c) && E.Inv(c') && i in c.nodes && c.nodes[i].role.Candidate?
    requires c.nodes[i].term !in c.hist.elected
    requires var s := c.nodes[i];
             var s' := BecomeLeader(s.(votes := votes), i, Peers(c, i));
             && E.Moved(c, c', i, s', {})
             && c'.hist == c.hist.(elected := c.hist.elected[s.term := Election(i, s.log, votes)],
                                   leaderLogs := c.hist.leaderLogs[s.term := s'.log])
    ensures Inv(c')
  {
    hide ServerOk, MessageOk, Grown, E.Inv, TermsOk, CandidaciesOk, CommitOk, BallotOk, AckOk;
    var s := c.nodes[i];
    var s' := BecomeLeader(s.(votes := votes), i, Peers(c, i));
    assert c'.nodes.Keys == c.nodes.Keys;
    VotesBounded(c, i);
    RoleOf(c, i);
    WinHistory(c, c', i, votes, s'.log);
    WinServer(c, c', i, votes);
    StepKeeps(c, c', i, s.term, s', {});
  }

  // -------------------------------------------------------- the leader's own log

  lemma OwnGrown(h: History, h': History, i: NodeId, s: Server, log': Log)
    requires s.term in h.leaderLogs && h.leaderLogs[s.term] == s.log && Appended(s.log, log', s.term)
    requires s.term in h.elected && h.elected[s.term].leader == i
    requires h' == h.(leaderLogs := h.leaderLogs[s.term := log'])
    ensures Grown(h, h', i, s.term)
  {
  }

  lemma OwnTermOk(h: History, h': History, i: NodeId, s: Server, log': Log)
    requires Grown(h, h', i, s.term) && TermsOk(h) && Appended(s.log, log', s.term)
    requires s.term in h.elected && h.leaderLogs[s.term] == s.log
    requires h' == h.(leaderLogs := h.leaderLogs[s.term := log'])
    ensures TermOk(h', s.term, h'.elected[s.term], log')
  {
    assert TermOk(h, s.term, h.elected[s.term], s.log);
    AppendedLogOk(h, h', i, s.term, s.log, log');
  }

  lemma OwnHistory(c: Cluster, c': Cluster, i: NodeId, log': Log)
    requires i in c.nodes && c'.nodes.Keys == c.nodes.Keys && HistoryOk(c) && ServerOk(c, i, c.nodes[i])
    requires forall b :: b in c.hist.ballots && b.voter == i ==> b.term <= c.nodes[i].term
    requires c.nodes[i].role.Leader? && c.nodes[i].term in c.hist.elected
    requires c.hist.elected[c.nodes[i].term].leader == i && Appended(c.nodes[i].log, log', c.nodes[i].term)
    requires c'.hist == c.hist.(leaderLogs := c.hist.leaderLogs[c.nodes[i].term := log'])
    ensures Grown(c.hist, c'.hist, i, c.nodes[i].term) && HistoryOk(c')
  {
    hide BallotOk, CommitOk, AckOk, Grown, TermOk, LogOk, PastOk, Backed, Kept, Acked, Appended;
    var s := c.nodes[i];
    var h, h' := c.hist, c'.hist;
    OwnGrown(h, h', i, s, log');
    OwnTermOk(h, h', i, s, log');
    TermsKeep(h, h', i, s.term);
    CandidaciesKeep(h, h', i, s.term);
    HistoryKeeps(c, c', i, s.term);
  }

  lemma OwnReplication(c: Cluster, c': Cluster, i: NodeId, s: Server, log': Log, file': seq<LogEntry>)
    requires ReplicationOk(c, i, s) && c'.nodes.Keys == c.nodes.Keys && s.role.Leader?
    requires Appended(s.log, log', s.term) && Grown(c.hist, c'.hist, i, s.term)
    requires c'.hist == c.hist.(leaderLogs := c.hist.leaderLogs[s.term := log'])
    ensures ReplicationOk(c', i, s.(log := log', file := file'))
  {
    forall p | p in s.matchIndex && s.matchIndex[p] != 0
      ensures Acked(c'.hist, s.term, p, s.matchIndex[p])
    {
      AckedGrows(c.hist, c'.hist, i, s.term, s.term, p, s.matchIndex[p]);
    }
  }

  lemma OwnServer(c: Cluster, c': Cluster, i: NodeId, log': Log, file': seq<LogEntry>)
    requires i in c.nodes && c'.nodes.Keys == c.nodes.Keys && HistoryOk(c) && ServerOk(c, i, c.nodes[i])
    requires E.WinnerOk(c.hist, i, c.nodes[i]) && c.nodes[i].disk.term <= c.nodes[i].term
    requires c.nodes[i].role.Leader? && Appended(c.nodes[i].log, log', c.nodes[i].term)
    requires Grown(c.hist, c'.hist, i, c.nodes[i].term) && TermsOk(c'.hist)
    requires c'.hist == c.hist.(leaderLogs := c.hist.leaderLogs[c.nodes[i].term := log'])
    ensures ServerOk(c', i, c.nodes[i].(log := log', file := file'))
  {
    hide Grown, BallotOk, CommitOk, LogOk, TermOk, ReplicationOk, AckOk, Appended;
    var s := c.nodes[i];
    LeaderPast(c.hist, c'.hist, i, s, log');
    LeaderLogState(c.hist, c'.hist, i, s, s.(log := log', file := file'));
    OwnReplication(c, c', i, s, log', file');
  }

  lemma OwnKeeps(c: Cluster, c': Cluster, i: NodeId, log': Log, file': seq<LogEntry>)
    requires Inv(c) && E.Inv(c') && i in c.nodes && c.nodes[i].role.Leader?
    requires Appended(c.nodes[i].log, log', c.nodes[i].term)
    requires E.Moved(c, c', i, c.nodes[i].(log := log', file := file'), {})
    requires c'.hist == c.hist.(leaderLogs := c.hist.leaderLogs[c.nodes[i].term := log'])
    ensures Inv(c')
  {
    hide ServerOk, MessageOk, Grown, E.Inv, TermsOk, CandidaciesOk, CommitOk, BallotOk, AckOk;
    var s := c.nodes[i];
    assert c'.nodes.Keys == c.nodes.Keys;
    VotesBounded(c, i);
    RoleOf(c, i);
    OwnHistory(c, c', i, log');
    OwnServer(c, c', i, log', file');
    StepKeeps(c, c', i, s.term, s.(log := log', file := file'), {});
  }

  // ------------------------------------------------------------------ committing

  /** What the downward search finds: nothing, or an index of the current term on a majority. */
  lemma {:induction false} CommitSearchFinds(s: Server, n: nat, idx: nat)
    requires idx < |s.log|
    ensures var r := CommitSearch(s, n, idx);
            r == s.commitIndex ||
            (s.commitIndex < r <= idx && s.log[r].term == s.term && 1 + |Replicated(s, r)| > n / 2)
  {
    if idx > s.commitIndex && !(TermAt(s.log, idx) == s.term && 1 + |Replicated(s, idx)| > n / 2) {
      CommitSearchFinds(s, n, idx - 1);
    }
  }

  lemma CommittedQuorum(c: Cluster, i: NodeId, r: nat)
    requires i in c.nodes && ReplicationOk(c, i, c.nodes[i]) && c.nodes[i].role.Leader?
    requires var s := c.nodes[i];
             && s.term in c.hist.elected && c.hist.elected[s.term].leader == i
             && 0 < r < |s.log| && s.log[r].term == s.term && 1 + |Replicated(s, r)| > Size(c) / 2
    ensures CommitOk(c, Commit(c.nodes[i].term, r))
  {
    var s := c.nodes[i];
    var q := Replicated(s, r) + {i};
    assert i !in Replicated(s, r);
    assert |q| == 1 + |Replicated(s, r)|;
    forall v | v in q ensures Acked(c.hist, s.term, v, r) {
      if v != i {
        assert Acked(c.hist, s.term, v, s.matchIndex[v]);
      }
    }
    assert QuorumAcked(c, s.term, r, q);
  }

  lemma CommitGrown(h: History, h': History, i: NodeId, lo: nat, m: Commit)
    requires h' == h.(commits := h.commits + {m})
    ensures Grown(h, h', i, lo)
  {
  }

  lemma CommitSame(c: Cluster, c': Cluster, m: Commit, m': Commit)
    requires CommitOk(c, m) && c'.nodes.Keys == c.nodes.Keys
    requires c'.hist == c.hist.(commits := c.hist.commits + {m'})
    ensures CommitOk(c', m)
  {
    var q :| QuorumAcked(c, m.term, m.index, q);
    forall v | v in q ensures Acked(c'.hist, m.term, v, m.index) {
      assert Acked(c.hist, m.term, v, m.index);
    }
    assert QuorumAcked(c', m.term, m.index, q);
  }

  lemma CommitHistory(c: Cluster, c': Cluster, i: NodeId, lo: nat, m: Commit)
    requires c'.nodes.Keys == c.nodes.Keys && HistoryOk(c) && CommitOk(c, m)
    requires forall b :: b in c.hist.ballots && b.voter == i ==> b.term <= lo
    requires c'.hist == c.hist.(commits := c.hist.commits + {m})
    ensures Grown(c.hist, c'.hist, i, lo) && HistoryOk(c')
  {
    hide BallotOk, CommitOk, AckOk, Grown, TermOk, LogOk, Backed, Kept, Acked;
    var h, h' := c.hist, c'.hist;
    CommitGrown(h, h', i, lo, m);
    CommitSame(c, c', m, m);
    TermsKeep(h, h', i, lo);
    CandidaciesKeep(h, h', i, lo);
    HistoryKeeps(c, c', i, lo);
  }

  lemma CommitServer(c: Cluster, c': Cluster, i: NodeId, r: nat)
    requires i in c.nodes && c'.nodes.Keys == c.nodes.Keys && ServerOk(c, i, c.nodes[i])
    requires E.RoleOk(c, i, c.nodes[i]) && c.nodes[i].role.Leader?
    requires c.nodes[i].commitIndex < r < |c.nodes[i].log|
    requires Grown(c.hist, c'.hist, i, c.nodes[i].term)
    requires c'.hist == c.hist.(commits := c.hist.commits + {Commit(c.nodes[i].term, r)})
    ensures ServerOk(c', i, c.nodes[i].(commitIndex := r))
  {
    hide Grown, LogOk;
    var s := c.nodes[i];
    var s' := s.(commitIndex := r);
    var h, h' := c.hist, c'.hist;
    LogOkGrows(h, h', i, s.term, s.log);
    ReplicationKeeps(c, c', i, s.term, i, s);
    forall t: nat, k: nat | Acked(h', t, i, k) ensures Kept(h', t, k, s.log) {
      SameLeaders(h, h', s.log, t, i, k);
    }
    assert Commit(s.term, r) in h'.commits && Agree(h'.leaderLogs[s.term], s.log, r);
    assert Backed(h', s.term, r, s.log);
  }

  /** updateCommitIndex on a leader. */
  lemma CommitKeeps(c: Cluster, c': Cluster, i: NodeId)
    requires Inv(c) && E.Inv(c') && i in c.nodes && c.nodes[i].role.Leader?
    requires var s' := UpdateCommitIndex(c.nodes[i], Size(c));
             E.Moved(c, c', i, s', {}) && c'.hist == CommitTo(c.hist, c.nodes[i], s')
    ensures Inv(c')
  {
    hide ServerOk, MessageOk, Grown, E.Inv, HistoryOk;
    var s := c.nodes[i];
    var s' := UpdateCommitIndex(s, Size(c));
    CommitSearchFinds(s, Size(c), LastIndex(s.log));
    assert c'.nodes.Keys == c.nodes.Keys;
    if s'.commitIndex == s.commitIndex {
      assert s' == s;
      QuietKeeps(c, c', i, s', {});
    } else {
      VotesBounded(c, i);
      RoleOf(c, i);
      ReplicationOf(c, i);
      CommittedQuorum(c, i, s'.commitIndex);
      CommitHistory(c, c', i, s.term, Commit(s.term, s'.commitIndex));
      CommitServer(c, c', i, s'.commitIndex);
      StepKeeps(c, c', i, s.term, s', {});
    }
  }

  lemma ReplicationOf(c: Cluster, i: NodeId)
    requires i in c.nodes && ServerOk(c, i, c.nodes[i])
    ensures ReplicationOk(c, i, c.nodes[i])
  {
  }

  // ------------------------------------------------------------ answers, proposals

  /** What an answer does before updateCommitIndex runs. */
  ghost function Learned(s: Server, m: Message): Server
    requires m.AppendResp?
  {
    var next := m.args.prevLogIndex + 1;
    s.(nextIndex := s.nextIndex[m.from := next + |m.args.entries|],
       matchIndex := s.matchIndex[m.from := next + |m.args.entries| - 1])
  }

  lemma LearnedOk(c: Cluster, i: NodeId, s: Server, m: Message)
    requires ServerOk(c, i, s) && m.AppendResp? && MessageOk(c, m) && m.args.leader == i
    requires s.role.Leader? && s.term == m.args.term && m.reply.success
    requires AckOk(c.hist, Ack(m.args.term, m.from, m.args.prevLogIndex + |m.args.entries|))
    ensures ServerOk(c, i, Learned(s, m))
  {
    var a := Ack(m.args.term, m.from, m.args.prevLogIndex + |m.args.entries|);
    assert a in c.hist.acks && a.upTo == m.args.prevLogIndex + |m.args.entries|;
    assert Acked(c.hist, s.term, m.from, a.upTo);
  }

  lemma BackedOffOk(c: Cluster, i: NodeId, s: Server, m: Message)
    requires ServerOk(c, i, s) && m.AppendResp? && MessageOk(c, m) && m.args.leader == i
    requires s.role.Leader? && s.term == m.args.term && !m.reply.success && m.reply.term <= s.term
    ensures ServerOk(c, i, HandleAppendReply(s, Size(c), m.from, m.args.prevLogIndex + 1, |m.args.entries|, m.reply))
  {
  }

  lemma QuietElection(c: Cluster, c': Cluster, i: NodeId, s': Server)
    requires E.Inv(c) && E.Moved(c, c', i, s', {})
    requires c'.hist.ballots == c.hist.ballots && c'.hist.elected == c.hist.elected
    requires var s := c.nodes[i];
             && s'.term == s.term && s'.votedFor == s.votedFor && s'.role == s.role
             && s'.votes == s.votes && s'.disk == s.disk
    ensures E.Inv(c')
  {
    hide E.ServerOk;
    E.SameBallot(c, i, c.nodes[i], s');
    E.QuietKeeps(c, c', i, s', {});
  }

  lemma AckOf(c: Cluster, m: Message)
    requires HistoryOk(c) && m.AppendResp? && MessageOk(c, m) && m.reply.success
    ensures AckOk(c.hist, Ack(m.args.term, m.from, m.args.prevLogIndex + |m.args.entries|))
  {
  }

  lemma AppendRespKeeps(c: Cluster, c': Cluster, i: NodeId, m: Message)
    requires Inv(c) && E.Inv(c') && i in c.nodes && m in c.pool && m.AppendResp? && m.args.leader == i
    requires c.nodes[i].role.Leader? && c.nodes[i].term == m.args.term
    requires var s' := HandleAppendReply(c.nodes[i], Size(c), m.from, m.args.prevLogIndex + 1,
                                         |m.args.entries|, m.reply);
             E.Moved(c, c', i, s', {}) && c'.hist == CommitTo(c.hist, c.nodes[i], s')
    ensures Inv(c')
  {
    hide ServerOk, MessageOk, E.Inv, HistoryOk;
    var s := c.nodes[i];
    if m.reply.term > s.term {
      StepDownOk(c, i, s, m.reply.term);
      QuietKeeps(c, c', i, BecomeFollower(s, m.reply.term), {});
    } else if m.reply.success {
      var s1 := Learned(s, m);
      var c1 := c.(nodes := c.nodes[i := s1]);
      assert c1.nodes.Keys == c.nodes.Keys;
      QuietElection(c, c1, i, s1);
      AckOf(c, m);
      LearnedOk(c, i, s, m);
      QuietKeeps(c, c1, i, s1, {});
      assert c'.nodes == c1.nodes[i := c'.nodes[i]];
      CommitKeeps(c1, c', i);
    } else {
      BackedOffOk(c, i, s, m);
      QuietKeeps(c, c', i, c'.nodes[i], {});
    }
  }

  lemma SubmitKeeps(c: Cluster, c': Cluster, i: NodeId, command: seq<Byte>)
    requires Inv(c) && E.Inv(c') && i in c.nodes && c.nodes[i].role.Leader?
    requires var s := c.nodes[i];
             var s' := Propose(s, Size(c), command);
             && E.Moved(c, c', i, s', {})
             && c'.hist == CommitTo(c.hist.(leaderLogs := c.hist.leaderLogs[s.term := s'.log]), s, s')
    ensures Inv(c')
  {
    hide ServerOk, MessageOk, E.Inv, HistoryOk;
    var s := c.nodes[i];
    var s1 := AppendEntry(s, LogEntry(|s.log|, s.term, ENTRY_COMMAND, command));
    var log' := s1.log;
    var c1 := c.(nodes := c.nodes[i := s1], hist := c.hist.(leaderLogs := c.hist.leaderLogs[s.term := log']));
    assert c1.nodes.Keys == c.nodes.Keys;
    QuietElection(c, c1, i, s1);
    OwnKeeps(c, c1, i, log', s1.file);
    assert c'.nodes == c1.nodes[i := c'.nodes[i]];
    CommitKeeps(c1, c', i);
  }
}
