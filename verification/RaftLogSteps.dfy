/** Steps that leave every log alone keep the log invariant. */
module RaftLogSteps {
  import opened RaftServer
  import opened RaftCluster
  import opened RaftLogs
  import opened RaftLogInv
  import opened RaftLogFrame
  import E = RaftElection

  // ---------------------------------------------- steps that leave no trace

  lemma SameServerOk(c: Cluster, c': Cluster, i: NodeId, s: Server)
    requires c'.hist == c.hist && c'.nodes.Keys == c.nodes.Keys && ServerOk(c, i, s)
    ensures ServerOk(c', i, s)
  {
  }

  lemma SameMessageOk(c: Cluster, c': Cluster, m: Message)
    requires c'.hist == c.hist && c'.nodes.Keys == c.nodes.Keys && MessageOk(c, m)
    ensures MessageOk(c', m)
  {
  }

  lemma VotesBounded(c: Cluster, i: NodeId)
    requires E.Inv(c) && i in c.nodes
    ensures forall b :: b in c.hist.ballots && b.voter == i ==> b.term <= c.nodes[i].term
  {
    assert E.ServerOk(c, i, c.nodes[i]);
  }

  lemma RoleOf(c: Cluster, i: NodeId)
    requires E.Inv(c) && i in c.nodes
    ensures E.RoleOk(c, i, c.nodes[i]) && E.WinnerOk(c.hist, i, c.nodes[i])
    ensures c.nodes[i].disk.term <= c.nodes[i].term
  {
    assert E.ServerOk(c, i, c.nodes[i]);
  }

  lemma QuietKeeps(c: Cluster, c': Cluster, i: NodeId, s': Server, sent: set<Message>)
    requires Inv(c) && E.Inv(c') && E.Moved(c, c', i, s', sent) && c'.hist == c.hist
    requires ServerOk(c, i, s')
    requires forall m :: m in sent ==> MessageOk(c, m)
    ensures Inv(c')
  {
    hide ServerOk, MessageOk, TermsOk, CandidaciesOk, CommitOk, BallotOk, AckOk, E.Inv;
    var lo := c.nodes[i].term;
    assert c'.nodes.Keys == c.nodes.Keys;
    VotesBounded(c, i);
    HistoryKeeps(c, c', i, lo);
    SameServerOk(c, c', i, s');
    forall m | m in sent ensures MessageOk(c', m) { SameMessageOk(c, c', m); }
    StepKeeps(c, c', i, lo, s', sent);
  }

  lemma StepDownOk(c: Cluster, i: NodeId, s: Server, term: nat)
    requires ServerOk(c, i, s) && term >= s.term
    ensures ServerOk(c, i, BecomeFollower(s, term))
  {
  }

  // ------------------------------------------------------------- candidates

  lemma TimeoutGrown(h: History, h': History, i: NodeId, s: Server)
    requires forall x :: x in h.candidacies && x.1 == i ==> x.0 <= s.term
    requires h' == h.(candidacies := h.candidacies[(s.term + 1, i) := s.log],
                      ballots := h.ballots + {Ballot(s.term + 1, i, i, s.log)})
    ensures Grown(h, h', i, s.term)
  {
    assert (s.term + 1, i) !in h.candidacies;
  }

  lemma TimeoutHistory(c: Cluster, c': Cluster, i: NodeId)
    requires i in c.nodes && c'.nodes.Keys == c.nodes.Keys && HistoryOk(c) && ServerOk(c, i, c.nodes[i])
    requires forall b :: b in c.hist.ballots && b.voter == i ==> b.term <= c.nodes[i].term
    requires var s := c.nodes[i];
             c'.hist == c.hist.(candidacies := c.hist.candidacies[(s.term + 1, i) := s.log],
                                ballots := c.hist.ballots + {Ballot(s.term + 1, i, i, s.log)})
    ensures Grown(c.hist, c'.hist, i, c.nodes[i].term) && HistoryOk(c')
  {
    hide BallotOk, CommitOk, AckOk, Grown, TermOk, LogOk, ReplicationOk, Backed, Kept, Acked;
    var s := c.nodes[i];
    var h, h' := c.hist, c'.hist;
    TimeoutGrown(h, h', i, s);
    TermsKeep(h, h', i, s.term);
    LogOkGrows(h, h', i, s.term, s.log);
    CandidaciesKeep(h, h', i, s.term);
    SelfBallotOk(h, h', i, s);
    HistoryKeeps(c, c', i, s.term);
  }

  lemma TimeoutKeeps(c: Cluster, c': Cluster, i: NodeId)
    requires Inv(c) && E.Inv(c') && i in c.nodes
    requires E.Moved(c, c', i, StartElection(c.nodes[i], i), {})
    requires var s := c.nodes[i];
             c'.hist == c.hist.(candidacies := c.hist.candidacies[(s.term + 1, i) := s.log],
                                ballots := c.hist.ballots + {Ballot(s.term + 1, i, i, s.log)})
    ensures Inv(c')
  {
    hide ServerOk, MessageOk, HistoryOk, Grown, E.Inv;
    var s := c.nodes[i];
    assert c'.nodes.Keys == c.nodes.Keys;
    VotesBounded(c, i);
    TimeoutHistory(c, c', i);
    CandidateOk(c, c', i, s);
    StepKeeps(c, c', i, s.term, StartElection(s, i), {});
  }

  lemma SameLeaders(h: History, h': History, log: Log, t: nat, v: NodeId, k: nat)
    requires h'.elected == h.elected && h'.leaderLogs == h.leaderLogs && h'.acks == h.acks
    ensures Acked(h', t, v, k) <==> Acked(h, t, v, k)
    ensures Kept(h, t, k, log) ==> Kept(h', t, k, log)
  {
    if Kept(h, t, k, log) && !Agree(h.leaderLogs[t], log, k) {
      var u: nat :| u <= LastTerm(log) && Lost(h, t, k, u);
      assert Lost(h', t, k, u);
    }
  }

  lemma SelfBallotOk(h: History, h': History, i: NodeId, s: Server)
    requires LogOk(h', s.log) && PastOk(h, i, s)
    requires h'.elected == h.elected && h'.leaderLogs == h.leaderLogs && h'.acks == h.acks
    requires (s.term + 1, i) in h'.candidacies && h'.candidacies[(s.term + 1, i)] == s.log
    ensures BallotOk(h', Ballot(s.term + 1, i, i, s.log))
  {
    forall t: nat, k: nat | Acked(h', t, i, k) ensures Kept(h', t, k, s.log) {
      SameLeaders(h, h', s.log, t, i, k);
    }
  }

  lemma CandidateOk(c: Cluster, c': Cluster, i: NodeId, s: Server)
    requires ServerOk(c, i, s) && c'.nodes.Keys == c.nodes.Keys && Grown(c.hist, c'.hist, i, s.term)
    requires c'.hist.elected == c.hist.elected && c'.hist.leaderLogs == c.hist.leaderLogs
    requires c'.hist.acks == c.hist.acks
    requires c'.hist.candidacies == c.hist.candidacies[(s.term + 1, i) := s.log]
    ensures ServerOk(c', i, StartElection(s, i))
  {
    LogOkGrows(c.hist, c'.hist, i, s.term, s.log);
    BackedGrows(c.hist, c'.hist, i, s.term, s.term, s.commitIndex, s.log);
    forall t: nat, k: nat | Acked(c'.hist, t, i, k) ensures Kept(c'.hist, t, k, s.log) {
      SameLeaders(c.hist, c'.hist, s.log, t, i, k);
    }
  }

  lemma GrantGrown(h: History, h': History, i: NodeId, lo: nat, b: Ballot)
    requires h' == h.(ballots := h.ballots + {b}) && b.voter == i
    ensures Grown(h, h', i, lo)
  {
  }

  lemma GrantHistory(c: Cluster, c': Cluster, i: NodeId, ask: VoteArgs)
    requires i in c.nodes && c'.nodes.Keys == c.nodes.Keys && HistoryOk(c) && ServerOk(c, i, c.nodes[i])
    requires forall b :: b in c.hist.ballots && b.voter == i ==> b.term <= c.nodes[i].term
    requires MessageOk(c, VoteReq(i, ask)) && HandleRequestVote(c.nodes[i], ask).1.granted
    requires c'.hist == c.hist.(ballots := c.hist.ballots + {Ballot(ask.term, i, ask.candidate, c.nodes[i].log)})
    ensures Grown(c.hist, c'.hist, i, c.nodes[i].term) && HistoryOk(c')
  {
    hide BallotOk, CommitOk, AckOk, Grown, TermOk, LogOk, ReplicationOk, Backed, Kept, Acked;
    var s := c.nodes[i];
    var h, h' := c.hist, c'.hist;
    GrantGrown(h, h', i, s.term, Ballot(ask.term, i, ask.candidate, s.log));
    TermsKeep(h, h', i, s.term);
    LogOkGrows(h, h', i, s.term, s.log);
    CandidaciesKeep(h, h', i, s.term);
    VoterBallotOk(h, h', i, s, ask);
    HistoryKeeps(c, c', i, s.term);
  }

  lemma GrantKeeps(c: Cluster, c': Cluster, i: NodeId, m: Message)
    requires Inv(c) && E.Inv(c') && i in c.nodes && m in c.pool && m.VoteReq? && m.to == i
    requires var (s', reply) := HandleRequestVote(c.nodes[i], m.ask);
             && reply.granted
             && E.Moved(c, c', i, s', {VoteResp(i, m.ask, reply)})
             && c'.hist == c.hist.(ballots := c.hist.ballots + {Ballot(m.ask.term, i, m.ask.candidate, c.nodes[i].log)})
    ensures Inv(c')
  {
    hide ServerOk, HistoryOk, Grown, E.Inv;
    var s := c.nodes[i];
    var (s', reply) := HandleRequestVote(s, m.ask);
    assert c'.nodes.Keys == c.nodes.Keys;
    assert MessageOk(c, m) && m == VoteReq(i, m.ask);
    VotesBounded(c, i);
    GrantHistory(c, c', i, m.ask);
    RoleOf(c, i);
    VoterOk(c, c', i, s, s');
    StepKeeps(c, c', i, s.term, s', {VoteResp(i, m.ask, reply)});
  }

  lemma VoterBallotOk(h: History, h': History, i: NodeId, s: Server, ask: VoteArgs)
    requires LogOk(h', s.log) && PastOk(h, i, s)
    requires h'.elected == h.elected && h'.leaderLogs == h.leaderLogs && h'.acks == h.acks
    requires (ask.term, ask.candidate) in h'.candidacies
    requires var d := h'.candidacies[(ask.term, ask.candidate)];
             ask.lastLogIndex == LastIndex(d) && ask.lastLogTerm == LastTerm(d)
    requires HandleRequestVote(s, ask).1.granted
    ensures BallotOk(h', Ballot(ask.term, i, ask.candidate, s.log))
  {
    forall t: nat, k: nat | Acked(h', t, i, k) ensures Kept(h', t, k, s.log) {
      SameLeaders(h, h', s.log, t, i, k);
    }
  }

  lemma VoterOk(c: Cluster, c': Cluster, i: NodeId, s: Server, s': Server)
    requires ServerOk(c, i, s) && E.RoleOk(c, i, s)
    requires c'.nodes.Keys == c.nodes.Keys && Grown(c.hist, c'.hist, i, s.term)
    requires c'.hist.elected == c.hist.elected && c'.hist.leaderLogs == c.hist.leaderLogs
    requires c'.hist.acks == c.hist.acks && c'.hist.candidacies == c.hist.candidacies
    requires s' == s.(votedFor := s'.votedFor, disk := s'.disk) ||
             (s.term < s'.term && s' == s.(role := Follower, term := s'.term, votedFor := s'.votedFor, disk := s'.disk))
    ensures ServerOk(c', i, s')
  {
    LogOkGrows(c.hist, c'.hist, i, s.term, s.log);
    BackedGrows(c.hist, c'.hist, i, s.term, s.term, s.commitIndex, s.log);
    forall t: nat, k: nat | Acked(c'.hist, t, i, k) ensures Kept(c'.hist, t, k, s.log) {
      SameLeaders(c.hist, c'.hist, s.log, t, i, k);
    }
    ReplicationKeeps(c, c', i, s.term, i, s);
  }
}
