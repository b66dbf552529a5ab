/** Election safety: no term ever has two leaders, although a candidate that steps down in its own
    term forgets its vote and may vote again, and although a restart brings back a term file that
    only vote writes keep up to date. */
module RaftElection {
  import opened RaftServer
  import opened RaftCluster

  // ------------------------------------------------------------ the invariant

  ghost predicate Voted(h: History, term: nat, voter: NodeId, candidate: NodeId) {
    exists b :: b in h.ballots && b.term == term && b.voter == voter && b.candidate == candidate
  }

  /** Someone who voted twice in a term voted once for itself. */
  ghost predicate BallotsOk(h: History) {
    forall b1, b2 :: b1 in h.ballots && b2 in h.ballots && b1.term == b2.term && b1.voter == b2.voter ==>
      b1.candidate == b2.candidate || b1.candidate == b1.voter || b2.candidate == b2.voter
  }

  /** A term's winner holds a quorum of votes and voted for nobody else. */
  ghost predicate ElectionOk(c: Cluster, t: nat, e: Election) {
    && Quorum(c, e.voters)
    && (forall v :: v in e.voters ==> Voted(c.hist, t, v, e.leader))
    && (forall b :: b in c.hist.ballots && b.term == t && b.voter == e.leader ==> b.candidate == e.leader)
  }

  ghost predicate ElectionsOk(c: Cluster) {
    forall t :: t in c.hist.elected ==> ElectionOk(c, t, c.hist.elected[t])
  }

  /** How a server's memory and term file bound the votes it has cast. */
  ghost predicate VoterOk(h: History, i: NodeId, s: Server) {
    && s.disk.term <= s.term
    && forall b :: b in h.ballots && b.voter == i ==>
         && b.term <= s.disk.term && b.candidate != NOBODY
         && (b.term == s.term ==> b.candidate == i || b.candidate == s.votedFor)
         && (b.term == s.disk.term ==> b.candidate == i || b.candidate == s.disk.vote)
  }

  /** A winner keeps its own vote, in memory and on disk, for as long as it stays in the term. */
  ghost predicate WinnerOk(h: History, i: NodeId, s: Server) {
    forall t :: t in h.elected && h.elected[t].leader == i ==>
      && t <= s.disk.term
      && (t == s.disk.term ==> s.disk.vote == i)
      && (t == s.term ==> s.votedFor == i && !s.role.Candidate?)
  }

  ghost predicate RoleOk(c: Cluster, i: NodeId, s: Server) {
    && (!s.role.Follower? ==> s.votedFor == i && s.disk == TermFile(s.term, i))
    && (s.role.Leader? ==> s.term in c.hist.elected && c.hist.elected[s.term].leader == i)
    && (s.role.Candidate? ==>
          && i in s.votes
          && s.votes <= c.nodes.Keys
          && forall v :: v in s.votes ==> Voted(c.hist, s.term, v, i))
  }

  ghost predicate ServerOk(c: Cluster, i: NodeId, s: Server) {
    VoterOk(c.hist, i, s) && WinnerOk(c.hist, i, s) && RoleOk(c, i, s)
  }

  ghost predicate MessageOk(c: Cluster, m: Message) {
    match m
    case VoteReq(to, ask) => ask.candidate != to && ask.candidate != NOBODY
    case VoteResp(from, ask, vote) =>
      from in c.nodes && (vote.granted ==> vote.term == ask.term && Voted(c.hist, ask.term, from, ask.candidate))
    case AppendReq(to, args) =>
      args.leader != to && args.term in c.hist.elected && c.hist.elected[args.term].leader == args.leader
    case AppendResp(from, args, _) => true
  }

  ghost predicate Inv(c: Cluster) {
    && NOBODY !in c.nodes
    && BallotsOk(c.hist)
    && ElectionsOk(c)
    && (forall i :: i in c.nodes ==> ServerOk(c, i, c.nodes[i]))
    && (forall m :: m in c.pool ==> MessageOk(c, m))
  }

  // --------------------------------------------- what a step leaves untouched

  /** The history grows, and only by what server i did. */
  ghost predicate Grown(h: History, h': History, i: NodeId) {
    && h.ballots <= h'.ballots
    && (forall b :: b in h'.ballots && b !in h.ballots ==> b.voter == i)
    && (forall t :: t in h.elected ==> t in h'.elected && h'.elected[t] == h.elected[t])
    && (forall t :: t in h'.elected && t !in h.elected ==> h'.elected[t].leader == i)
  }

  lemma VotedGrows(h: History, h': History, t: nat, v: NodeId, d: NodeId)
    requires h.ballots <= h'.ballots && Voted(h, t, v, d)
    ensures Voted(h', t, v, d)
  {
  }

  /** Everyone but the actor keeps its part of the invariant. */
  lemma OthersKeep(c: Cluster, c': Cluster, i: NodeId, j: NodeId)
    requires Grown(c.hist, c'.hist, i) && c'.nodes.Keys == c.nodes.Keys
    requires j != i && j in c.nodes && ServerOk(c, j, c.nodes[j])
    ensures ServerOk(c', j, c.nodes[j])
  {
    var s := c.nodes[j];
    if s.role.Candidate? {
      forall v | v in s.votes ensures Voted(c'.hist, s.term, v, j) {
        VotedGrows(c.hist, c'.hist, s.term, v, j);
      }
    }
  }

  lemma MessagesKeep(c: Cluster, c': Cluster, i: NodeId, m: Message)
    requires Grown(c.hist, c'.hist, i) && c'.nodes.Keys == c.nodes.Keys && MessageOk(c, m)
    ensures MessageOk(c', m)
  {
    if m.VoteResp? && m.vote.granted {
      VotedGrows(c.hist, c'.hist, m.ask.term, m.from, m.ask.candidate);
    }
  }

  lemma ElectionsKeep(c: Cluster, c': Cluster, i: NodeId)
    requires ElectionsOk(c) && Grown(c.hist, c'.hist, i) && c'.nodes.Keys == c.nodes.Keys
    requires forall b :: b in c'.hist.ballots && b !in c.hist.ballots ==>
               b.candidate == i || (b.term in c'.hist.elected ==> c'.hist.elected[b.term].leader != i)
    requires forall t :: t in c'.hist.elected && t !in c.hist.elected ==>
               ElectionOk(c', t, c'.hist.elected[t])
    ensures ElectionsOk(c')
  {
    forall t | t in c.hist.elected ensures ElectionOk(c', t, c'.hist.elected[t]) {
      var e := c.hist.elected[t];
      assert ElectionOk(c, t, e);
      forall v | v in e.voters ensures Voted(c'.hist, t, v, e.leader) {
        VotedGrows(c.hist, c'.hist, t, v, e.leader);
      }
    }
  }

  ghost predicate Moved(c: Cluster, c': Cluster, i: NodeId, s': Server, sent: set<Message>) {
    i in c.nodes && c'.nodes == c.nodes[i := s'] && c'.pool == c.pool + sent
  }

  /** The frame argument shared by all actions. */
  lemma StepKeeps(c: Cluster, c': Cluster, i: NodeId, s': Server, sent: set<Message>)
    requires Inv(c) && Moved(c, c', i, s', sent) && Grown(c.hist, c'.hist, i)
    requires BallotsOk(c'.hist) && ElectionsOk(c') && ServerOk(c', i, s')
    requires forall m :: m in sent ==> MessageOk(c', m)
    ensures Inv(c')
  {
    forall j | j in c'.nodes ensures ServerOk(c', j, c'.nodes[j]) {
      if j != i { OthersKeep(c, c', i, j); }
    }
    forall m | m in c'.pool ensures MessageOk(c', m) {
      if m in c.pool { MessagesKeep(c, c', i, m); }
    }
  }

  /** Actions that cast no vote and win no term. */
  lemma QuietKeeps(c: Cluster, c': Cluster, i: NodeId, s': Server, sent: set<Message>)
    requires Inv(c) && Moved(c, c', i, s', sent)
    requires c'.hist.ballots == c.hist.ballots && c'.hist.elected == c.hist.elected
    requires ServerOk(c, i, s')
    requires forall m :: m in sent ==> MessageOk(c, m)
    ensures Inv(c')
  {
    assert Grown(c.hist, c'.hist, i);
    assert c'.nodes.Keys == c.nodes.Keys;
    ElectionsKeep(c, c', i);
    SameOk(c, c', i, s');
    forall m | m in sent ensures MessageOk(c', m) { MessagesKeep(c, c', i, m); }
    StepKeeps(c, c', i, s', sent);
  }

  lemma SameOk(c: Cluster, c': Cluster, i: NodeId, s: Server)
    requires c'.hist.ballots == c.hist.ballots && c'.hist.elected == c.hist.elected
    requires c'.nodes.Keys == c.nodes.Keys && ServerOk(c, i, s)
    ensures ServerOk(c', i, s)
  {
    if s.role.Candidate? {
      forall v | v in s.votes ensures Voted(c'.hist, s.term, v, i) {
        VotedGrows(c.hist, c'.hist, s.term, v, i);
      }
    }
  }

  // -------------------------------------------------------------- the actions

  lemma StepDownOk(c: Cluster, i: NodeId, s: Server, term: nat)
    requires ServerOk(c, i, s)
    requires term > s.term || (term == s.term && s.role.Candidate?)
    ensures ServerOk(c, i, BecomeFollower(s, term))
  {
  }

  /** Only these fields matter to elections. */
  lemma SameBallot(c: Cluster, i: NodeId, s: Server, s': Server)
    requires ServerOk(c, i, s)
    requires s'.term == s.term && s'.votedFor == s.votedFor && s'.role == s.role
    requires s'.votes == s.votes && s'.disk == s.disk
    ensures ServerOk(c, i, s')
  {
  }

  lemma BallotGrown(h: History, h': History, b: Ballot)
    requires h'.elected == h.elected && h'.ballots == h.ballots + {b}
    ensures Grown(h, h', b.voter)
  {
  }

  lemma CandidateOk(c: Cluster, c': Cluster, i: NodeId, s: Server)
    requires BallotsOk(c.hist) && ServerOk(c, i, s) && c'.nodes.Keys == c.nodes.Keys && i in c.nodes && i != NOBODY
    requires c'.hist.elected == c.hist.elected
    requires c'.hist.ballots == c.hist.ballots + {Ballot(s.term + 1, i, i, s.log)}
    ensures BallotsOk(c'.hist) && ServerOk(c', i, StartElection(s, i))
  {
    assert Ballot(s.term + 1, i, i, s.log) in c'.hist.ballots;
    assert Voted(c'.hist, s.term + 1, i, i);
  }

  lemma TimeoutKeeps(c: Cluster, c': Cluster, i: NodeId)
    requires Inv(c) && i in c.nodes && Moved(c, c', i, StartElection(c.nodes[i], i), {})
    requires var s := c.nodes[i];
             && c'.hist.elected == c.hist.elected
             && c'.hist.ballots == c.hist.ballots + {Ballot(s.term + 1, i, i, s.log)}
    ensures Inv(c')
  {
    hide ServerOk, MessageOk, ElectionsOk, BallotsOk, Grown;
    var s := c.nodes[i];
    assert c'.nodes.Keys == c.nodes.Keys;
    CandidateOk(c, c', i, s);
    BallotGrown(c.hist, c'.hist, Ballot(s.term + 1, i, i, s.log));
    ElectionsKeep(c, c', i);
    StepKeeps(c, c', i, StartElection(s, i), {});
  }

  lemma TwoVotes(h: History, t: nat, v: NodeId, d1: NodeId, d2: NodeId)
    requires BallotsOk(h) && Voted(h, t, v, d1) && Voted(h, t, v, d2)
    ensures d1 == d2 || d1 == v || d2 == v
  {
  }

  /** Nobody can have won the term in which a candidate gathers a quorum. */
  lemma FreshTerm(c: Cluster, i: NodeId, votes: set<NodeId>)
    requires Inv(c) && i in c.nodes && c.nodes[i].role.Candidate? && Quorum(c, votes)
    requires forall v :: v in votes ==> Voted(c.hist, c.nodes[i].term, v, i)
    ensures c.nodes[i].term !in c.hist.elected
  {
    var s := c.nodes[i];
    assert ServerOk(c, i, s);
    if s.term in c.hist.elected {
      var e := c.hist.elected[s.term];
      assert ElectionOk(c, s.term, e);
      var v := QuorumsIntersect(c, votes, e.voters);
      TwoVotes(c.hist, s.term, v, i, e.leader);
    }
  }

  lemma WinKeeps(c: Cluster, c': Cluster, i: NodeId, votes: set<NodeId>, peers: set<NodeId>)
    requires Inv(c) && i in c.nodes && c.nodes[i].role.Candidate? && Quorum(c, votes)
    requires forall v :: v in votes ==> Voted(c.hist, c.nodes[i].term, v, i)
    requires Moved(c, c', i, BecomeLeader(c.nodes[i].(votes := votes), i, peers), {})
    requires var s := c.nodes[i];
             && c'.hist.ballots == c.hist.ballots
             && c'.hist.elected == c.hist.elected[s.term := Election(i, s.log, votes)]
    ensures Inv(c')
  {
    var s := c.nodes[i];
    var s' := BecomeLeader(s.(votes := votes), i, peers);
    assert ServerOk(c, i, s);
    FreshTerm(c, i, votes);
    assert Grown(c.hist, c'.hist, i);
    assert c'.nodes.Keys == c.nodes.Keys;
    forall v | v in votes ensures Voted(c'.hist, s.term, v, i) {
      VotedGrows(c.hist, c'.hist, s.term, v, i);
    }
    assert ElectionOk(c', s.term, Election(i, s.log, votes));
    ElectionsKeep(c, c', i);
    WinnerServerOk(c, c', i, votes, peers);
    StepKeeps(c, c', i, s', {});
  }

  lemma WinnerServerOk(c: Cluster, c': Cluster, i: NodeId, votes: set<NodeId>, peers: set<NodeId>)
    requires i in c.nodes && c.nodes[i].role.Candidate? && ServerOk(c, i, c.nodes[i])
    requires var s := c.nodes[i];
             && c'.hist.ballots == c.hist.ballots
             && c'.hist.elected == c.hist.elected[s.term := Election(i, s.log, votes)]
    ensures ServerOk(c', i, BecomeLeader(c.nodes[i].(votes := votes), i, peers))
  {
  }

  lemma GrantKeeps(c: Cluster, c': Cluster, i: NodeId, m: Message)
    requires Inv(c) && i in c.nodes && m in c.pool && m.VoteReq? && m.to == i
    requires var (s', reply) := HandleRequestVote(c.nodes[i], m.ask);
             && reply.granted
             && Moved(c, c', i, s', {VoteResp(i, m.ask, reply)})
             && c'.hist.elected == c.hist.elected
             && c'.hist.ballots == c.hist.ballots + {Ballot(m.ask.term, i, m.ask.candidate, c.nodes[i].log)}
    ensures Inv(c')
  {
    hide VoterOk, WinnerOk, RoleOk, ElectionsOk, BallotsOk, Grown;
    var s := c.nodes[i];
    var (s', reply) := HandleRequestVote(s, m.ask);
    var b := Ballot(m.ask.term, i, m.ask.candidate, s.log);
    assert ServerOk(c, i, s) && MessageOk(c, m);
    assert b in c'.hist.ballots && Voted(c'.hist, m.ask.term, i, m.ask.candidate);
    BallotGrown(c.hist, c'.hist, b);
    GrantKeepsBallots(c.hist, c'.hist, i, s, m.ask);
    assert c'.nodes.Keys == c.nodes.Keys;
    ElectionsKeep(c, c', i);
    GranterOk(c, c', i, s, m.ask);
    StepKeeps(c, c', i, s', {VoteResp(i, m.ask, reply)});
  }

  /** The second vote of a server that stepped down is never its second vote for another. */
  lemma GrantKeepsBallots(h: History, h': History, i: NodeId, s: Server, ask: VoteArgs)
    requires BallotsOk(h) && VoterOk(h, i, s) && WinnerOk(h, i, s)
    requires i != NOBODY && ask.candidate != i && HandleRequestVote(s, ask).1.granted
    requires h'.ballots == h.ballots + {Ballot(ask.term, i, ask.candidate, s.log)}
    ensures BallotsOk(h')
    ensures ask.term in h.elected ==> h.elected[ask.term].leader != i
  {
    forall b | b in h.ballots && b.term == ask.term && b.voter == i
      ensures b.candidate == ask.candidate || b.candidate == i
    {
    }
  }

  lemma GranterOk(c: Cluster, c': Cluster, i: NodeId, s: Server, ask: VoteArgs)
    requires ServerOk(c, i, s) && i != NOBODY && ask.candidate != i && ask.candidate != NOBODY
    requires HandleRequestVote(s, ask).1.granted
    requires c'.hist.elected == c.hist.elected
    requires c'.hist.ballots == c.hist.ballots + {Ballot(ask.term, i, ask.candidate, s.log)}
    ensures ServerOk(c', i, HandleRequestVote(s, ask).0)
  {
  }

  lemma RefuseKeeps(c: Cluster, c': Cluster, i: NodeId, m: Message)
    requires Inv(c) && i in c.nodes && m in c.pool && m.VoteReq? && m.to == i
    requires var (s', reply) := HandleRequestVote(c.nodes[i], m.ask);
             && !reply.granted
             && Moved(c, c', i, s', {VoteResp(i, m.ask, reply)})
             && c'.hist == c.hist
    ensures Inv(c')
  {
    var s := c.nodes[i];
    var (s', reply) := HandleRequestVote(s, m.ask);
    assert ServerOk(c, i, s);
    if m.ask.term > s.term { StepDownOk(c, i, s, m.ask.term); }
    QuietKeeps(c, c', i, s', {VoteResp(i, m.ask, reply)});
  }

  lemma CountedOk(c: Cluster, i: NodeId, s: Server, m: Message)
    requires ServerOk(c, i, s) && m.VoteResp? && MessageOk(c, m) && m.ask.candidate == i
    requires s.role.Candidate? && s.term == m.ask.term && m.vote.granted
    ensures ServerOk(c, i, s.(votes := s.votes + {m.from}))
  {
  }

  lemma VoteRespKeeps(c: Cluster, c': Cluster, i: NodeId, m: Message)
    requires Inv(c) && i in c.nodes && m in c.pool && m.VoteResp? && m.ask.candidate == i
    requires c.nodes[i].role.Candidate? && c.nodes[i].term == m.ask.term
    requires var s' := CountVote(c.nodes[i], i, Peers(c, i), m.from, m.vote);
             && Moved(c, c', i, s', {})
             && c'.hist == Elect(c.hist, i, c.nodes[i], s')
    ensures Inv(c')
  {
    hide ServerOk, BallotsOk, ElectionsOk, BecomeLeader, WinnerOk, VoterOk;
    var s := c.nodes[i];
    var s' := CountVote(s, i, Peers(c, i), m.from, m.vote);
    assert ServerOk(c, i, s) && MessageOk(c, m);
    if m.vote.term > s.term {
      StepDownOk(c, i, s, m.vote.term);
      QuietKeeps(c, c', i, s', {});
    } else if m.vote.granted {
      CountedOk(c, i, s, m);
      var counted := s.(votes := s.votes + {m.from});
      if |counted.votes| >= VotesNeeded(|Peers(c, i)| + 1) {
        CountedWins(c, i, counted);
        Leads(counted, i, Peers(c, i));
        WinKeeps(c, c', i, counted.votes, Peers(c, i));
      } else {
        QuietKeeps(c, c', i, s', {});
      }
    } else {
      QuietKeeps(c, c', i, s', {});
    }
  }

  /** A candidate that has counted enough votes has a quorum of them. */
  lemma CountedWins(c: Cluster, i: NodeId, s: Server)
    requires i in c.nodes && ServerOk(c, i, s) && s.role.Candidate?
    requires |s.votes| >= VotesNeeded(|Peers(c, i)| + 1)
    ensures Quorum(c, s.votes) && forall v :: v in s.votes ==> Voted(c.hist, s.term, v, i)
  {
    hide VoterOk, WinnerOk, Voted;
    assert c.nodes.Keys == Peers(c, i) + {i};
  }

  lemma Leads(s: Server, i: NodeId, peers: set<NodeId>)
    ensures var s' := BecomeLeader(s, i, peers); s'.role.Leader? && s'.votes == s.votes
  {
  }

  /** A candidate that hears of its term's winner forgets its vote; it is not the winner itself. */
  lemma AppendReqKeeps(c: Cluster, c': Cluster, i: NodeId, m: Message)
    requires Inv(c) && i in c.nodes && m in c.pool && m.AppendReq? && m.to == i
    requires var (s', reply) := ReceiveAppend(c.nodes[i], m.args);
             && Moved(c, c', i, s', {AppendResp(i, m.args, reply)})
             && c'.hist.ballots == c.hist.ballots && c'.hist.elected == c.hist.elected
    ensures Inv(c')
  {
    hide VoterOk, WinnerOk, RoleOk, ElectionsOk, BallotsOk, AppendNew, ConflictIndex;
    var s := c.nodes[i];
    var (s', reply) := ReceiveAppend(s, m.args);
    assert ServerOk(c, i, s) && MessageOk(c, m);
    if |m.args.entries| > MAX_ENTRIES || m.args.term < s.term {
    } else if m.args.term > s.term || s.role.Candidate? {
      StepDownOk(c, i, s, m.args.term);
      SameBallot(c, i, BecomeFollower(s, m.args.term), s');
    } else {
      SameBallot(c, i, s, s');
    }
    QuietKeeps(c, c', i, s', {AppendResp(i, m.args, reply)});
  }

  lemma ReplyBallot(s: Server, n: nat, peer: NodeId, next: nat, len: nat, reply: AppendReply)
    requires next >= 1 && reply.term <= s.term
    ensures var s' := HandleAppendReply(s, n, peer, next, len, reply);
            && s'.term == s.term && s'.votedFor == s.votedFor && s'.role == s.role
            && s'.votes == s.votes && s'.disk == s.disk
  {
  }

  lemma AppendRespOk(c: Cluster, i: NodeId, s: Server, m: Message)
    requires m.AppendResp? && ServerOk(c, i, s)
    ensures ServerOk(c, i, HandleAppendReply(s, Size(c), m.from, m.args.prevLogIndex + 1, |m.args.entries|, m.reply))
  {
    if m.reply.term > s.term {
      StepDownOk(c, i, s, m.reply.term);
    } else {
      ReplyBallot(s, Size(c), m.from, m.args.prevLogIndex + 1, |m.args.entries|, m.reply);
      SameBallot(c, i, s, HandleAppendReply(s, Size(c), m.from, m.args.prevLogIndex + 1, |m.args.entries|, m.reply));
    }
  }

  lemma LocalKeeps(c: Cluster, a: Action)
    requires Inv(c) && Enabled(c, a)
    requires a.AskVote? || a.SendAppend? || a.Submit? || a.ApplyEntry?
    ensures Inv(Next(c, a))
  {
    hide VoterOk, WinnerOk, BallotsOk, ElectionsOk, Voted, CommitSearch, Moved;
    var i := Actor(a);
    assert ServerOk(c, i, c.nodes[i]);
    SameBallot(c, i, c.nodes[i], NextServer(c, a));
    assert forall m :: m in Sent(c, a) ==> MessageOk(c, m);
    QuietKeeps(c, Next(c, a), i, NextServer(c, a), Sent(c, a));
  }

  lemma RestartKeeps(c: Cluster, a: Action)
    requires Inv(c) && Enabled(c, a) && a.Restart?
    ensures Inv(Next(c, a))
  {
    assert ServerOk(c, a.node, c.nodes[a.node]);
    assert ServerOk(c, a.node, NextServer(c, a));
    QuietKeeps(c, Next(c, a), a.node, NextServer(c, a), {});
  }

  lemma ElectAloneKeeps(c: Cluster, a: Action)
    requires Inv(c) && Enabled(c, a) && a.ElectAlone?
    ensures Inv(Next(c, a))
  {
    var i := a.node;
    var s := c.nodes[i];
    assert ServerOk(c, i, s);
    assert c.nodes.Keys == {i};
    assert s.votes == {i};
    assert s == s.(votes := s.votes);
    WinKeeps(c, Next(c, a), i, s.votes, {});
  }

  lemma VoteReqStepKeeps(c: Cluster, a: Action)
    requires Inv(c) && Enabled(c, a) && a.OnVoteReq?
    ensures Inv(Next(c, a))
  {
    if HandleRequestVote(c.nodes[Actor(a)], a.msg.ask).1.granted { GrantKeeps(c, Next(c, a), Actor(a), a.msg); }
    else { RefuseKeeps(c, Next(c, a), Actor(a), a.msg); }
  }

  lemma VoteRespStepKeeps(c: Cluster, a: Action)
    requires Inv(c) && Enabled(c, a) && a.OnVoteResp?
    ensures Inv(Next(c, a))
  {
    VoteRespKeeps(c, Next(c, a), Actor(a), a.msg);
  }

  lemma AppendReqStepKeeps(c: Cluster, a: Action)
    requires Inv(c) && Enabled(c, a) && a.OnAppendReq?
    ensures Inv(Next(c, a))
  {
    hide ServerOk, MessageOk, ElectionsOk, BallotsOk, ReceiveAppend;
    AppendReqKeeps(c, Next(c, a), Actor(a), a.msg);
  }

  lemma AppendRespKeeps(c: Cluster, a: Action)
    requires Inv(c) && Enabled(c, a) && a.OnAppendResp?
    ensures Inv(Next(c, a))
  {
    hide ServerOk, MessageOk, BallotsOk, ElectionsOk, HandleAppendReply;
    var i := Actor(a);
    AppendRespOk(c, i, c.nodes[i], a.msg);
    QuietKeeps(c, Next(c, a), i, NextServer(c, a), {});
  }

  lemma NextKeeps(c: Cluster, a: Action)
    requires Inv(c) && Enabled(c, a)
    ensures Inv(Next(c, a))
  {
    match a
    case Timeout(i) => TimeoutKeeps(c, Next(c, a), i);
    case ElectAlone(_) => ElectAloneKeeps(c, a);
    case OnVoteReq(_) => VoteReqStepKeeps(c, a);
    case OnVoteResp(_) => VoteRespStepKeeps(c, a);
    case OnAppendReq(_) => AppendReqStepKeeps(c, a);
    case OnAppendResp(_) => AppendRespKeeps(c, a);
    case Restart(_, _) => RestartKeeps(c, a);
    case _ => LocalKeeps(c, a);
  }

  // --------------------------------------------------------------- the theorem

  lemma {:induction false} Reachable(states: seq<Cluster>, actions: seq<Action>, k: nat)
    requires IsRun(states, actions) && k < |states|
    ensures Inv(states[k])
  {
    if k > 0 {
      Reachable(states, actions, k - 1);
      assert Taken(states[k - 1], actions[k - 1], states[k]);
      NextKeeps(states[k - 1], actions[k - 1]);
    }
  }

  /** Elections won earlier in a run are still on record later. */
  lemma {:induction false} ElectedStays(states: seq<Cluster>, actions: seq<Action>, k1: nat, k2: nat, t: nat)
    requires IsRun(states, actions) && k1 <= k2 < |states| && t in states[k1].hist.elected
    ensures t in states[k2].hist.elected && states[k2].hist.elected[t] == states[k1].hist.elected[t]
    decreases k2 - k1
  {
    if k1 < k2 {
      Reachable(states, actions, k1);
      assert Taken(states[k1], actions[k1], states[k1 + 1]);
      ElectedOnce(states[k1], actions[k1], t);
      ElectedStays(states, actions, k1 + 1, k2, t);
    }
  }

  ghost predicate Wins(c: Cluster, a: Action)
    requires Enabled(c, a)
  {
    (a.OnVoteResp? || a.ElectAlone?) && NextServer(c, a).role.Leader?
  }

  lemma OnlyWinsElect(c: Cluster, a: Action)
    requires Enabled(c, a)
    ensures Next(c, a).hist.elected ==
            if Wins(c, a)
            then c.hist.elected[c.nodes[Actor(a)].term :=
                   Election(Actor(a), c.nodes[Actor(a)].log, NextServer(c, a).votes)]
            else c.hist.elected
  {
  }

  lemma ElectedOnce(c: Cluster, a: Action, t: nat)
    requires Inv(c) && Enabled(c, a) && t in c.hist.elected
    ensures t in Next(c, a).hist.elected && Next(c, a).hist.elected[t] == c.hist.elected[t]
  {
    OnlyWinsElect(c, a);
    if Wins(c, a) { WonFresh(c, a); }
  }

  lemma WonFresh(c: Cluster, a: Action)
    requires Inv(c) && Enabled(c, a) && Wins(c, a)
    ensures c.nodes[Actor(a)].term !in c.hist.elected
  {
    hide VoterOk, WinnerOk, BallotsOk, ElectionsOk, BecomeLeader;
    var i := Actor(a);
    var s := c.nodes[i];
    assert ServerOk(c, i, s);
    assert c.nodes.Keys == Peers(c, i) + {i};
    if a.OnVoteResp? {
      assert MessageOk(c, a.msg);
      CountedOk(c, i, s, a.msg);
      FreshTerm(c, i, s.votes + {a.msg.from});
    } else {
      assert s.votes == {i};
      FreshTerm(c, i, s.votes);
    }
  }

  /** At no two moments of a run, restarts included, do two servers lead the same term. */
  lemma ElectionSafety(states: seq<Cluster>, actions: seq<Action>, k1: nat, k2: nat, i: NodeId, j: NodeId)
    requires IsRun(states, actions) && k1 <= k2 < |states|
    requires i in states[k1].nodes && states[k1].nodes[i].role.Leader?
    requires j in states[k2].nodes && states[k2].nodes[j].role.Leader?
    requires states[k1].nodes[i].term == states[k2].nodes[j].term
    ensures i == j
  {
    Reachable(states, actions, k1);
    Reachable(states, actions, k2);
    assert ServerOk(states[k1], i, states[k1].nodes[i]);
    assert ServerOk(states[k2], j, states[k2].nodes[j]);
    ElectedStays(states, actions, k1, k2, states[k1].nodes[i].term);
  }

  /** A server never casts votes for two others in one term, and one that votes for another after
      voting for itself never leads that term. */
  lemma DoubleVoteIsHarmless(states: seq<Cluster>, actions: seq<Action>, k: nat, b1: Ballot, b2: Ballot)
    requires IsRun(states, actions) && k < |states|
    requires b1 in states[k].hist.ballots && b2 in states[k].hist.ballots
    requires b1.term == b2.term && b1.voter == b2.voter && b1.candidate != b2.candidate
    ensures b1.candidate == b1.voter || b2.candidate == b2.voter
    ensures b1.term in states[k].hist.elected ==> states[k].hist.elected[b1.term].leader != b1.voter
  {
    Reachable(states, actions, k);
    if b1.term in states[k].hist.elected {
      assert ElectionOk(states[k], b1.term, states[k].hist.elected[b1.term]);
    }
  }
}
