/** The safety of the replicated log, over every run whose restarts are clean: log matching, leader
    completeness, and agreement on everything any server has ever committed. */
module RaftSafety {
  import opened Bytes
  import opened RaftServer
  import opened RaftCluster
  import opened RaftLogs
  import opened RaftLogInv
  import opened RaftLogFrame
  import opened RaftLogSteps
  import E = RaftElection
  import L = RaftLeaderSteps
  import F = RaftFollowerSteps
  import D = RaftFile

  // ------------------------------------------------------------- every step

  lemma CountedOk(c: Cluster, i: NodeId, s: Server, votes: set<NodeId>)
    requires ServerOk(c, i, s)
    ensures ServerOk(c, i, s.(votes := votes))
  {
  }

  lemma VoteRespStep(c: Cluster, a: Action)
    requires Inv(c) && Enabled(c, a) && a.OnVoteResp?
    ensures Inv(Next(c, a))
  {
    hide ServerOk, HistoryOk, E.Inv, BecomeLeader;
    var i := Actor(a);
    var s := c.nodes[i];
    E.NextKeeps(c, a);
    if a.msg.vote.term > s.term {
      StepDownOk(c, i, s, a.msg.vote.term);
      QuietKeeps(c, Next(c, a), i, NextServer(c, a), {});
    } else if a.msg.vote.granted && |s.votes + {a.msg.from}| >= VotesNeeded(|Peers(c, i)| + 1) {
      LeaderRole(s.(votes := s.votes + {a.msg.from}), i, Peers(c, i));
      E.WonFresh(c, a);
      L.WinKeeps(c, Next(c, a), i, s.votes + {a.msg.from});
    } else {
      CountedOk(c, i, s, NextServer(c, a).votes);
      QuietKeeps(c, Next(c, a), i, NextServer(c, a), {});
    }
  }

  lemma LeaderRole(s: Server, i: NodeId, peers: set<NodeId>)
    ensures BecomeLeader(s, i, peers).role.Leader? && BecomeLeader(s, i, peers).votes == s.votes
  {
  }

  lemma ElectAloneStep(c: Cluster, a: Action)
    requires Inv(c) && Enabled(c, a) && a.ElectAlone?
    ensures Inv(Next(c, a))
  {
    hide ServerOk, HistoryOk, E.Inv, MessageOk, BecomeLeader;
    var i := a.node;
    var s := c.nodes[i];
    E.NextKeeps(c, a);
    LeaderRole(s, i, Peers(c, i));
    E.WonFresh(c, a);
    assert s == s.(votes := s.votes);
    L.WinKeeps(c, Next(c, a), i, s.votes);
  }

  lemma VoteReqStep(c: Cluster, a: Action)
    requires Inv(c) && Enabled(c, a) && a.OnVoteReq?
    ensures Inv(Next(c, a))
  {
    hide ServerOk, HistoryOk, E.Inv;
    var i := Actor(a);
    var s := c.nodes[i];
    E.NextKeeps(c, a);
    if HandleRequestVote(s, a.msg.ask).1.granted {
      GrantKeeps(c, Next(c, a), i, a.msg);
    } else {
      if a.msg.ask.term > s.term { StepDownOk(c, i, s, a.msg.ask.term); }
      QuietKeeps(c, Next(c, a), i, NextServer(c, a), Sent(c, a));
    }
  }

  lemma AppendReqStep(c: Cluster, a: Action)
    requires Inv(c) && Enabled(c, a) && a.OnAppendReq?
    ensures Inv(Next(c, a))
  {
    hide ServerOk, HistoryOk, E.Inv, MessageOk, Acknowledge, Accept, Rejection, PrevMatches;
    var i := Actor(a);
    E.NextKeeps(c, a);
    if ReceiveAppend(c.nodes[i], a.msg.args).1.success {
      F.AcceptKeeps(c, Next(c, a), i, a.msg);
    } else {
      F.RefuseKeeps(c, Next(c, a), i, a.msg);
    }
  }

  /** A leader's request carries its whole tail, so it reaches past the leader's commit index. */
  lemma RequestOk(c: Cluster, i: NodeId, p: NodeId)
    requires i in c.nodes && c.nodes[i].role.Leader? && p in Peers(c, i)
    requires ServerOk(c, i, c.nodes[i]) && TermsOk(c.hist)
    ensures var s := c.nodes[i];
            && p in s.nextIndex && s.nextIndex[p] >= 1
            && AppendOk(c.hist, Replicate(s, i, p))
  {
    var s := c.nodes[i];
    assert TermOk(c.hist, s.term, c.hist.elected[s.term], s.log);
  }

  lemma SendStep(c: Cluster, a: Action)
    requires Inv(c) && Enabled(c, a) && (a.AskVote? || a.SendAppend?)
    ensures Inv(Next(c, a))
  {
    hide E.Inv, HistoryOk, ServerOk, MessageOk, Replicate;
    var i := Actor(a);
    E.NextKeeps(c, a);
    assert ServerOk(c, i, c.nodes[i]);
    TermsOf(c);
    forall m | m in Sent(c, a) ensures MessageOk(c, m) {
      if a.SendAppend? {
        RequestOk(c, i, a.peer);
        RequestFits(c, m);
      } else {
        AskOk(c, a, m);
      }
    }
    QuietKeeps(c, Next(c, a), i, c.nodes[i], Sent(c, a));
  }

  lemma RequestFits(c: Cluster, m: Message)
    requires m.AppendReq? && m.to in c.nodes && AppendOk(c.hist, m.args)
    ensures MessageOk(c, m)
  {
    hide AppendOk;
  }

  lemma AskOk(c: Cluster, a: Action, m: Message)
    requires Enabled(c, a) && a.AskVote? && m in Sent(c, a) && ServerOk(c, a.node, c.nodes[a.node])
    ensures MessageOk(c, m)
  {
    hide LogStateOk, PastOk;
  }

  lemma AppliedOk(c: Cluster, i: NodeId, s: Server)
    requires ServerOk(c, i, s)
    ensures ServerOk(c, i, ApplyNext(s))
  {
  }

  lemma ApplyStep(c: Cluster, a: Action)
    requires Inv(c) && Enabled(c, a) && a.ApplyEntry?
    ensures Inv(Next(c, a))
  {
    hide E.Inv, HistoryOk, MessageOk, ServerOk, ApplyNext;
    E.NextKeeps(c, a);
    AppliedOk(c, a.node, c.nodes[a.node]);
    QuietKeeps(c, Next(c, a), a.node, NextServer(c, a), {});
  }

  lemma TimeoutStep(c: Cluster, a: Action)
    requires Inv(c) && Enabled(c, a) && a.Timeout?
    ensures Inv(Next(c, a))
  {
    hide E.Inv, HistoryOk, MessageOk, ServerOk;
    E.NextKeeps(c, a);
    TimeoutKeeps(c, Next(c, a), a.node);
  }

  lemma LeaderStep(c: Cluster, a: Action)
    requires Inv(c) && Enabled(c, a) && (a.OnAppendResp? || a.Submit?)
    ensures Inv(Next(c, a))
  {
    hide E.Inv, HistoryOk, MessageOk, ServerOk, HandleAppendReply, Propose;
    E.NextKeeps(c, a);
    if a.Submit? {
      L.SubmitKeeps(c, Next(c, a), a.node, a.command);
    } else {
      L.AppendRespKeeps(c, Next(c, a), Actor(a), a.msg);
    }
  }

  lemma ReloadOk(c: Cluster, i: NodeId, s: Server, applied: nat)
    requires ServerOk(c, i, s) && Load(s.file) == s.log && applied <= LastIndex(s.log)
    requires s.commitIndex == LastIndex(s.log) && s.disk.term == s.term
    ensures ServerOk(c, i, Reload(s, applied))
  {
    hide LogOk, Backed, Kept, Acked, Load;
  }

  /** A restart from the log file, where the file has nothing past the end of the log and no record that
      is too long, all of the log is committed, and the term file is up to date. */
  lemma RestartStep(c: Cluster, a: Action)
    requires Inv(c) && D.FilesOk(c) && Enabled(c, a) && a.Restart? && CleanAction(c, a)
    ensures Inv(Next(c, a))
  {
    hide E.Inv, HistoryOk, MessageOk, ServerOk, D.FilesOk, Load, NoTail, AllLegible;
    E.NextKeeps(c, a);
    D.CleanLog(c, a.node);
    ReloadOk(c, a.node, c.nodes[a.node], a.applied);
    QuietKeeps(c, Next(c, a), a.node, NextServer(c, a), {});
  }

  /** Every action keeps the invariant, a restart if it is clean. */
  lemma NextKeeps(c: Cluster, a: Action)
    requires Inv(c) && D.FilesOk(c) && Enabled(c, a) && CleanAction(c, a)
    ensures Inv(Next(c, a))
  {
    hide Inv, Enabled, Next, CleanRestart, D.FilesOk;
    match a
    case Timeout(_) => TimeoutStep(c, a);
    case ElectAlone(_) => ElectAloneStep(c, a);
    case AskVote(_, _) => SendStep(c, a);
    case OnVoteReq(_) => VoteReqStep(c, a);
    case OnVoteResp(_) => VoteRespStep(c, a);
    case SendAppend(_, _) => SendStep(c, a);
    case OnAppendReq(_) => AppendReqStep(c, a);
    case OnAppendResp(_) => LeaderStep(c, a);
    case Submit(_, _) => LeaderStep(c, a);
    case ApplyEntry(_) => ApplyStep(c, a);
    case Restart(_, _) => RestartStep(c, a);
  }

  lemma InitOk(c: Cluster)
    requires Init(c)
    ensures Inv(c)
  {
  }

  lemma {:induction false} Reachable(states: seq<Cluster>, actions: seq<Action>, k: nat)
    requires IsRun(states, actions) && CleanRestarts(states, actions) && k < |states|
    ensures Inv(states[k])
  {
    hide Inv, Next, D.FilesOk;
    if k == 0 {
      InitOk(states[0]);
    } else {
      Reachable(states, actions, k - 1);
      D.RunFiles(states, actions, k - 1);
      assert Taken(states[k - 1], actions[k - 1], states[k]);
      NextKeeps(states[k - 1], actions[k - 1]);
    }
  }

  // -------------------------------------------------------- looking back in time

  /** Leader logs only get longer, and commits stay on record. */
  ghost predicate Grew(h: History, h': History) {
    && (forall t :: t in h.leaderLogs ==> t in h'.leaderLogs && Extends(h.leaderLogs[t], h'.leaderLogs[t]))
    && h.commits <= h'.commits
  }

  lemma LeaderLogChange(c: Cluster, a: Action)
    requires Enabled(c, a)
    ensures Next(c, a).hist.leaderLogs ==
            if E.Wins(c, a) || a.Submit?
            then c.hist.leaderLogs[c.nodes[Actor(a)].term := NextServer(c, a).log]
            else c.hist.leaderLogs
    ensures c.hist.commits <= Next(c, a).hist.commits
  {
    hide ReceiveAppend, HandleRequestVote, HandleAppendReply, BecomeLeader, Propose;
  }

  lemma LeaderLogOf(c: Cluster, i: NodeId)
    requires Inv(c) && i in c.nodes && c.nodes[i].role.Leader?
    ensures c.nodes[i].term in c.hist.leaderLogs && c.hist.leaderLogs[c.nodes[i].term] == c.nodes[i].log
    ensures c.nodes[i].term in c.hist.elected
  {
    hide E.Inv, HistoryOk, MessageOk;
    assert ServerOk(c, i, c.nodes[i]);
    RoleOf(c, i);
  }

  lemma StepGrew(c: Cluster, a: Action)
    requires Inv(c) && Enabled(c, a)
    ensures Grew(c.hist, Next(c, a).hist)
  {
    hide E.Inv, ServerOk, MessageOk, HistoryOk, TermOk, Next, Enabled, CommitSearch;
    TermsOf(c);
    LeaderLogChange(c, a);
    if E.Wins(c, a) {
      E.WonFresh(c, a);
    } else if a.Submit? {
      SubmitProposes(c, a);
      LeaderLogOf(c, a.node);
      ProposeExtends(c.nodes[a.node], Size(c), a.command);
    }
  }

  lemma SubmitProposes(c: Cluster, a: Action)
    requires Enabled(c, a) && a.Submit?
    ensures a.node in c.nodes && c.nodes[a.node].role.Leader?
    ensures NextServer(c, a) == Propose(c.nodes[a.node], Size(c), a.command)
  {
    hide Propose;
  }

  lemma ProposeExtends(s: Server, n: nat, command: seq<Byte>)
    ensures Extends(s.log, Propose(s, n, command).log)
  {
  }

  lemma GrewRefl(h: History)
    ensures Grew(h, h)
  {
  }

  lemma GrewTrans(h1: History, h2: History, h3: History)
    requires Grew(h1, h2) && Grew(h2, h3)
    ensures Grew(h1, h3)
  {
  }

  lemma {:induction false} RunGrew(states: seq<Cluster>, actions: seq<Action>, k1: nat, k2: nat)
    requires IsRun(states, actions) && CleanRestarts(states, actions) && k1 <= k2 < |states|
    ensures Grew(states[k1].hist, states[k2].hist)
    decreases k2 - k1
  {
    hide Inv, Grew, Next;
    if k1 < k2 {
      Reachable(states, actions, k1);
      assert Taken(states[k1], actions[k1], states[k1 + 1]);
      StepGrew(states[k1], actions[k1]);
      RunGrew(states, actions, k1 + 1, k2);
      GrewTrans(states[k1].hist, states[k1 + 1].hist, states[k2].hist);
    } else {
      GrewRefl(states[k1].hist);
    }
  }

  lemma LogOkLater(h: History, h': History, log: Log)
    requires Grew(h, h') && LogOk(h, log)
    ensures LogOk(h', log)
  {
    forall k | 1 <= k < |log| ensures EntryOk(h', log, k) { assert EntryOk(h, log, k); }
  }

  lemma BackedLater(h: History, h': History, t: nat, k: nat, log: Log)
    requires Grew(h, h') && Backed(h, t, k, log)
    ensures Backed(h', t, k, log)
  {
    if k > 0 {
      var m :| m in h.commits && m.term <= t && k <= m.index &&
               m.term in h.leaderLogs && Agree(h.leaderLogs[m.term], log, k);
      assert Agree(h'.leaderLogs[m.term], log, k);
    }
  }

  /** What server i held at moment k1 of a run, seen from moment k2. */
  lemma SeenLater(states: seq<Cluster>, actions: seq<Action>, k1: nat, k2: nat, i: NodeId)
    requires IsRun(states, actions) && CleanRestarts(states, actions) && k1 <= k2 < |states| && i in states[k1].nodes
    ensures Inv(states[k2])
    ensures var s := states[k1].nodes[i];
            && s.lastApplied <= s.commitIndex < |s.log|
            && LogOk(states[k2].hist, s.log)
            && Backed(states[k2].hist, s.term, s.commitIndex, s.log)
  {
    hide E.Inv, HistoryOk, MessageOk, IsRun, CleanRestarts, Grew;
    Reachable(states, actions, k1);
    Reachable(states, actions, k2);
    RunGrew(states, actions, k1, k2);
    var s := states[k1].nodes[i];
    assert ServerOk(states[k1], i, s);
    LogOkLater(states[k1].hist, states[k2].hist, s.log);
    BackedLater(states[k1].hist, states[k2].hist, s.term, s.commitIndex, s.log);
  }

  // ---------------------------------------------------------------- the theorems

  /** Log matching: if two servers' logs, at any two moments, hold an entry of equal index and term,
      they hold the same entries up to it. Entries sit where their index says and terms never fall. */
  lemma LogMatching(states: seq<Cluster>, actions: seq<Action>, k1: nat, k2: nat, i: NodeId, j: NodeId)
    requires IsRun(states, actions) && CleanRestarts(states, actions) && k1 <= k2 < |states|
    requires i in states[k1].nodes && j in states[k2].nodes
    ensures Matching(states[k1].nodes[i].log, states[k2].nodes[j].log)
    ensures var log := states[k1].nodes[i].log;
            && (forall x :: 0 <= x < |log| ==> log[x].index == x)
            && (forall x, y :: 0 <= x <= y < |log| ==> log[x].term <= log[y].term)
  {
    hide Inv;
    SeenLater(states, actions, k1, k2, i);
    SeenLater(states, actions, k2, k2, j);
    LogsMatch(states[k2].hist, states[k1].nodes[i].log, states[k2].nodes[j].log);
  }

  /** Leader completeness: whatever any server has committed is in the log of every server that leads
      the same or a later term from then on. */
  lemma LeaderCompleteness(states: seq<Cluster>, actions: seq<Action>, k1: nat, k2: nat, i: NodeId, j: NodeId)
    requires IsRun(states, actions) && CleanRestarts(states, actions) && k1 <= k2 < |states|
    requires i in states[k1].nodes && j in states[k2].nodes && states[k2].nodes[j].role.Leader?
    requires states[k1].nodes[i].term <= states[k2].nodes[j].term
    ensures Agree(states[k1].nodes[i].log, states[k2].nodes[j].log, states[k1].nodes[i].commitIndex)
  {
    hide E.Inv, HistoryOk, MessageOk, ServerOk, IsRun, CleanRestarts, LogOk, Backed, Agree;
    var s := states[k1].nodes[i];
    SeenLater(states, actions, k1, k2, i);
    LeaderLogOf(states[k2], j);
    F.ElectionsOf(states[k2]);
    F.BackedInLeader(states[k2], s.log, s.term, s.commitIndex, states[k2].nodes[j].term);
  }

  lemma CommitsAgree(c: Cluster, m1: Commit, m2: Commit, x: nat)
    requires E.ElectionsOk(c) && HistoryOk(c) && m1 in c.hist.commits && m2 in c.hist.commits
    requires x <= m1.index && x <= m2.index
    ensures m1.term in c.hist.leaderLogs && m2.term in c.hist.leaderLogs
    ensures Agree(c.hist.leaderLogs[m1.term], c.hist.leaderLogs[m2.term], x)
  {
    assert CommitOk(c, m1) && CommitOk(c, m2);
    if m1.term <= m2.term {
      F.CommittedInLeader(c, m1, m2.term);
    } else {
      F.CommittedInLeader(c, m2, m1.term);
    }
  }

  lemma BackedAgree(c: Cluster, t1: nat, x1: nat, a: Log, t2: nat, x2: nat, b: Log, x: nat)
    requires E.ElectionsOk(c) && HistoryOk(c) && LogOk(c.hist, a) && LogOk(c.hist, b)
    requires Backed(c.hist, t1, x1, a) && Backed(c.hist, t2, x2, b) && x <= x1 && x <= x2
    ensures Agree(a, b, x)
  {
    hide E.ElectionsOk, HistoryOk;
    if x > 0 {
      var m1 :| m1 in c.hist.commits && m1.term <= t1 && x1 <= m1.index &&
                m1.term in c.hist.leaderLogs && Agree(c.hist.leaderLogs[m1.term], a, x1);
      var m2 :| m2 in c.hist.commits && m2.term <= t2 && x2 <= m2.index &&
                m2.term in c.hist.leaderLogs && Agree(c.hist.leaderLogs[m2.term], b, x2);
      CommitsAgree(c, m1, m2, x);
    }
  }

  /** State machine safety: no two servers, at any two moments, have different entries at an index
      both have committed. */
  lemma StateMachineSafety(states: seq<Cluster>, actions: seq<Action>, k1: nat, k2: nat,
                           i: NodeId, j: NodeId, x: nat)
    requires IsRun(states, actions) && CleanRestarts(states, actions) && k1 <= k2 < |states|
    requires i in states[k1].nodes && j in states[k2].nodes
    requires x <= states[k1].nodes[i].commitIndex && x <= states[k2].nodes[j].commitIndex
    ensures Agree(states[k1].nodes[i].log, states[k2].nodes[j].log, x)
  {
    hide E.Inv, HistoryOk, MessageOk, ServerOk, IsRun, CleanRestarts, LogOk, Backed, Agree;
    var c := states[k2];
    var s1, s2 := states[k1].nodes[i], states[k2].nodes[j];
    SeenLater(states, actions, k1, k2, i);
    SeenLater(states, actions, k2, k2, j);
    F.ElectionsOf(c);
    BackedAgree(c, s1.term, s1.commitIndex, s1.log, s2.term, s2.commitIndex, s2.log, x);
  }

  /** The entries a server has handed to its state machine. */
  function Applied(s: Server): seq<LogEntry>
    requires s.lastApplied < |s.log|
  {
    s.log[1..s.lastApplied + 1]
  }

  /** So all servers apply the same entries in the same order: of any two applied sequences, one is
      a prefix of the other. */
  lemma AppliedPrefixes(states: seq<Cluster>, actions: seq<Action>, k1: nat, k2: nat, i: NodeId, j: NodeId)
    requires IsRun(states, actions) && CleanRestarts(states, actions) && k1 <= k2 < |states|
    requires i in states[k1].nodes && j in states[k2].nodes
    ensures var s1, s2 := states[k1].nodes[i], states[k2].nodes[j];
            && s1.lastApplied < |s1.log| && s2.lastApplied < |s2.log|
            && (Applied(s1) <= Applied(s2) || Applied(s2) <= Applied(s1))
  {
    hide Inv, IsRun, CleanRestarts, LogOk, Backed;
    var s1, s2 := states[k1].nodes[i], states[k2].nodes[j];
    SeenLater(states, actions, k1, k2, i);
    SeenLater(states, actions, k2, k2, j);
    var x := if s1.lastApplied <= s2.lastApplied then s1.lastApplied else s2.lastApplied;
    StateMachineSafety(states, actions, k1, k2, i, j, x);
  }

  // ----------------------------------------------------- commits are never undone

  lemma AcceptMonotone(c: Cluster, i: NodeId, m: Message)
    requires Inv(c) && i in c.nodes && m in c.pool && m.AppendReq? && m.to == i
    requires ReceiveAppend(c.nodes[i], m.args).1.success
    ensures m.args.leaderCommit <= m.args.prevLogIndex + |m.args.entries|
    ensures var s, s' := c.nodes[i], ReceiveAppend(c.nodes[i], m.args).0;
            && s.commitIndex <= s'.commitIndex
            && s'.commitIndex == (if m.args.leaderCommit > s.commitIndex then m.args.leaderCommit else s.commitIndex)
            && Agree(s.log, s'.log, s.commitIndex)
            && m.args.term in c.hist.leaderLogs
            && Agree(s'.log, c.hist.leaderLogs[m.args.term], m.args.prevLogIndex + |m.args.entries|)
  {
    hide E.Inv, HistoryOk, LogOk, Backed, AppendNew, Acknowledge, E.WinnerOk, E.RoleOk, ReplicationOk, PastOk;
    var s := c.nodes[i];
    var a := m.args;
    var s1 := Acknowledge(s, a);
    F.LeaderIsOther(c, m);
    assert MessageOk(c, m) && ServerOk(c, i, s);
    RoleOf(c, i);
    F.AcknowledgeOk(c, i, s, a);
    AcknowledgeLog(s, a);
    TermsOf(c);
    F.AcceptMerges(c.hist, s1.log, a);
    F.ElectionsOf(c);
    F.AcceptCommits(c, s1, a);
  }

  lemma TermsOf(c: Cluster)
    requires HistoryOk(c)
    ensures TermsOk(c.hist)
  {
  }

  lemma AcknowledgeLog(s: Server, a: AppendArgs)
    ensures Acknowledge(s, a).log == s.log && Acknowledge(s, a).commitIndex == s.commitIndex
  {
  }

  lemma OtherCommits(c: Cluster, a: Action)
    requires D.FilesOk(c) && Enabled(c, a) && CleanAction(c, a) && !a.OnAppendReq?
    ensures c.nodes[Actor(a)].commitIndex <= NextServer(c, a).commitIndex
  {
    hide D.FilesOk, Load, NoTail, AllLegible;
    var s := c.nodes[Actor(a)];
    if a.OnAppendResp? {
      var s1 := L.Learned(s, a.msg);
      L.CommitSearchFinds(s1, Size(c), LastIndex(s1.log));
    } else if a.Submit? {
      var s1 := AppendEntry(s, LogEntry(|s.log|, s.term, ENTRY_COMMAND, a.command));
      L.CommitSearchFinds(s1, Size(c), LastIndex(s1.log));
    } else if a.Restart? {
      D.CleanLog(c, a.node);
    }
  }

  lemma StepCommits(c: Cluster, a: Action, i: NodeId)
    requires Inv(c) && D.FilesOk(c) && Enabled(c, a) && CleanAction(c, a) && i in c.nodes
    ensures i in Next(c, a).nodes && c.nodes[i].commitIndex <= Next(c, a).nodes[i].commitIndex
  {
    hide Inv, ReceiveAppend, D.FilesOk;
    if i == Actor(a) {
      if a.OnAppendReq? {
        RefusalCommits(c.nodes[i], a.msg.args);
        if ReceiveAppend(c.nodes[i], a.msg.args).1.success { AcceptMonotone(c, i, a.msg); }
      } else {
        OtherCommits(c, a);
      }
    }
  }

  lemma RefusalCommits(s: Server, a: AppendArgs)
    ensures !ReceiveAppend(s, a).1.success ==>
              ReceiveAppend(s, a).0.commitIndex == s.commitIndex && ReceiveAppend(s, a).0.log == s.log
  {
  }

  lemma {:induction false} RunCommits(states: seq<Cluster>, actions: seq<Action>, k1: nat, k2: nat, i: NodeId)
    requires IsRun(states, actions) && CleanRestarts(states, actions) && k1 <= k2 < |states| && i in states[k1].nodes
    ensures i in states[k2].nodes && states[k1].nodes[i].commitIndex <= states[k2].nodes[i].commitIndex
    decreases k2 - k1
  {
    hide Inv, Next, D.FilesOk;
    if k1 < k2 {
      Reachable(states, actions, k1);
      D.RunFiles(states, actions, k1);
      assert Taken(states[k1], actions[k1], states[k1 + 1]);
      StepCommits(states[k1], actions[k1], i);
      RunCommits(states, actions, k1 + 1, k2, i);
    }
  }

  /** A server's commit index never falls and never passes the end of its log, the apply loop never
      passes it, and no truncation ever removes a committed entry. */
  lemma CommittedForever(states: seq<Cluster>, actions: seq<Action>, k1: nat, k2: nat, i: NodeId)
    requires IsRun(states, actions) && CleanRestarts(states, actions) && k1 <= k2 < |states| && i in states[k1].nodes
    ensures i in states[k2].nodes
    ensures var s1, s2 := states[k1].nodes[i], states[k2].nodes[i];
            && s1.commitIndex <= s2.commitIndex <= LastIndex(s2.log) && s2.lastApplied <= s2.commitIndex
            && Agree(s1.log, s2.log, s1.commitIndex)
  {
    hide Inv, IsRun, CleanRestarts, LogOk, Backed, Agree;
    RunCommits(states, actions, k1, k2, i);
    SeenLater(states, actions, k2, k2, i);
    StateMachineSafety(states, actions, k1, k2, i, i, states[k1].nodes[i].commitIndex);
  }

  /** The clamp is sound: every AppendEntries ever sent covers its own leaderCommit, so whenever it is
      accepted, however late or often, the follower's commit index becomes exactly the larger of its
      own and leaderCommit, and the follower's log is the leader's up to the end of the request. */
  lemma CommitClamp(states: seq<Cluster>, actions: seq<Action>, k: nat, m: Message)
    requires IsRun(states, actions) && CleanRestarts(states, actions) && k < |states|
    requires m in states[k].pool && m.AppendReq?
    ensures m.args.leaderCommit <= m.args.prevLogIndex + |m.args.entries|
    ensures m.to in states[k].nodes && ReceiveAppend(states[k].nodes[m.to], m.args).1.success ==>
              var s, s' := states[k].nodes[m.to], ReceiveAppend(states[k].nodes[m.to], m.args).0;
              && s'.commitIndex == (if m.args.leaderCommit > s.commitIndex then m.args.leaderCommit else s.commitIndex)
              && m.args.term in states[k].hist.leaderLogs
              && Agree(s'.log, states[k].hist.leaderLogs[m.args.term], m.args.prevLogIndex + |m.args.entries|)
  {
    hide E.Inv, HistoryOk, ServerOk, ReceiveAppend;
    Reachable(states, actions, k);
    assert MessageOk(states[k], m);
    if m.to in states[k].nodes && ReceiveAppend(states[k].nodes[m.to], m.args).1.success {
      AcceptMonotone(states[k], m.to, m);
    }
  }
}
