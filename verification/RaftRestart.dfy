/** Why the log theorems ask restarts to be clean. A restart is clean when the log file holds no record
    past the end of the log and none that is too long, all of the log is committed, and the term file is
    up to date. For each of the four conditions there is a run whose restarts lack that one alone and on
    which two servers count different entries as committed. */
module RaftRestart {
  import opened Bytes
  import opened RaftServer
  import opened RaftCluster
  import opened RaftLogs
  import opened RaftRunSteps
  import D = RaftFile

  // ------------------------------------------------------------------------ the runs

  function Noop(index: nat, term: nat): LogEntry { LogEntry(index, term, ENTRY_NOOP, []) }

  function FreshCluster(nodes: map<NodeId, Server>): Cluster {
    Cluster(nodes, {}, History(map[], map[], {}, map[], {}, {}))
  }

  /** A run that ends with two servers that have committed different entries. */
  lemma EndsApart(x: Condition, c: Cluster, actions: seq<Action>, last: Cluster, i: NodeId, j: NodeId, n: nat)
    returns (states: seq<Cluster>)
    requires Init(c) && Leads(x, c, actions, last) && Differ(last, i, last, j, n)
    ensures Breaks(x, states, actions)
  {
    hide Differ, Enabled, Next, Allowed, Breaks, Init;
    states := LeadsBreak(x, c, actions, last, [], last, i, j, n);
    assert actions + [] == actions;
  }

  lemma OneRecord(e: LogEntry)
    requires e.index == 1 && Legible(e)
    ensures Load([e]) == [Sentinel, e]
  {
    D.ReadableIs([e]);
    D.LastRecordsSnoc([], e);
    assert [] + [e] == [e] && [Sentinel] + [] + [e] == [Sentinel, e];
  }

  /** i, with an empty log, is elected with p's vote and restarts: its new entry counts as committed. */
  lemma ElectAndRestart(c: Cluster, i: NodeId, p: NodeId) returns (actions: seq<Action>, d: Cluster)
    requires |c.nodes.Keys| == 3 && WillVote(c, i, p) && !c.nodes[i].role.Leader?
    requires c.nodes[i].log == [Sentinel] && c.nodes[i].file == []
    ensures Leads(AllCommitted, c, actions, d) && d.nodes.Keys == c.nodes.Keys
    ensures var t := c.nodes[i].term + 1;
            && d.nodes[i].log == [Sentinel, Noop(1, t)] && d.nodes[i].commitIndex == 1
            && d.nodes[p] == Granted(c.nodes[p], t, i)
    ensures forall q :: q in c.nodes && q != i && q != p ==> d.nodes[q] == c.nodes[q]
  {
    hide Leads, Next, Enabled, UpToDate, Load, BecomeLeader, Granted;
    var a, e := ElectOfThree(AllCommitted, c, i, p);
    var s := e.nodes[i];
    FirstEntry(StartElection(c.nodes[i], i).(votes := {i, p}), i, Peers(c, i));
    OneRecord(Noop(1, s.term));
    RestartStep(AllCommitted, e, i);
    d := Next(e, Restart(i, 0));
    LeadsOn(AllCommitted, c, a, e, [Restart(i, 0)], d);
    actions := a + [Restart(i, 0)];
  }

  lemma FirstEntry(s: Server, i: NodeId, peers: set<NodeId>)
    requires s.log == [Sentinel] && s.file == []
    ensures var s' := BecomeLeader(s, i, peers);
            && s'.log == [Sentinel, Noop(1, s.term)] && s'.file == [Noop(1, s.term)]
            && s'.term == s.term && s'.disk == s.disk
  {
    hide SetAll;
  }

  lemma FirstElection() returns (actions: seq<Action>, c: Cluster)
    ensures Leads(AllCommitted, ThreeServers(), actions, c) && c.nodes.Keys == {1, 2, 3}
    ensures c.nodes[1].log == [Sentinel, Noop(1, 1)] && c.nodes[1].commitIndex == 1
    ensures c.nodes[2] == Granted(NewServer(), 1, 1) && c.nodes[3] == NewServer()
  {
    hide Leads, Next, Enabled, Granted;
    var c0 := ThreeServers();
    assert c0.nodes.Keys == {1, 2, 3};
    actions, c := ElectAndRestart(c0, 1, 2);
  }

  ghost function ThreeServers(): Cluster {
    var s := NewServer();
    FreshCluster(map[1 := s, 2 := s, 3 := s])
  }

  /** Three servers, two elections each followed by a restart of the winner: both count an entry nobody
      else has as committed. */
  lemma AllMustBeCommitted() returns (states: seq<Cluster>, actions: seq<Action>)
    ensures Breaks(AllCommitted, states, actions)
  {
    hide Leads, Next, Enabled, Breaks;
    var a1, c1 := FirstElection();
    var a2, c2 := ElectAndRestart(c1, 2, 3);
    LeadsOn(AllCommitted, ThreeServers(), a1, c1, a2, c2);
    assert c2.nodes[1].log[1] != c2.nodes[2].log[1];
    states := EndsApart(AllCommitted, ThreeServers(), a1 + a2, c2, 1, 2, 1);
    actions := a1 + a2;
  }

  /** Server 1 leads term 1 and sends its no-op to server 5, which it does not reach yet. */
  lemma OldLeader() returns (actions: seq<Action>, c: Cluster)
    ensures Leads(TermSaved, FiveServers(), actions, c) && c.nodes.Keys == {1, 2, 3, 4, 5}
    ensures AppendReq(5, AppendArgs(1, 1, 0, 0, [Noop(1, 1)], 0)) in c.pool
    ensures c.nodes[2] == c.nodes[3] == Granted(NewServer(), 1, 1) && c.nodes[4] == c.nodes[5] == NewServer()
  {
    hide Leads, Next, Enabled, BecomeLeader, Replicate, Granted;
    var c0 := FiveServers();
    assert c0.nodes.Keys == {1, 2, 3, 4, 5};
    assert Peers(c0, 1) == {2, 3, 4, 5};
    var a, c1 := ElectOfFive(TermSaved, c0, 1, 2, 3);
    FirstLeader();
    SendStep(TermSaved, c1, 1, 5);
    c := Next(c1, SendAppend(1, 5));
    LeadsOn(TermSaved, c0, a, c1, [SendAppend(1, 5)], c);
    actions := a + [SendAppend(1, 5)];
  }

  lemma FirstLeader()
    ensures var s := BecomeLeader(StartElection(NewServer(), 1).(votes := {1, 2, 3}), 1, {2, 3, 4, 5});
            && s.role.Leader? && 5 in s.nextIndex && s.nextIndex[5] >= 1
            && Replicate(s, 1, 5) == AppendArgs(1, 1, 0, 0, [Noop(1, 1)], 0)
  {
    hide SetAll;
    var s := BecomeLeader(StartElection(NewServer(), 1).(votes := {1, 2, 3}), 1, {2, 3, 4, 5});
    assert s.log == [Sentinel, Noop(1, 1)];
  }

  ghost function FiveServers(): Cluster {
    var s := NewServer();
    FreshCluster(map[1 := s, 2 := s, 3 := s, 4 := s, 5 := s])
  }

  /** Leader 2 of term 2: its log, and the peers that have it. */
  ghost predicate NewLeader(s: Server, peers: set<NodeId>, commit: nat, have: set<NodeId>) {
    && s.role.Leader? && s.term == 2 && s.log == [Sentinel, Noop(1, 2)] && s.commitIndex == commit
    && s.nextIndex.Keys == s.matchIndex.Keys == peers && have <= peers
    && forall p :: p in peers ==>
         (s.nextIndex[p] == if p in have then 2 else 1) && (s.matchIndex[p] == if p in have then 1 else 0)
  }

  lemma SecondLeader(s: Server, votes: set<NodeId>, peers: set<NodeId>)
    requires s == Granted(NewServer(), 1, 1)
    ensures NewLeader(BecomeLeader(StartElection(s, 2).(votes := votes), 2, peers), peers, 0, {})
  {
    hide SetAll;
  }

  lemma ElectNewLeader(c: Cluster) returns (actions: seq<Action>, d: Cluster)
    requires c.nodes.Keys == {1, 2, 3, 4, 5}
    requires c.nodes[2] == c.nodes[3] == Granted(NewServer(), 1, 1) && c.nodes[4] == c.nodes[5] == NewServer()
    ensures Leads(TermSaved, c, actions, d) && c.pool <= d.pool && d.nodes.Keys == {1, 2, 3, 4, 5}
    ensures NewLeader(d.nodes[2], {1, 3, 4, 5}, 0, {}) && d.nodes[5] == NewServer()
    ensures d.nodes[3].term == 2 && d.nodes[3].role.Follower? && d.nodes[3].log == [Sentinel] && d.nodes[3].commitIndex == 0
    ensures d.nodes[3].file == []
  {
    hide Leads, Next, Enabled, BecomeLeader, NewLeader;
    actions, d := ElectOfFive(TermSaved, c, 2, 3, 4);
    assert Peers(c, 2) == {1, 3, 4, 5};
    SecondLeader(c.nodes[2], {2, 3, 4}, {1, 3, 4, 5});
  }

  /** A follower that takes the no-op of term 2 as its first entry. */
  lemma TakesNoop(s: Server, a: AppendArgs)
    requires s.term <= 2 && s.role.Follower? && s.log == [Sentinel] && s.commitIndex == 0 && s.file == []
    requires a == AppendArgs(2, 2, 0, 0, [Noop(1, 2)], 0)
    ensures var (s', reply) := ReceiveAppend(s, a);
            && reply == AppendReply(2, true, 0, 0) && s'.term == 2 && s'.role.Follower? && s'.disk == s.disk
            && s'.log == [Sentinel, Noop(1, 2)] && s'.commitIndex == 0 && s'.file == [Noop(1, 2)]
            && s'.nextIndex == s.nextIndex && s'.matchIndex == s.matchIndex
  {
    assert AppendNew(s.log, 1, a.entries) == [Sentinel, Noop(1, 2)] by {
      assert a.entries[1..] == [];
      assert AppendOne(s.log, 1, a.entries[0]) == [Sentinel, Noop(1, 2)];
    }
  }

  lemma LearnsIndexes(s: Server, peers: set<NodeId>, have: set<NodeId>, p: NodeId)
    requires NewLeader(s, peers, 0, have) && p in peers
    ensures NewLeader(s.(nextIndex := s.nextIndex[p := 2], matchIndex := s.matchIndex[p := 1]), peers, 0, have + {p})
  {
  }

  lemma LearnsCommit(s: Server, peers: set<NodeId>, have: set<NodeId>, n: nat)
    requires NewLeader(s, peers, 0, have)
    ensures UpdateCommitIndex(s, n) == s.(commitIndex := if 1 + |have| > n / 2 then 1 else 0)
  {
    assert Replicated(s, 1) == have;
    assert CommitSearch(s, n, 0) == 0;
  }

  /** The leader learns that p has it, too. */
  lemma LearnsOf(s: Server, peers: set<NodeId>, have: set<NodeId>, n: nat, p: NodeId)
    requires NewLeader(s, peers, 0, have) && p in peers
    ensures var s' := HandleAppendReply(s, n, p, 1, 1, AppendReply(2, true, 0, 0));
            && NewLeader(s', peers, if 1 + |have + {p}| > n / 2 then 1 else 0, have + {p})
  {
    hide UpdateCommitIndex;
    LearnsIndexes(s, peers, have, p);
    LearnsCommit(s.(nextIndex := s.nextIndex[p := 2], matchIndex := s.matchIndex[p := 1]), peers, have + {p}, n);
  }

  /** A second request, with nothing but the new commit index. */
  lemma HearsCommit(s: Server, a: AppendArgs)
    requires s.term == 2 && s.role.Follower? && s.log == [Sentinel, Noop(1, 2)] && s.commitIndex == 0
    requires a == AppendArgs(2, 2, 1, 2, [], 1)
    ensures var (s', reply) := ReceiveAppend(s, a);
            && reply == AppendReply(2, true, 0, 0) && s'.term == 2 && s'.disk == s.disk
            && s'.log == s.log && s'.commitIndex == 1 && s'.file == s.file
  {
  }

  lemma StillLeads(s: Server)
    requires NewLeader(s, {1, 3, 4, 5}, 1, {3, 5})
    ensures NewLeader(HandleAppendReply(s, 5, 5, 2, 0, AppendReply(2, true, 0, 0)), {1, 3, 4, 5}, 1, {3, 5})
  {
  }

  lemma NewLeaderSends(s: Server, peers: set<NodeId>, commit: nat, have: set<NodeId>, p: NodeId)
    requires NewLeader(s, peers, commit, have) && p in peers
    ensures p in s.nextIndex && s.nextIndex[p] >= 1
    ensures Replicate(s, 2, p) == if p in have then AppendArgs(2, 2, 1, 2, [], commit)
                                  else AppendArgs(2, 2, 0, 0, [Noop(1, 2)], commit)
  {
  }

  /** The no-op of term 2 reaches 3 and 5, is committed, and 5 hears of it without ever having voted. */
  lemma CommitByTwo(c: Cluster) returns (actions: seq<Action>, d: Cluster)
    requires c.nodes.Keys == {1, 2, 3, 4, 5} && NewLeader(c.nodes[2], {1, 3, 4, 5}, 0, {}) && c.nodes[5] == NewServer()
    requires c.nodes[3].term == 2 && c.nodes[3].role.Follower? && c.nodes[3].log == [Sentinel] && c.nodes[3].commitIndex == 0
    requires c.nodes[3].file == []
    ensures Leads(TermSaved, c, actions, d) && c.pool <= d.pool && d.nodes.Keys == {1, 2, 3, 4, 5}
    ensures NewLeader(d.nodes[2], {1, 3, 4, 5}, 1, {3, 5})
    ensures d.nodes[5].log == [Sentinel, Noop(1, 2)] && d.nodes[5].commitIndex == 1
    ensures d.nodes[5].disk == TermFile(0, NOBODY) && d.nodes[5].file == [Noop(1, 2)]
  {
    hide Leads, Next, Enabled, ReceiveAppend, HandleAppendReply, NewLeader, Replicate;
    assert c.nodes[2].role.Leader? by { LeaderRoles(c.nodes[2], {1, 3, 4, 5}, 0, {}); }
    NewLeaderSends(c.nodes[2], {1, 3, 4, 5}, 0, {}, 3);
    var a1, c1 := Deliver(TermSaved, c, 2, 3);
    TakesNoop(c.nodes[3], Replicate(c.nodes[2], 2, 3));
    LearnsOf(c.nodes[2], {1, 3, 4, 5}, {}, 5, 3);
    assert {} + {3} == {3} && c1.nodes.Keys == {1, 2, 3, 4, 5};
    LeaderRoles(c1.nodes[2], {1, 3, 4, 5}, 0, {3});
    NewLeaderSends(c1.nodes[2], {1, 3, 4, 5}, 0, {3}, 5);
    var a2, c2 := Deliver(TermSaved, c1, 2, 5);
    TakesNoop(c1.nodes[5], Replicate(c1.nodes[2], 2, 5));
    LearnsOf(c1.nodes[2], {1, 3, 4, 5}, {3}, 5, 5);
    assert {3} + {5} == {3, 5} && c2.nodes.Keys == {1, 2, 3, 4, 5};
    LeaderRoles(c2.nodes[2], {1, 3, 4, 5}, 1, {3, 5});
    NewLeaderSends(c2.nodes[2], {1, 3, 4, 5}, 1, {3, 5}, 5);
    var a3;
    a3, d := Deliver(TermSaved, c2, 2, 5);
    HearsCommit(c2.nodes[5], Replicate(c2.nodes[2], 2, 5));
    StillLeads(c2.nodes[2]);
    LeadsOn(TermSaved, c, a1, c1, a2, c2);
    LeadsOn(TermSaved, c, a1 + a2, c2, a3, d);
    actions := a1 + a2 + a3;
  }

  lemma LeaderRoles(s: Server, peers: set<NodeId>, commit: nat, have: set<NodeId>)
    requires NewLeader(s, peers, commit, have)
    ensures s.role.Leader? && s.term == 2
  {
  }

  /** Restarted at term 0, server 5 takes the stale request for a current one and drops the committed
      entry. */
  lemma TruncatesCommitted(s: Server, a: AppendArgs)
    requires s.log == [Sentinel, Noop(1, 2)] && s.commitIndex == 1 && s.term == 0
    requires a == AppendArgs(1, 1, 0, 0, [Noop(1, 1)], 0)
    ensures var s' := ReceiveAppend(s, a).0; s'.log == [Sentinel, Noop(1, 1)] && s'.commitIndex == 1
  {
    assert AppendNew(s.log, 1, a.entries) == [Sentinel, Noop(1, 1)] by {
      assert a.entries[1..] == [];
      assert s.log[..1] == [Sentinel];
      assert AppendOne(s.log, 1, a.entries[0]) == [Sentinel, Noop(1, 1)];
    }
  }

  /** Five servers: 5 has a committed entry of term 2 but has never voted, so it restarts at term 0 and a
      delayed request of term 1 makes it drop the entry. */
  lemma TermMustBeSaved() returns (states: seq<Cluster>, actions: seq<Action>)
    ensures Breaks(TermSaved, states, actions)
  {
    hide Leads, Next, Enabled, Breaks, ReceiveAppend, Granted, Load;
    var c0 := FiveServers();
    var stale := AppendArgs(1, 1, 0, 0, [Noop(1, 1)], 0);
    var a1, c1 := OldLeader();
    var a2, c2 := ElectNewLeader(c1);
    var a3, c3 := CommitByTwo(c2);
    OneRecord(Noop(1, 2));
    RestartStep(TermSaved, c3, 5);
    var c4 := Next(c3, Restart(5, 0));
    ReceiveStep(TermSaved, c4, 5, stale);
    var last := OnAppendReq(AppendReq(5, stale));
    var c5 := Next(c4, last);
    TruncatesCommitted(c4.nodes[5], stale);
    LeadsOn(TermSaved, c0, a1, c1, a2, c2);
    LeadsOn(TermSaved, c0, a1 + a2, c2, a3, c3);
    LeadsOn(TermSaved, c0, a1 + a2 + a3, c3, [Restart(5, 0)], c4);
    LeadsOn(TermSaved, c0, a1 + a2 + a3 + [Restart(5, 0)], c4, [last], c5);
    actions := a1 + a2 + a3 + [Restart(5, 0)] + [last];
    assert c5.nodes[2].log[1] != c5.nodes[5].log[1];
    states := EndsApart(TermSaved, c0, actions, c5, 2, 5, 1);
  }

  // ---------------------------------------------------------- a truncated tail in the file

  const Command := LogEntry(2, 1, ENTRY_COMMAND, [])

  /** Server 1 leads term 1 and appends its no-op and a command, which it sends to nobody. */
  lemma LonelyLeader() returns (actions: seq<Action>, c: Cluster)
    ensures Leads(TailGone, ThreeServers(), actions, c) && c.nodes.Keys == {1, 2, 3}
    ensures Lonely(c.nodes[1]) && c.nodes[2] == Granted(NewServer(), 1, 1) && c.nodes[3] == NewServer()
  {
    hide Leads, Next, Enabled, BecomeLeader, Propose, Granted, Lonely;
    var c0 := ThreeServers();
    assert c0.nodes.Keys == {1, 2, 3} && Peers(c0, 1) == {2, 3};
    var a, c1 := ElectOfThree(TailGone, c0, 1, 2);
    LonelyIs();
    assert c1.nodes.Keys == {1, 2, 3} && Size(c1) == 3;
    SubmitStep(TailGone, c1, 1, []);
    c := Next(c1, Submit(1, []));
    LeadsOn(TailGone, c0, a, c1, [Submit(1, [])], c);
    actions := a + [Submit(1, [])];
  }

  predicate Lonely(s: Server) {
    && s.role.Leader? && s.term == 1 && s.commitIndex == 0
    && s.log == [Sentinel, Noop(1, 1), Command] && s.file == [Noop(1, 1), Command]
  }

  lemma LonelyIs()
    ensures var s := BecomeLeader(StartElection(NewServer(), 1).(votes := {1, 2}), 1, {2, 3});
            s.role.Leader? && Lonely(Propose(s, 3, []))
  {
    hide SetAll;
    var s := BecomeLeader(StartElection(NewServer(), 1).(votes := {1, 2}), 1, {2, 3});
    var s' := AppendEntry(s, LogEntry(2, 1, ENTRY_COMMAND, []));
    assert s.log == [Sentinel, Noop(1, 1)] && s.file == [Noop(1, 1)];
    assert s'.log == [Sentinel, Noop(1, 1), Command] && s'.file == [Noop(1, 1), Command];
    assert Replicated(s', 2) == {} && Replicated(s', 1) == {};
    assert CommitSearch(s', 3, 0) == 0;
    assert CommitSearch(s', 3, 1) == 0;
  }

  /** Server 2 leads term 2 and commits its no-op with 3. */
  lemma CommitByOne(c: Cluster) returns (actions: seq<Action>, d: Cluster)
    requires c.nodes.Keys == {1, 2, 3} && c.nodes[2] == Granted(NewServer(), 1, 1) && c.nodes[3] == NewServer()
    ensures Leads(TailGone, c, actions, d) && d.nodes.Keys == {1, 2, 3} && d.nodes[1] == c.nodes[1]
    ensures NewLeader(d.nodes[2], {1, 3}, 1, {3}) && Took(d.nodes[3])
  {
    hide Leads, Next, Enabled, BecomeLeader, NewLeader, Replicate, ReceiveAppend, HandleAppendReply;
    var a1, c1 := ElectOfThree(TailGone, c, 2, 3);
    assert Peers(c, 2) == {1, 3} && c1.nodes.Keys == {1, 2, 3};
    SecondLeader(c.nodes[2], {2, 3}, {1, 3});
    var s := c1.nodes[2];
    LeaderRoles(s, {1, 3}, 0, {});
    NewLeaderSends(s, {1, 3}, 0, {}, 3);
    var a2;
    a2, d := Deliver(TailGone, c1, 2, 3);
    TakesNoop(c1.nodes[3], Replicate(s, 2, 3));
    LearnsOf(s, {1, 3}, {}, 3, 3);
    assert {} + {3} == {3} && |{3}| == 1;
    LeadsOn(TailGone, c, a1, c1, a2, d);
    actions := a1 + a2;
  }

  /** A follower that has the no-op of term 2 and nothing else. */
  predicate Took(s: Server) {
    && s.role.Follower? && s.term == 2 && s.commitIndex == 0 && s.log == [Sentinel, Noop(1, 2)]
    && s.nextIndex == map[] && s.matchIndex == map[]
  }

  /** The committed no-op takes the place of server 1's entries, in its log but not in its file. */
  lemma Overwrites(s: Server, a: AppendArgs)
    requires Lonely(s) && a == AppendArgs(2, 2, 0, 0, [Noop(1, 2)], 1)
    ensures Overwritten(ReceiveAppend(s, a).0) && ReceiveAppend(s, a).0.term == 2
  {
    assert a.entries[1..] == [];
    assert s.log[..1] == [Sentinel];
    assert AppendOne(s.log, 1, a.entries[0]) == [Sentinel, Noop(1, 2)];
    assert AppendNew(s.log, 1, a.entries) == [Sentinel, Noop(1, 2)];
    assert Added(s.log, 1, a.entries) == [Noop(1, 2)] by {
      assert [Noop(1, 2)] + [] == [Noop(1, 2)];
    }
    assert s.file + [Noop(1, 2)] == [Noop(1, 1), Command, Noop(1, 2)];
  }

  predicate Overwritten(s: Server) {
    && s.commitIndex == 1 && s.log == [Sentinel, Noop(1, 2)]
    && s.file == [Noop(1, 1), Command, Noop(1, 2)]
  }

  lemma OverwriteOld(c: Cluster) returns (actions: seq<Action>, d: Cluster)
    requires c.nodes.Keys == {1, 2, 3} && Lonely(c.nodes[1]) && NewLeader(c.nodes[2], {1, 3}, 1, {3})
    ensures Leads(TailGone, c, actions, d) && d.nodes.Keys == {1, 2, 3}
    ensures d.nodes[2] == c.nodes[2] && d.nodes[3] == c.nodes[3]
    ensures Overwritten(d.nodes[1]) && d.nodes[1].term == 2
  {
    hide Leads, Next, Enabled, Replicate, ReceiveAppend, Lonely, Overwritten;
    NewLeaderSends(c.nodes[2], {1, 3}, 1, {3}, 1);
    SendStep(TailGone, c, 2, 1);
    var c1 := Next(c, SendAppend(2, 1));
    var args := Replicate(c.nodes[2], 2, 1);
    ReceiveStep(TailGone, c1, 1, args);
    var onReq := OnAppendReq(AppendReq(1, args));
    d := Next(c1, onReq);
    Overwrites(c.nodes[1], args);
    LeadsOn(TailGone, c, [SendAppend(2, 1)], c1, [onReq], d);
    actions := [SendAppend(2, 1)] + [onReq];
  }

  /** Server 3 leads term 3. */
  ghost predicate ThirdLeader(s: Server, commit: nat) {
    && s.role.Leader? && s.term == 3 && s.log == [Sentinel, Noop(1, 2), Noop(2, 3)] && s.commitIndex == commit
    && s.nextIndex.Keys == s.matchIndex.Keys == {1, 2}
    && (commit == 0 ==> s.nextIndex[2] == 2 && s.matchIndex[1] == s.matchIndex[2] == 0)
  }

  lemma ThirdLeads(s: Server)
    requires Took(s)
    ensures ThirdLeader(BecomeLeader(StartElection(s, 3).(votes := {3, 1}), 3, {1, 2}), 0)
  {
    hide SetAll;
  }

  lemma ThirdSends(s: Server)
    requires ThirdLeader(s, 0)
    ensures s.role.Leader? && 2 in s.nextIndex && s.nextIndex[2] >= 1
    ensures Replicate(s, 3, 2) == AppendArgs(3, 3, 1, 2, [Noop(2, 3)], 0)
  {
  }

  lemma TakesSecond(s: Server, a: AppendArgs)
    requires s.term == 2 && s.log == [Sentinel, Noop(1, 2)] && a == AppendArgs(3, 3, 1, 2, [Noop(2, 3)], 0)
    ensures ReceiveAppend(s, a).1 == AppendReply(3, true, 0, 0)
  {
  }

  lemma ThirdCommits(s: Server)
    requires ThirdLeader(s, 0)
    ensures ThirdLeader(HandleAppendReply(s, 3, 2, 2, 1, AppendReply(3, true, 0, 0)), 2)
  {
    var s1 := s.(nextIndex := s.nextIndex[2 := 3], matchIndex := s.matchIndex[2 := 2]);
    assert Replicated(s1, 2) == {2};
    assert |{2 as NodeId}| == 1;
  }

  /** Server 3 is elected for term 3 with 1's vote and commits its no-op with 2 alone. */
  lemma CommitWithoutOne(c: Cluster) returns (actions: seq<Action>, d: Cluster)
    requires c.nodes.Keys == {1, 2, 3} && Overwritten(c.nodes[1]) && c.nodes[1].term == 2
    requires NewLeader(c.nodes[2], {1, 3}, 1, {3}) && Took(c.nodes[3])
    ensures Leads(TailGone, c, actions, d) && d.nodes.Keys == {1, 2, 3}
    ensures d.nodes[1] == Granted(c.nodes[1], 3, 3) && ThirdLeader(d.nodes[3], 2)
  {
    hide Leads, Next, Enabled, BecomeLeader, Replicate, ReceiveAppend, HandleAppendReply, ThirdLeader, Granted;
    var a1, c1 := ElectOfThree(TailGone, c, 3, 1);
    assert Peers(c, 3) == {1, 2} && c1.nodes.Keys == {1, 2, 3};
    ThirdLeads(c.nodes[3]);
    var s := c1.nodes[3];
    ThirdSends(s);
    var a2;
    a2, d := Deliver(TailGone, c1, 3, 2);
    TakesSecond(c1.nodes[2], Replicate(s, 3, 2));
    ThirdCommits(s);
    LeadsOn(TailGone, c, a1, c1, a2, d);
    actions := a1 + a2;
  }

  /** Three servers: what 1 wrote in term 1 is truncated from its log but stays in its file. Wholly
      committed and with its term saved, it restarts, and the truncated command counts as committed. */
  lemma TailMustBeGone() returns (states: seq<Cluster>, actions: seq<Action>)
    ensures Breaks(TailGone, states, actions)
  {
    hide Leads, Next, Enabled, Breaks, NewLeader, Lonely, Took, Load;
    var c0 := ThreeServers();
    var a1, c1 := LonelyLeader();
    var a2, c2 := CommitByOne(c1);
    var a3, c3 := OverwriteOld(c2);
    var a4, c4 := CommitWithoutOne(c3);
    var s := c4.nodes[1];
    assert s.file == [Noop(1, 1), Command, Noop(1, 2)];
    RestartStep(TailGone, c4, 1);
    var c5 := Next(c4, Restart(1, 0));
    D.TruncatedComesBack(Noop(1, 1), Command, Noop(1, 2));
    LeadsOn(TailGone, c0, a1, c1, a2, c2);
    LeadsOn(TailGone, c0, a1 + a2, c2, a3, c3);
    LeadsOn(TailGone, c0, a1 + a2 + a3, c3, a4, c4);
    LeadsOn(TailGone, c0, a1 + a2 + a3 + a4, c4, [Restart(1, 0)], c5);
    actions := a1 + a2 + a3 + a4 + [Restart(1, 0)];
    assert c5.nodes[1].log[2] != c5.nodes[3].log[2];
    states := EndsApart(TailGone, c0, actions, c5, 1, 3, 2);
  }

  // ------------------------------------------------------------ a record that is too long

  /** A server on its own, elected for its next term and handed a command. */
  lemma AloneCommits(c: Cluster, command: seq<Byte>) returns (actions: seq<Action>, d: Cluster)
    requires c.nodes.Keys == {1} && !c.nodes[1].role.Leader? && c.nodes[1].matchIndex == map[]
    requires c.nodes[1].commitIndex < |c.nodes[1].log|
    ensures Leads(RecordsLegible, c, actions, d) && d.nodes.Keys == {1}
    ensures AloneLed(c.nodes[1], d.nodes[1], command)
  {
    hide Leads, Next, Enabled, BecomeLeader, Propose, AloneLed;
    TimeoutStep(RecordsLegible, c, 1);
    var c1 := Next(c, Timeout(1));
    AloneStep(RecordsLegible, c1, 1);
    var c2 := Next(c1, ElectAlone(1));
    AloneLeads(c.nodes[1], command);
    assert c2.nodes.Keys == {1} && Size(c2) == 1;
    SubmitStep(RecordsLegible, c2, 1, command);
    d := Next(c2, Submit(1, command));
    LeadsOn(RecordsLegible, c, [Timeout(1)], c1, [ElectAlone(1)], c2);
    LeadsOn(RecordsLegible, c, [Timeout(1)] + [ElectAlone(1)], c2, [Submit(1, command)], d);
    actions := [Timeout(1)] + [ElectAlone(1)] + [Submit(1, command)];
  }

  /** Its log and file have the no-op and the command, all committed. */
  predicate AloneLed(s: Server, s': Server, command: seq<Byte>) {
    var t, n := s.term + 1, |s.log|;
    var es := [Noop(n, t), LogEntry(n + 1, t, ENTRY_COMMAND, command)];
    && s'.term == t && s'.disk.term == t && s'.log == s.log + es && s'.file == s.file + es
    && s'.commitIndex == n + 1
  }

  lemma AloneLeads(s: Server, command: seq<Byte>)
    requires s.matchIndex == map[] && s.commitIndex < |s.log|
    ensures var s1 := BecomeLeader(StartElection(s, 1), 1, {});
            s1.role.Leader? && AloneLed(s, Propose(s1, 1, command), command)
  {
    hide SetAll;
    var s1 := BecomeLeader(StartElection(s, 1), 1, {});
    var n := |s.log|;
    var s2 := AppendEntry(s1, LogEntry(n + 1, s1.term, ENTRY_COMMAND, command));
    assert s2.log == s.log + [Noop(n, s1.term), LogEntry(n + 1, s1.term, ENTRY_COMMAND, command)];
    assert CommitSearch(s2, 1, n + 1) == n + 1;
  }

  lemma OverlongLost(e: LogEntry, overlong: LogEntry)
    requires e.index == 1 && Legible(e) && !Legible(overlong)
    ensures Load([e, overlong]) == [Sentinel, e]
  {
    hide Legible, LastRecords;
    assert [e, overlong][1..] == [overlong];
    assert Readable([overlong]) == [];
    assert Readable([e, overlong]) == [e];
    OneRecord(e);
    D.ReadableIs([e]);
  }

  /** A server on its own commits a command that is too long for its file, restarts without it, and
      commits something else in its place. */
  lemma RecordsMustBeLegible(command: seq<Byte>) returns (states: seq<Cluster>, actions: seq<Action>)
    requires !Legible(LogEntry(2, 1, ENTRY_COMMAND, command))
    ensures Breaks(RecordsLegible, states, actions)
  {
    hide Leads, Next, Enabled, Breaks, Load, Legible;
    var c0 := FreshCluster(map[1 := NewServer()]);
    assert c0.nodes.Keys == {1};
    var a1, c1 := AloneCommits(c0, command);
    var s1 := c1.nodes[1];
    var overlong := LogEntry(2, 1, ENTRY_COMMAND, command);
    assert s1.file == [Noop(1, 1), overlong] && s1.log == [Sentinel, Noop(1, 1), overlong];
    assert Legible(Noop(1, 1)) by { NoopLegible(1, 1); }
    OverlongLost(Noop(1, 1), overlong);
    RestartStep(RecordsLegible, c1, 1);
    var c2 := Next(c1, Restart(1, 0));
    var a3, c3 := AloneCommits(c2, []);
    assert c3.nodes[1].log[2] == Noop(2, 2);
    LeadsOn(RecordsLegible, c1, [Restart(1, 0)], c2, a3, c3);
    states := LeadsBreak(RecordsLegible, c0, a1, c1, [Restart(1, 0)] + a3, c3, 1, 1, 2);
    actions := a1 + ([Restart(1, 0)] + a3);
  }

  lemma NoopLegible(index: nat, term: nat)
    ensures Legible(Noop(index, term))
  {
  }
}
