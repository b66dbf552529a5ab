/** Runs of the cluster put together from single steps: elections, deliveries and restarts, each with
    what it does to the servers. The restarts of such a run may lack one condition of a clean restart. */
module RaftRunSteps {
  import opened Bytes
  import opened RaftServer
  import opened RaftCluster
  import opened RaftLogs
  import S = RaftSafety

  /** The conditions of a clean restart. */
  datatype Condition = TailGone | RecordsLegible | AllCommitted | TermSaved

  predicate Meets(x: Condition, s: Server) {
    match x
    case TailGone => NoTail(s)
    case RecordsLegible => AllLegible(s.file)
    case AllCommitted => s.commitIndex == LastIndex(s.log)
    case TermSaved => s.disk.term == s.term
  }

  /** A restart that lacks no condition but x. */
  predicate Allowed(x: Condition, c: Cluster, a: Action) {
    a.Restart? ==> a.node in c.nodes && forall y :: y != x ==> Meets(y, c.nodes[a.node])
  }

  lemma CleanMeetsAll(s: Server)
    ensures CleanRestart(s) <==> forall x :: Meets(x, s)
  {
    if forall x :: Meets(x, s) {
      assert Meets(TailGone, s) && Meets(RecordsLegible, s) && Meets(AllCommitted, s) && Meets(TermSaved, s);
    }
  }

  /** Taking the actions one after the other leads from c to the last cluster. */
  ghost predicate Leads(x: Condition, c: Cluster, actions: seq<Action>, last: Cluster)
    decreases |actions|
  {
    if actions == [] then c == last
    else Enabled(c, actions[0]) && Allowed(x, c, actions[0]) && Leads(x, Next(c, actions[0]), actions[1..], last)
  }

  lemma {:induction false} LeadsOn(x: Condition, c: Cluster, a: seq<Action>, mid: Cluster, b: seq<Action>, last: Cluster)
    requires Leads(x, c, a, mid) && Leads(x, mid, b, last)
    ensures Leads(x, c, a + b, last)
    decreases |a|
  {
    hide Enabled, Next, Allowed;
    if a == [] {
      assert a + b == b;
    } else {
      assert (a + b)[1..] == a[1..] + b;
      LeadsOn(x, Next(c, a[0]), a[1..], mid, b, last);
    }
  }

  lemma {:induction false} LeadsRun(x: Condition, c: Cluster, actions: seq<Action>, last: Cluster)
    returns (states: seq<Cluster>)
    requires Leads(x, c, actions, last)
    ensures |states| == |actions| + 1 && states[0] == c && states[|actions|] == last
    ensures forall k :: 0 <= k < |actions| ==>
              Taken(states[k], actions[k], states[k + 1]) && Allowed(x, states[k], actions[k])
    decreases |actions|
  {
    hide Enabled, Next, Allowed;
    if actions == [] {
      states := [c];
    } else {
      var more := LeadsRun(x, Next(c, actions[0]), actions[1..], last);
      states := [c] + more;
      forall k | 0 <= k < |actions|
        ensures Taken(states[k], actions[k], states[k + 1]) && Allowed(x, states[k], actions[k])
      {
        if k > 0 { assert Taken(more[k - 1], actions[1..][k - 1], more[k]); }
      }
    }
  }

  lemma LeadsStep(x: Condition, c: Cluster, a: Action)
    requires Enabled(c, a) && Allowed(x, c, a)
    ensures Leads(x, c, [a], Next(c, a))
  {
    hide Enabled, Next, Allowed;
    assert [a][1..] == [];
  }

  /** A run that contradicts state machine safety, and whose restarts lack no condition but one. */
  ghost predicate Breaks(x: Condition, states: seq<Cluster>, actions: seq<Action>) {
    && IsRun(states, actions)
    && (forall k :: 0 <= k < |actions| ==> Allowed(x, states[k], actions[k]))
    && exists k1, k2, i, j, n :: 0 <= k1 <= k2 < |states| && Differ(states[k1], i, states[k2], j, n)
  }

  /** Both have committed index n, and not the same up to it. */
  ghost predicate Differ(c1: Cluster, i: NodeId, c2: Cluster, j: NodeId, n: nat) {
    && i in c1.nodes && j in c2.nodes
    && n <= c1.nodes[i].commitIndex && n <= c2.nodes[j].commitIndex
    && !Agree(c1.nodes[i].log, c2.nodes[j].log, n)
  }

  lemma LeadsBreak(x: Condition, c: Cluster, actions: seq<Action>, mid: Cluster, more: seq<Action>, last: Cluster,
                   i: NodeId, j: NodeId, n: nat)
    returns (states: seq<Cluster>)
    requires Init(c) && Leads(x, c, actions, mid) && Leads(x, mid, more, last) && Differ(mid, i, last, j, n)
    ensures Breaks(x, states, actions + more)
  {
    hide Leads, Differ, Allowed, Enabled, Next, Init;
    var before := LeadsRun(x, c, actions, mid);
    var after := LeadsRun(x, mid, more, last);
    states := before + after[1..];
    var all := actions + more;
    assert states[|actions|] == mid && states[|all|] == last;
    forall k | 0 <= k < |all|
      ensures Taken(states[k], all[k], states[k + 1]) && Allowed(x, states[k], all[k])
    {
      if k < |actions| {
        assert Taken(before[k], actions[k], before[k + 1]);
      } else {
        assert Taken(after[k - |actions|], more[k - |actions|], after[k - |actions| + 1]);
      }
    }
  }

  // ------------------------------------------------------------------- single steps

  lemma TimeoutStep(x: Condition, c: Cluster, i: NodeId)
    requires i in c.nodes && !c.nodes[i].role.Leader?
    ensures var a := Timeout(i);
            && Enabled(c, a) && Leads(x, c, [a], Next(c, a))
            && Next(c, a).nodes == c.nodes[i := StartElection(c.nodes[i], i)] && Next(c, a).pool == c.pool
  {
    hide Leads;
    LeadsStep(x, c, Timeout(i));
  }

  lemma AskStep(c: Cluster, i: NodeId, p: NodeId)
    requires i in c.nodes && p in c.nodes && i != p && c.nodes[i].role.Candidate?
    ensures var d := Next(c, AskVote(i, p));
            && Enabled(c, AskVote(i, p)) && d.nodes == c.nodes
            && d.pool == c.pool + {VoteReq(p, VoteRequest(c.nodes[i], i))}
  {
    assert c.nodes[i := c.nodes[i]] == c.nodes;
  }

  lemma RequestStep(c: Cluster, p: NodeId, ask: VoteArgs)
    requires p in c.nodes && VoteReq(p, ask) in c.pool
    ensures var a := OnVoteReq(VoteReq(p, ask));
            && Enabled(c, a) && Next(c, a).nodes == c.nodes[p := HandleRequestVote(c.nodes[p], ask).0]
            && Next(c, a).pool == c.pool + {VoteResp(p, ask, HandleRequestVote(c.nodes[p], ask).1)}
  {
    hide HandleRequestVote;
  }

  lemma ResponseStep(c: Cluster, i: NodeId, m: Message)
    requires m in c.pool && m.VoteResp? && m.ask.candidate == i
    requires i in c.nodes && c.nodes[i].role.Candidate? && c.nodes[i].term == m.ask.term
    ensures var a := OnVoteResp(m);
            && Enabled(c, a) && Next(c, a).pool == c.pool
            && Next(c, a).nodes == c.nodes[i := CountVote(c.nodes[i], i, Peers(c, i), m.from, m.vote)]
  {
    hide CountVote;
  }

  /** Candidate i asks p and hears the answer. */
  lemma Vote(x: Condition, c: Cluster, i: NodeId, p: NodeId) returns (actions: seq<Action>, d: Cluster)
    requires i in c.nodes && p in c.nodes && i != p && c.nodes[i].role.Candidate?
    ensures Leads(x, c, actions, d) && c.pool <= d.pool
    ensures var (s, vote) := HandleRequestVote(c.nodes[p], VoteRequest(c.nodes[i], i));
            d.nodes == c.nodes[p := s][i := CountVote(c.nodes[i], i, Peers(c, i), p, vote)]
  {
    hide Leads, Next, Enabled, HandleRequestVote, CountVote;
    var ask := VoteRequest(c.nodes[i], i);
    AskStep(c, i, p);
    var c1 := Next(c, AskVote(i, p));
    LeadsStep(x, c, AskVote(i, p));
    RequestStep(c1, p, ask);
    var onReq := OnVoteReq(VoteReq(p, ask));
    var c2 := Next(c1, onReq);
    LeadsStep(x, c1, onReq);
    var resp := VoteResp(p, ask, HandleRequestVote(c.nodes[p], ask).1);
    ResponseStep(c2, i, resp);
    d := Next(c2, OnVoteResp(resp));
    LeadsStep(x, c2, OnVoteResp(resp));
    assert c2.nodes.Keys == c.nodes.Keys;
    LeadsOn(x, c, [AskVote(i, p)], c1, [onReq], c2);
    LeadsOn(x, c, [AskVote(i, p)] + [onReq], c2, [OnVoteResp(resp)], d);
    actions := [AskVote(i, p)] + [onReq] + [OnVoteResp(resp)];
  }

  lemma SendStep(x: Condition, c: Cluster, i: NodeId, p: NodeId)
    requires i in c.nodes && p in c.nodes && i != p && c.nodes[i].role.Leader?
    requires p in c.nodes[i].nextIndex && c.nodes[i].nextIndex[p] >= 1
    ensures var a := SendAppend(i, p);
            && Enabled(c, a) && Leads(x, c, [a], Next(c, a)) && Next(c, a).nodes == c.nodes
            && Next(c, a).pool == c.pool + {AppendReq(p, Replicate(c.nodes[i], i, p))}
  {
    hide Leads;
    LeadsStep(x, c, SendAppend(i, p));
    assert c.nodes[i := c.nodes[i]] == c.nodes;
  }

  lemma ReceiveStep(x: Condition, c: Cluster, p: NodeId, args: AppendArgs)
    requires p in c.nodes && AppendReq(p, args) in c.pool
    ensures var a := OnAppendReq(AppendReq(p, args));
            && Enabled(c, a) && Leads(x, c, [a], Next(c, a))
            && Next(c, a).nodes == c.nodes[p := ReceiveAppend(c.nodes[p], args).0]
            && Next(c, a).pool == c.pool + {AppendResp(p, args, ReceiveAppend(c.nodes[p], args).1)}
  {
    hide Leads, ReceiveAppend;
    LeadsStep(x, c, OnAppendReq(AppendReq(p, args)));
  }

  lemma AnswerStep(x: Condition, c: Cluster, i: NodeId, m: Message)
    requires m in c.pool && m.AppendResp? && m.args.leader == i
    requires i in c.nodes && c.nodes[i].role.Leader? && c.nodes[i].term == m.args.term
    ensures var a := OnAppendResp(m);
            && Enabled(c, a) && Leads(x, c, [a], Next(c, a)) && Next(c, a).pool == c.pool
            && Next(c, a).nodes == c.nodes[i := HandleAppendReply(c.nodes[i], Size(c), m.from, m.args.prevLogIndex + 1,
                                                                  |m.args.entries|, m.reply)]
  {
    hide Leads, HandleAppendReply;
    LeadsStep(x, c, OnAppendResp(m));
  }

  /** Leader i sends p its tail and hears the answer. */
  lemma Deliver(x: Condition, c: Cluster, i: NodeId, p: NodeId) returns (actions: seq<Action>, d: Cluster)
    requires i in c.nodes && p in c.nodes && i != p && c.nodes[i].role.Leader?
    requires p in c.nodes[i].nextIndex && c.nodes[i].nextIndex[p] >= 1
    ensures Leads(x, c, actions, d) && c.pool <= d.pool
    ensures var args := Replicate(c.nodes[i], i, p);
            var (s, reply) := ReceiveAppend(c.nodes[p], args);
            d.nodes == c.nodes[p := s][i := HandleAppendReply(c.nodes[i], Size(c), p, args.prevLogIndex + 1,
                                                              |args.entries|, reply)]
  {
    hide Leads, Next, Enabled, ReceiveAppend, HandleAppendReply;
    var args := Replicate(c.nodes[i], i, p);
    SendStep(x, c, i, p);
    var c1 := Next(c, SendAppend(i, p));
    ReceiveStep(x, c1, p, args);
    var onReq := OnAppendReq(AppendReq(p, args));
    var c2 := Next(c1, onReq);
    var resp := AppendResp(p, args, ReceiveAppend(c.nodes[p], args).1);
    AnswerStep(x, c2, i, resp);
    d := Next(c2, OnAppendResp(resp));
    assert c2.nodes.Keys == c.nodes.Keys;
    LeadsOn(x, c, [SendAppend(i, p)], c1, [onReq], c2);
    LeadsOn(x, c, [SendAppend(i, p)] + [onReq], c2, [OnAppendResp(resp)], d);
    actions := [SendAppend(i, p)] + [onReq] + [OnAppendResp(resp)];
  }

  lemma RestartStep(x: Condition, c: Cluster, i: NodeId)
    requires i in c.nodes && Allowed(x, c, Restart(i, 0))
    ensures var a := Restart(i, 0);
            && Enabled(c, a) && Leads(x, c, [a], Next(c, a))
            && Next(c, a).nodes == c.nodes[i := Reload(c.nodes[i], 0)] && Next(c, a).pool == c.pool
  {
    hide Leads, Load;
    LeadsStep(x, c, Restart(i, 0));
  }

  lemma SubmitStep(x: Condition, c: Cluster, i: NodeId, command: seq<Byte>)
    requires i in c.nodes && c.nodes[i].role.Leader?
    ensures var a := Submit(i, command);
            && Enabled(c, a) && Leads(x, c, [a], Next(c, a))
            && Next(c, a).nodes == c.nodes[i := Propose(c.nodes[i], Size(c), command)] && Next(c, a).pool == c.pool
  {
    hide Leads, Propose;
    LeadsStep(x, c, Submit(i, command));
  }

  lemma AloneStep(x: Condition, c: Cluster, i: NodeId)
    requires c.nodes.Keys == {i} && c.nodes[i].role.Candidate?
    ensures var a := ElectAlone(i);
            && Enabled(c, a) && Leads(x, c, [a], Next(c, a))
            && Next(c, a).nodes == c.nodes[i := BecomeLeader(c.nodes[i], i, {})]
  {
    hide Leads, BecomeLeader;
    LeadsStep(x, c, ElectAlone(i));
  }

  // --------------------------------------------------------------------- elections

  lemma VoteGranted(s: Server, ask: VoteArgs)
    requires ask.term > s.term && UpToDate(ask.lastLogTerm, ask.lastLogIndex, s.log)
    ensures HandleRequestVote(s, ask) ==
            (SetVotedFor(BecomeFollower(s, ask.term), ask.candidate), VoteReply(ask.term, true))
  {
  }

  /** Voter p, having granted its vote in term t. */
  function Granted(s: Server, t: nat, i: NodeId): Server { SetVotedFor(BecomeFollower(s, t), i) }

  /** The vote that makes a majority. */
  lemma LastVote(c: Cluster, s: Server, i: NodeId, p: NodeId)
    requires i in c.nodes && |s.votes + {p}| >= VotesNeeded(|c.nodes.Keys|)
    ensures CountVote(s, i, Peers(c, i), p, VoteReply(s.term, true)) ==
            BecomeLeader(s.(votes := s.votes + {p}), i, Peers(c, i))
  {
    assert |c.nodes.Keys - {i}| == |c.nodes.Keys| - 1;
  }

  lemma EarlierVote(c: Cluster, s: Server, i: NodeId, p: NodeId)
    requires i in c.nodes && |s.votes + {p}| < VotesNeeded(|c.nodes.Keys|)
    ensures CountVote(s, i, Peers(c, i), p, VoteReply(s.term, true)) == s.(votes := s.votes + {p})
  {
    assert |c.nodes.Keys - {i}| == |c.nodes.Keys| - 1;
  }

  /** Server i can have p's vote for the asking. */
  predicate WillVote(c: Cluster, i: NodeId, p: NodeId) {
    && i in c.nodes && p in c.nodes && i != p
    && c.nodes[p].term <= c.nodes[i].term
    && UpToDate(LastTerm(c.nodes[i].log), LastIndex(c.nodes[i].log), c.nodes[p].log)
  }

  /** i stands in a cluster of three, and p's vote makes it leader. */
  lemma ElectOfThree(x: Condition, c: Cluster, i: NodeId, p: NodeId) returns (actions: seq<Action>, d: Cluster)
    requires |c.nodes.Keys| == 3 && WillVote(c, i, p) && !c.nodes[i].role.Leader?
    ensures Leads(x, c, actions, d) && c.pool <= d.pool
    ensures var s := StartElection(c.nodes[i], i);
            d.nodes == c.nodes[p := Granted(c.nodes[p], s.term, i)]
                              [i := BecomeLeader(s.(votes := {i, p}), i, Peers(c, i))]
  {
    hide Leads, Next, Enabled, HandleRequestVote, CountVote, BecomeLeader, UpToDate;
    TimeoutStep(x, c, i);
    var c1 := Next(c, Timeout(i));
    var s := c1.nodes[i];
    assert c1.nodes.Keys == c.nodes.Keys;
    var a;
    a, d := Vote(x, c1, i, p);
    VoteGranted(c.nodes[p], VoteRequest(s, i));
    assert {i} + {p} == {i, p};
    LastVote(c1, s, i, p);
    LeadsOn(x, c, [Timeout(i)], c1, a, d);
    actions := [Timeout(i)] + a;
    assert c.nodes[i := s][p := Granted(c.nodes[p], s.term, i)][i := d.nodes[i]] ==
           c.nodes[p := Granted(c.nodes[p], s.term, i)][i := d.nodes[i]];
  }

  /** i stands in a cluster of five, and the votes of p and q make it leader. */
  lemma ElectOfFive(x: Condition, c: Cluster, i: NodeId, p: NodeId, q: NodeId) returns (actions: seq<Action>, d: Cluster)
    requires |c.nodes.Keys| == 5 && p != q && WillVote(c, i, p) && WillVote(c, i, q) && !c.nodes[i].role.Leader?
    ensures Leads(x, c, actions, d) && c.pool <= d.pool
    ensures var s := StartElection(c.nodes[i], i);
            d.nodes == c.nodes[p := Granted(c.nodes[p], s.term, i)][q := Granted(c.nodes[q], s.term, i)]
                              [i := BecomeLeader(s.(votes := {i, p, q}), i, Peers(c, i))]
  {
    hide Leads, Next, Enabled, HandleRequestVote, CountVote, BecomeLeader, UpToDate;
    TimeoutStep(x, c, i);
    var c1 := Next(c, Timeout(i));
    var s := c1.nodes[i];
    assert c1.nodes.Keys == c.nodes.Keys;
    var a, c2 := Vote(x, c1, i, p);
    VoteGranted(c.nodes[p], VoteRequest(s, i));
    assert {i} + {p} == {i, p} && |{i, p}| == 2;
    EarlierVote(c1, s, i, p);
    var s2 := s.(votes := {i, p});
    assert c2.nodes[i] == s2 && c2.nodes[q] == c.nodes[q] && c2.nodes.Keys == c.nodes.Keys;
    var b;
    b, d := Vote(x, c2, i, q);
    VoteGranted(c.nodes[q], VoteRequest(s2, i));
    assert {i, p} + {q} == {i, p, q} && |{i, p, q}| == 3;
    LastVote(c2, s2, i, q);
    LeadsOn(x, c, [Timeout(i)], c1, a, c2);
    LeadsOn(x, c, [Timeout(i)] + a, c2, b, d);
    actions := [Timeout(i)] + a + b;
    assert s2.(votes := {i, p, q}) == s.(votes := {i, p, q});
    assert d.nodes == c.nodes[p := Granted(c.nodes[p], s.term, i)][q := Granted(c.nodes[q], s.term, i)][i := d.nodes[i]];
  }

  /** Such a run does restart a server that lacks the condition: otherwise it would be safe. */
  lemma BreaksLacks(x: Condition, states: seq<Cluster>, actions: seq<Action>)
    requires Breaks(x, states, actions)
    ensures exists k :: 0 <= k < |actions| && actions[k].Restart? && actions[k].node in states[k].nodes &&
                        !Meets(x, states[k].nodes[actions[k].node])
  {
    hide IsRun, Meets, CleanRestart, Agree;
    RunLength(states, actions);
    var k1, k2, i, j, n :| 0 <= k1 <= k2 < |states| && Differ(states[k1], i, states[k2], j, n);
    if forall k :: 0 <= k < |actions| && actions[k].Restart? && actions[k].node in states[k].nodes ==>
         Meets(x, states[k].nodes[actions[k].node]) {
      forall k | 0 <= k < |actions| ensures CleanAction(states[k], actions[k]) {
        assert Allowed(x, states[k], actions[k]);
        if actions[k].Restart? { CleanMeetsAll(states[k].nodes[actions[k].node]); }
      }
      S.StateMachineSafety(states, actions, k1, k2, i, j, n);
    }
  }

  lemma RunLength(states: seq<Cluster>, actions: seq<Action>)
    requires IsRun(states, actions)
    ensures |states| == |actions| + 1
  {
  }
}
