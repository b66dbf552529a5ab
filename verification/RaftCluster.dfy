/** A cluster of servers and its in-flight messages as a transition system. A message stays in
    the pool once sent, so it can be lost (never taken), delayed, reordered or taken repeatedly.

    Each action is one atomic step: an RPC handler, one replicateTo send, one processed reply, or
    one BecomeCandidate+SetVotedFor pair. A reply is processed only while its requester still has
    the role and term it had when it sent the request. Membership is fixed. */
module RaftCluster {
  import opened Bytes
  import opened RaftServer

  datatype Message =
    | VoteReq(to: NodeId, ask: VoteArgs)
    | VoteResp(from: NodeId, ask: VoteArgs, vote: VoteReply)
    | AppendReq(to: NodeId, args: AppendArgs)
    | AppendResp(from: NodeId, args: AppendArgs, reply: AppendReply)

  datatype Election = Election(leader: NodeId, log: Log, voters: set<NodeId>)
  datatype Ballot = Ballot(term: nat, voter: NodeId, candidate: NodeId, log: Log)
  datatype Ack = Ack(term: nat, node: NodeId, upTo: nat)
  datatype Commit = Commit(term: nat, index: nat)

  /** What has happened so far. No action reads it. */
  datatype History = History(
    elected: map<nat, Election>,               // term -> winner, its log and its voters
    leaderLogs: map<nat, Log>,                 // term -> all the winner has in its log in that term
    ballots: set<Ballot>,                      // votes cast, with the voter's log
    candidacies: map<(nat, NodeId), Log>,      // candidate logs
    acks: set<Ack>,                            // successful AppendEntries
    commits: set<Commit>)                      // indexes committed by leaders

  datatype Cluster = Cluster(nodes: map<NodeId, Server>, pool: set<Message>, hist: History)

  datatype Action =
    | Timeout(node: NodeId)
    | ElectAlone(node: NodeId)
    | AskVote(node: NodeId, peer: NodeId)
    | OnVoteReq(msg: Message)
    | OnVoteResp(msg: Message)
    | SendAppend(node: NodeId, peer: NodeId)
    | OnAppendReq(msg: Message)
    | OnAppendResp(msg: Message)
    | Submit(node: NodeId, command: seq<Byte>)
    | ApplyEntry(node: NodeId)
    | Restart(node: NodeId, applied: nat)

  function Peers(c: Cluster, i: NodeId): set<NodeId> { c.nodes.Keys - {i} }

  function Size(c: Cluster): nat { |c.nodes.Keys| }

  /** The server an action runs on. */
  function Actor(a: Action): NodeId {
    match a
    case OnVoteReq(VoteReq(to, _)) => to
    case OnVoteResp(VoteResp(_, ask, _)) => ask.candidate
    case OnAppendReq(AppendReq(to, _)) => to
    case OnAppendResp(AppendResp(_, args, _)) => args.leader
    case Timeout(i) => i
    case ElectAlone(i) => i
    case AskVote(i, _) => i
    case SendAppend(i, _) => i
    case Submit(i, _) => i
    case ApplyEntry(i) => i
    case Restart(i, _) => i
    case _ => NOBODY
  }

  predicate Enabled(c: Cluster, a: Action) {
    && Actor(a) in c.nodes
    && var s := c.nodes[Actor(a)];
       match a
       case Timeout(_) => !s.role.Leader?
       case ElectAlone(i) => s.role.Candidate? && Peers(c, i) == {}
       case AskVote(i, p) => s.role.Candidate? && p in Peers(c, i)
       case OnVoteReq(m) => m in c.pool && m.VoteReq?
       case OnVoteResp(m) => m in c.pool && m.VoteResp? && s.role.Candidate? && s.term == m.ask.term
       case SendAppend(i, p) => s.role.Leader? && p in Peers(c, i) && p in s.nextIndex && s.nextIndex[p] >= 1
       case OnAppendReq(m) => m in c.pool && m.AppendReq?
       case OnAppendResp(m) => m in c.pool && m.AppendResp? && s.role.Leader? && s.term == m.args.term
       case Submit(_, _) => s.role.Leader?
       case ApplyEntry(_) => true
       case Restart(_, applied) => applied <= LastIndex(Load(s.file))
  }

  /** The actor's new state. */
  ghost function NextServer(c: Cluster, a: Action): Server
    requires Enabled(c, a)
  {
    var i := Actor(a);
    var s := c.nodes[i];
    match a
    case Timeout(_) => StartElection(s, i)
    case ElectAlone(_) => BecomeLeader(s, i, {})
    case AskVote(_, _) => s
    case OnVoteReq(m) => HandleRequestVote(s, m.ask).0
    case OnVoteResp(m) => CountVote(s, i, Peers(c, i), m.from, m.vote)
    case SendAppend(_, _) => s
    case OnAppendReq(m) => ReceiveAppend(s, m.args).0
    case OnAppendResp(m) =>
      HandleAppendReply(s, Size(c), m.from, m.args.prevLogIndex + 1, |m.args.entries|, m.reply)
    case Submit(_, command) => Propose(s, Size(c), command)
    case ApplyEntry(_) => ApplyNext(s)
    case Restart(_, applied) => Reload(s, applied)
  }

  /** The messages an action sends. */
  function Sent(c: Cluster, a: Action): set<Message>
    requires Enabled(c, a)
  {
    var i := Actor(a);
    var s := c.nodes[i];
    match a
    case AskVote(_, p) => {VoteReq(p, VoteRequest(s, i))}
    case OnVoteReq(m) => {VoteResp(i, m.ask, HandleRequestVote(s, m.ask).1)}
    case SendAppend(_, p) => {AppendReq(p, Replicate(s, i, p))}
    case OnAppendReq(m) => {AppendResp(i, m.args, ReceiveAppend(s, m.args).1)}
    case _ => {}
  }

  function Elect(h: History, i: NodeId, s: Server, s': Server): History {
    if s.role.Candidate? && s'.role.Leader? then
      h.(elected := h.elected[s.term := Election(i, s.log, s'.votes)],
         leaderLogs := h.leaderLogs[s.term := s'.log])
    else h
  }

  function CommitTo(h: History, s: Server, s': Server): History {
    if s'.commitIndex > s.commitIndex then h.(commits := h.commits + {Commit(s.term, s'.commitIndex)}) else h
  }

  /** What an action adds to the history. */
  ghost function Record(c: Cluster, a: Action): History
    requires Enabled(c, a)
  {
    var i := Actor(a);
    var s := c.nodes[i];
    var s' := NextServer(c, a);
    var h := c.hist;
    match a
    case Timeout(_) =>
      h.(candidacies := h.candidacies[(s'.term, i) := s.log],
         ballots := h.ballots + {Ballot(s'.term, i, i, s.log)})
    case ElectAlone(_) => Elect(h, i, s, s')
    case OnVoteReq(m) =>
      if HandleRequestVote(s, m.ask).1.granted
      then h.(ballots := h.ballots + {Ballot(m.ask.term, i, m.ask.candidate, s.log)})
      else h
    case OnVoteResp(m) => Elect(h, i, s, s')
    case OnAppendReq(m) =>
      if ReceiveAppend(s, m.args).1.success
      then h.(acks := h.acks + {Ack(m.args.term, i, m.args.prevLogIndex + |m.args.entries|)})
      else h
    case OnAppendResp(m) => CommitTo(h, s, s')
    case Submit(_, _) => CommitTo(h.(leaderLogs := h.leaderLogs[s.term := s'.log]), s, s')
    case _ => h
  }

  ghost function Next(c: Cluster, a: Action): Cluster
    requires Enabled(c, a)
  {
    Cluster(c.nodes[Actor(a) := NextServer(c, a)], c.pool + Sent(c, a), Record(c, a))
  }

  predicate Init(c: Cluster) {
    && NOBODY !in c.nodes
    && (forall i :: i in c.nodes ==> c.nodes[i] == NewServer())
    && c.pool == {}
    && c.hist == History(map[], map[], {}, map[], {}, {})
  }

  /** A run is an initial cluster and the actions taken from it, each enabled where it is taken. */
  ghost predicate IsRun(states: seq<Cluster>, actions: seq<Action>) {
    && |states| == |actions| + 1
    && Init(states[0])
    && forall k :: 0 <= k < |actions| ==> Taken(states[k], actions[k], states[k + 1])
  }

  ghost predicate Taken(c: Cluster, a: Action, c': Cluster) {
    Enabled(c, a) && c' == Next(c, a)
  }

  /** The log file has no record past the end of the log: nothing truncated is left in it. */
  predicate NoTail(s: Server) {
    forall k :: 0 <= k < |s.file| ==> s.file[k].index <= LastIndex(s.log)
  }

  predicate AllLegible(file: seq<LogEntry>) {
    forall k :: 0 <= k < |file| ==> Legible(file[k])
  }

  /** A server that can be restarted without loss: its log file holds no more than its log, and no
      record that is too long, all of the log is committed, and the term file is up to date. */
  predicate CleanRestart(s: Server) {
    NoTail(s) && AllLegible(s.file) && s.commitIndex == LastIndex(s.log) && s.disk.term == s.term
  }

  predicate CleanAction(c: Cluster, a: Action) {
    a.Restart? ==> a.node in c.nodes && CleanRestart(c.nodes[a.node])
  }

  /** Every restart of the run is clean. */
  predicate CleanRestarts(states: seq<Cluster>, actions: seq<Action>) {
    |actions| <= |states| && forall k :: 0 <= k < |actions| ==> CleanAction(states[k], actions[k])
  }

  // ---------------------------------------------------------------- quorums

  predicate Quorum(c: Cluster, q: set<NodeId>) {
    q <= c.nodes.Keys && 2 * |q| > Size(c)
  }

  lemma QuorumsIntersect(c: Cluster, q1: set<NodeId>, q2: set<NodeId>) returns (v: NodeId)
    requires Quorum(c, q1) && Quorum(c, q2)
    ensures v in q1 && v in q2
  {
    SubsetSize(q1 + q2, c.nodes.Keys);
    assert |q1 + q2| == |q1| + |q2| - |q1 * q2|;
    v :| v in q1 * q2;
  }

  lemma SubsetSize(a: set<NodeId>, b: set<NodeId>)
    requires a <= b
    ensures |a| <= |b|
  {
    assert b == a + (b - a);
  }
}
