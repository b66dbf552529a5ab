/** What the safety theorems leave open: that votes are given and indexes committed whenever the rules
    allow it. Who gets a vote, that every quorum can elect one of its members, and that a leader commits
    the greatest index a majority holds. */
module RaftProgress {
  import opened Bytes
  import opened RaftServer
  import opened RaftCluster
  import opened RaftRunSteps
  import L = RaftLeaderSteps

  // ------------------------------------------------------------------------ votes

  /** A log that ends in (term, index) is at least as new: a later last term, or the same and no shorter. */
  predicate AtLeast(term: nat, index: nat, log: Log) {
    var last := log[|log| - 1].term;
    last < term || (last == term && |log| - 1 <= index)
  }

  /** The vote of the request's term is free, or already the candidate's. */
  predicate VoteFree(s: Server, a: VoteArgs) {
    s.term < a.term || (s.term == a.term && (s.votedFor == NOBODY || s.votedFor == a.candidate))
  }

  /** A vote is granted exactly when it is free in a term that is not over and the candidate's log is at
      least as new, and then it is remembered in memory and on disk. Either way the server ends in the later
      of the two terms, and nothing but term, vote and role changes. */
  lemma VoteExactly(s: Server, a: VoteArgs)
    ensures var (s', reply) := HandleRequestVote(s, a);
            && (reply.granted <==> VoteFree(s, a) && AtLeast(a.lastLogTerm, a.lastLogIndex, s.log))
            && reply.term == s'.term == (if s.term < a.term then a.term else s.term)
            && (reply.granted ==> s'.votedFor == a.candidate && s'.disk == TermFile(a.term, a.candidate))
            && (!reply.granted ==> s'.disk == s.disk &&
                                   s'.votedFor == if s.term < a.term then NOBODY else s.votedFor)
            && (s'.role == if s.term < a.term then Follower else s.role)
            && s' == s.(term := s'.term, votedFor := s'.votedFor, role := s'.role, disk := s'.disk)
  {
  }

  /** Of any two logs, one is at least as new as the other, and the relation is transitive. */
  lemma AtLeastTotal(a: Log, b: Log)
    ensures AtLeast(a[|a| - 1].term, |a| - 1, b) || AtLeast(b[|b| - 1].term, |b| - 1, a)
  {
  }

  predicate Newer(a: Log, b: Log) { AtLeast(a[|a| - 1].term, |a| - 1, b) }

  /** p's answer if m, which is server i, asks for its vote in term t. */
  predicate Votes(p: Server, m: Server, i: NodeId, t: nat) {
    HandleRequestVote(p, VoteArgs(t, i, |m.log| - 1, m.log[|m.log| - 1].term)).1.granted
  }

  /** Every non-empty set of servers has a member for whom all of them would vote. */
  lemma {:induction false} Electable(c: Cluster, q: set<NodeId>) returns (m: NodeId)
    requires q != {} && q <= c.nodes.Keys
    ensures m in q && forall p :: p in q ==> Newer(c.nodes[m].log, c.nodes[p].log)
    ensures forall p, t: nat :: p in q && t > c.nodes[p].term ==> Votes(c.nodes[p], c.nodes[m], m, t)
    decreases q
  {
    hide HandleRequestVote;
    var i :| i in q;
    m := i;
    if q != {i} {
      var others := q - {i};
      var best := Electable(c, others);
      AtLeastTotal(c.nodes[i].log, c.nodes[best].log);
      if !Newer(c.nodes[i].log, c.nodes[best].log) { m := best; }
      assert forall p :: p in q ==> p == i || p in others;
    } else {
      assert forall p :: p in q ==> p == i;
    }
    forall p, t: nat | p in q && t > c.nodes[p].term
      ensures Votes(c.nodes[p], c.nodes[m], m, t)
    {
      VoteExactly(c.nodes[p], VoteArgs(t, m, |c.nodes[m].log| - 1, c.nodes[m].log[|c.nodes[m].log| - 1].term));
    }
  }

  /** m times out until its term is past t. */
  lemma {:induction false} RaiseTerm(x: Condition, c: Cluster, m: NodeId, t: nat) returns (actions: seq<Action>, d: Cluster)
    requires m in c.nodes && !c.nodes[m].role.Leader?
    ensures Leads(x, c, actions, d) && d.nodes.Keys == c.nodes.Keys
    ensures forall p :: p in c.nodes && p != m ==> d.nodes[p] == c.nodes[p]
    ensures var s := d.nodes[m];
            s.role.Candidate? && s.term > t && s.term > c.nodes[m].term && s.votes == {m} && s.log == c.nodes[m].log
    decreases if c.nodes[m].term <= t then t - c.nodes[m].term + 1 else 0
  {
    hide Leads, Next, Enabled;
    TimeoutStep(x, c, m);
    var c1 := Next(c, Timeout(m));
    actions, d := [Timeout(m)], c1;
    if c1.nodes[m].term <= t {
      var more;
      more, d := RaiseTerm(x, c1, m, t);
      LeadsOn(x, c, [Timeout(m)], c1, more, d);
      actions := [Timeout(m)] + more;
    }
  }

  /** Candidate m can have the votes of all of todo. */
  ghost predicate Collects(c: Cluster, m: NodeId, todo: set<NodeId>) {
    && m in c.nodes && c.nodes[m].role.Candidate? && m !in todo && todo <= c.nodes.Keys
    && |c.nodes[m].votes| < VotesNeeded(|c.nodes.Keys|)
    && forall p :: p in todo ==> c.nodes[p].term < c.nodes[m].term && Newer(c.nodes[m].log, c.nodes[p].log)
  }

  /** One vote is asked for, granted and counted. */
  lemma OneVote(x: Condition, c: Cluster, m: NodeId, p: NodeId, todo: set<NodeId>)
    returns (actions: seq<Action>, d: Cluster)
    requires Collects(c, m, todo) && p in todo
    ensures Leads(x, c, actions, d) && d.nodes.Keys == c.nodes.Keys
    ensures forall j :: j in c.nodes && j != m && j != p ==> d.nodes[j] == c.nodes[j]
    ensures d.nodes[m].term == c.nodes[m].term && d.nodes[m].votes == c.nodes[m].votes + {p}
    ensures if |d.nodes[m].votes| >= VotesNeeded(|c.nodes.Keys|) then d.nodes[m].role.Leader?
            else d.nodes[m].role.Candidate? && d.nodes[m].log == c.nodes[m].log
  {
    hide Leads, HandleRequestVote, SetAll;
    var s := c.nodes[m];
    actions, d := Vote(x, c, m, p);
    VoteExactly(c.nodes[p], VoteRequest(s, m));
    assert |Peers(c, m)| == |c.nodes.Keys| - 1;
  }

  /** With the votes of a quorum m becomes leader. */
  lemma {:induction false} CollectVotes(x: Condition, c: Cluster, m: NodeId, todo: set<NodeId>, q: set<NodeId>)
    returns (actions: seq<Action>, d: Cluster)
    requires Collects(c, m, todo) && Quorum(c, q) && q <= c.nodes[m].votes + todo
    ensures Leads(x, c, actions, d) && d.nodes.Keys == c.nodes.Keys
    ensures d.nodes[m].role.Leader? && d.nodes[m].term == c.nodes[m].term
    ensures forall j :: j in c.nodes && j != m && j !in todo ==> d.nodes[j] == c.nodes[j]
    decreases todo
  {
    hide Leads;
    if todo == {} {
      SubsetSize(q, c.nodes[m].votes);
      assert false;
    }
    var p :| p in todo;
    actions, d := OneVote(x, c, m, p, todo);
    if !d.nodes[m].role.Leader? {
      var mid := d;
      var more;
      more, d := CollectVotes(x, mid, m, todo - {p}, q);
      LeadsOn(x, c, actions, mid, more, d);
      actions := actions + more;
    }
  }

  ghost function HighestTerm(c: Cluster, q: set<NodeId>): (t: nat)
    requires q <= c.nodes.Keys
    ensures forall p :: p in q ==> c.nodes[p].term <= t
  {
    if q == {} then 0
    else
      var p :| p in q;
      var rest := HighestTerm(c, q - {p});
      if rest < c.nodes[p].term then c.nodes[p].term else rest
  }

  /** From any state whatever, a quorum in which nobody leads can elect one of its members on its own, for a
      term that is new to all of them. */
  lemma QuorumElects(x: Condition, c: Cluster, q: set<NodeId>) returns (actions: seq<Action>, d: Cluster, m: NodeId)
    requires Quorum(c, q) && forall p :: p in q ==> !c.nodes[p].role.Leader?
    ensures Leads(x, c, actions, d) && d.nodes.Keys == c.nodes.Keys && m in q && d.nodes[m].role.Leader?
    ensures forall p :: p in q ==> c.nodes[p].term < d.nodes[m].term
    ensures forall j :: j in c.nodes && j !in q ==> d.nodes[j] == c.nodes[j]
  {
    hide Leads, Next, Enabled;
    m := Electable(c, q);
    var c1;
    actions, c1 := RaiseTerm(x, c, m, HighestTerm(c, q));
    var a;
    if VotesNeeded(|c.nodes.Keys|) == 1 {
      OneServer(c, m);
      AloneStep(x, c1, m);
      a, d := [ElectAlone(m)], Next(c1, ElectAlone(m));
    } else {
      a, d := CollectVotes(x, c1, m, q - {m}, q);
    }
    LeadsOn(x, c, actions, c1, a, d);
    actions := actions + a;
  }

  lemma OneServer(c: Cluster, m: NodeId)
    requires m in c.nodes && |c.nodes.Keys| / 2 == 0
    ensures c.nodes.Keys == {m}
  {
    assert |c.nodes.Keys - {m}| == |c.nodes.Keys| - 1 == 0;
  }

  /** So no reachable state is a dead end: every run in which a quorum has no leader goes on to one in which
      it has, by steps of that quorum alone. */
  lemma NoDeadEnd(states: seq<Cluster>, actions: seq<Action>, q: set<NodeId>)
    returns (states': seq<Cluster>, actions': seq<Action>, m: NodeId)
    requires IsRun(states, actions) && Quorum(states[|actions|], q)
    requires forall p :: p in q ==> !states[|actions|].nodes[p].role.Leader?
    ensures IsRun(states', actions') && states <= states' && actions <= actions'
    ensures var c, d := states[|actions|], states'[|actions'|];
            && m in q && m in d.nodes && d.nodes[m].role.Leader?
            && (forall p :: p in q ==> c.nodes[p].term < d.nodes[m].term)
            && (forall j :: j in c.nodes && j !in q ==> j in d.nodes && d.nodes[j] == c.nodes[j])
  {
    hide Leads, Next, Enabled, Allowed;
    var c := states[|actions|];
    var a, d;
    a, d, m := QuorumElects(TailGone, c, q);
    var more := LeadsRun(TailGone, c, a, d);
    states', actions' := states + more[1..], actions + a;
    assert states'[|actions'|] == d && m in c.nodes;
    forall k | 0 <= k < |actions'| ensures Taken(states'[k], actions'[k], states'[k + 1]) {
      if k < |actions| {
        assert Taken(states[k], actions[k], states[k + 1]);
      } else {
        assert Taken(more[k - |actions|], a[k - |actions|], more[k - |actions| + 1]);
      }
    }
  }

  // ----------------------------------------------------------------- commit indexes

  /** A majority of n servers, the leader counted, holds index k, and its entry is of the leader's term. */
  predicate Committable(s: Server, n: nat, k: nat) {
    && s.commitIndex < k < |s.log| && s.log[k].term == s.term
    && 1 + |set p | p in s.matchIndex && s.matchIndex[p] >= k| > n / 2
  }

  /** The greatest index that may be committed, or what is committed already if there is none. */
  ghost predicate Greatest(s: Server, n: nat, k: nat) {
    && (k == s.commitIndex || Committable(s, n, k))
    && forall j: nat :: Committable(s, n, j) ==> j <= k
  }

  lemma {:induction false} SearchReaches(s: Server, n: nat, idx: nat, j: nat)
    requires Committable(s, n, j) && j <= idx < |s.log|
    ensures CommitSearch(s, n, idx) >= j
    decreases idx
  {
    assert Replicated(s, j) == set p | p in s.matchIndex && s.matchIndex[p] >= j;
    if idx > j { SearchReaches(s, n, idx - 1, j); }
  }

  /** updateCommitIndex commits the greatest index it may, and changes nothing else. */
  lemma CommitsGreatest(s: Server, n: nat)
    ensures var s' := UpdateCommitIndex(s, n);
            Greatest(s, n, s'.commitIndex) && s' == s.(commitIndex := s'.commitIndex)
  {
    hide CommitSearch;
    var r := UpdateCommitIndex(s, n).commitIndex;
    L.CommitSearchFinds(s, n, LastIndex(s.log));
    if r != s.commitIndex {
      assert Replicated(s, r) == set p | p in s.matchIndex && s.matchIndex[p] >= r;
    }
    forall j: nat | Committable(s, n, j) ensures j <= r { SearchReaches(s, n, LastIndex(s.log), j); }
  }

  /** An answer of success moves the peer's indexes to the end of what was sent and commits the greatest
      index that may then be committed. */
  lemma AnswerCommits(s: Server, n: nat, peer: NodeId, next: nat, len: nat, reply: AppendReply)
    requires next >= 1 && reply.term <= s.term && reply.success
    ensures var known := s.(nextIndex := s.nextIndex[peer := next + len],
                            matchIndex := s.matchIndex[peer := next + len - 1]);
            var s' := HandleAppendReply(s, n, peer, next, len, reply);
            Greatest(known, n, s'.commitIndex) && s' == known.(commitIndex := s'.commitIndex)
  {
    hide UpdateCommitIndex, Greatest;
    CommitsGreatest(s.(nextIndex := s.nextIndex[peer := next + len],
                       matchIndex := s.matchIndex[peer := next + len - 1]), n);
  }

  /** So does a new command, with its entry at the end of the log. */
  lemma ProposalCommits(s: Server, n: nat, command: seq<Byte>)
    ensures var e := LogEntry(|s.log|, s.term, ENTRY_COMMAND, command);
            var longer := s.(log := s.log + [e], file := s.file + [e]);
            var s' := Propose(s, n, command);
            Greatest(longer, n, s'.commitIndex) && s' == longer.(commitIndex := s'.commitIndex)
  {
    hide UpdateCommitIndex, Greatest;
    CommitsGreatest(AppendEntry(s, LogEntry(|s.log|, s.term, ENTRY_COMMAND, command)), n);
  }

  // ---------------------------------------------------------- answers to AppendEntries

  /** The request continues the log: its previous entry is there, with its term. */
  predicate Continues(log: Log, a: AppendArgs) {
    a.prevLogIndex == 0 || (a.prevLogIndex < |log| && log[a.prevLogIndex].term == a.prevLogTerm)
  }

  /** Index k starts the stretch of term t that reaches to `to`. */
  ghost predicate StartsStretch(log: Log, k: nat, to: nat, t: nat) {
    && 1 <= k <= to < |log| && (forall j :: k <= j <= to ==> log[j].term == t)
    && (k == 1 || log[k - 1].term != t)
  }

  /** A request is accepted exactly when its term is not over and it continues the log. A refusal leaves log,
      file and commit index alone and names the first index the leader need not go back beyond: one past the
      log, or the start of the stretch whose term differs. */
  lemma AppendExactly(s: Server, a: AppendArgs)
    ensures var (s', reply) := HandleAppendEntries(s, a);
            && (reply.success <==> s.term <= a.term && Continues(s.log, a))
            && reply.term == s'.term == (if s.term < a.term then a.term else s.term)
            && (a.term < s.term ==> s' == s && reply.conflictTerm == reply.conflictIndex == 0)
            && (s.term <= a.term ==> s'.leaderId == a.leader)
            && (s'.role == if s.term < a.term || (s.term == a.term && s.role.Candidate?) then Follower else s.role)
            && (!reply.success ==> s'.log == s.log && s'.file == s.file && s'.commitIndex == s.commitIndex)
            && (!reply.success && s.term <= a.term ==>
                  if a.prevLogIndex >= |s.log| then reply.conflictTerm == 0 && reply.conflictIndex == |s.log|
                  else
                    && reply.conflictTerm == s.log[a.prevLogIndex].term
                    && StartsStretch(s.log, reply.conflictIndex, a.prevLogIndex, reply.conflictTerm))
  {
    hide AppendNew, Added;
    if s.term <= a.term && !Continues(s.log, a) && a.prevLogIndex < |s.log| {
      ScanExactly(s.log, a.prevLogIndex, s.log[a.prevLogIndex].term);
    }
  }

  lemma {:induction false} ScanExactly(log: Log, i: nat, t: nat)
    requires 1 <= i < |log| && log[i].term == t
    ensures StartsStretch(log, ConflictIndex(log, i, t), i, t)
    decreases i
  {
    if i > 1 && log[i - 1].term == t { ScanExactly(log, i - 1, t); }
  }

  /** What a leader sends, and what it makes of a refusal: after one exchange its next request starts at the
      beginning of the follower's stretch of the term that differed, so a whole term is skipped at once. */
  lemma RefusalSkipsTerm(s: Server, f: Server, me: NodeId, peer: NodeId, n: nat)
    requires peer in s.nextIndex && s.nextIndex[peer] >= 1 && f.term <= s.term
    requires var prev := s.nextIndex[peer] - 1;
             && 1 <= prev < |f.log| && prev < |s.log| && f.log[prev].term != s.log[prev].term && f.log[prev].term > 0
    ensures var a := Replicate(s, me, peer);
            var reply := HandleAppendEntries(f, a).1;
            var s' := HandleAppendReply(s, n, peer, a.prevLogIndex + 1, |a.entries|, reply);
            && s' == s.(nextIndex := s.nextIndex[peer := s'.nextIndex[peer]]) && peer in s'.nextIndex
            && StartsStretch(f.log, s'.nextIndex[peer], s.nextIndex[peer] - 1, f.log[s.nextIndex[peer] - 1].term)
  {
    hide HandleAppendEntries;
    AppendExactly(f, Replicate(s, me, peer));
  }
}
