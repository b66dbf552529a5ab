/** The log invariant of the cluster, and why it implies leader completeness. */
module RaftLogInv {
  import opened RaftServer
  import opened RaftCluster
  import opened RaftLogs
  import E = RaftElection

  // ------------------------------------------------------------ well-formed logs

  /** The entry at k is where its term's leader put it, after everything that leader had before. */
  ghost predicate EntryOk(h: History, log: Log, k: nat)
    requires k < |log|
  {
    && log[k].term >= 1
    && log[k].term in h.leaderLogs
    && Agree(log, h.leaderLogs[log[k].term], k)
  }

  ghost predicate LogOk(h: History, log: Log) {
    && log[0] == Sentinel
    && (forall k :: 0 <= k < |log| ==> log[k].index == k)
    && (forall j, k :: 0 <= j <= k < |log| ==> log[j].term <= log[k].term)
    && (forall k :: 1 <= k < |log| ==> EntryOk(h, log, k))
  }

  // ---------------------------------------------------- acknowledged and kept

  /** Server v has told the leader of term t, or is that leader, that it holds index k. */
  ghost predicate Acked(h: History, t: nat, v: NodeId, k: nat) {
    && t in h.elected && t in h.leaderLogs && k < |h.leaderLogs[t]|
    && (h.elected[t].leader == v || exists a :: a in h.acks && a.term == t && a.node == v && k <= a.upTo)
  }

  /** The leader elected in u did not have what term t's leader holds up to k. */
  ghost predicate Lost(h: History, t: nat, k: nat, u: nat) {
    t < u && t in h.leaderLogs && u in h.elected && !Agree(h.leaderLogs[t], h.elected[u].log, k)
  }

  /** Either the log still holds term t's entries up to k, or a later leader without them wrote to it. */
  ghost predicate Kept(h: History, t: nat, k: nat, log: Log) {
    && t in h.leaderLogs
    && (Agree(h.leaderLogs[t], log, k) || exists u: nat :: u <= LastTerm(log) && Lost(h, t, k, u))
  }

  ghost predicate QuorumAcked(c: Cluster, t: nat, k: nat, q: set<NodeId>) {
    Quorum(c, q) && forall v :: v in q ==> Acked(c.hist, t, v, k)
  }

  // -------------------------------------------------------------- the history

  ghost predicate TermOk(h: History, t: nat, e: Election, L: Log) {
    && t >= 1
    && Extends(e.log, L) && |e.log| < |L|
    && (forall k :: |e.log| <= k < |L| ==> L[k].term == t)
    && (forall k :: 0 <= k < |e.log| ==> e.log[k].term < t)
    && LogOk(h, L)
    && (t, e.leader) in h.candidacies && h.candidacies[(t, e.leader)] == e.log
  }

  ghost predicate TermsOk(h: History) {
    && h.leaderLogs.Keys == h.elected.Keys
    && forall t :: t in h.elected ==> TermOk(h, t, h.elected[t], h.leaderLogs[t])
  }

  ghost predicate CandidaciesOk(h: History) {
    forall x :: x in h.candidacies ==> LogOk(h, h.candidacies[x]) && LastTerm(h.candidacies[x]) < x.0
  }

  ghost predicate BallotOk(h: History, b: Ballot) {
    && (b.term, b.candidate) in h.candidacies
    && LogOk(h, b.log)
    && (var d := h.candidacies[(b.term, b.candidate)]; UpToDate(LastTerm(d), LastIndex(d), b.log))
    && forall t: nat, k: nat :: t < b.term && Acked(h, t, b.voter, k) ==> Kept(h, t, k, b.log)
  }

  ghost predicate AckOk(h: History, a: Ack) {
    a.term in h.leaderLogs && a.upTo < |h.leaderLogs[a.term]|
  }

  ghost predicate CommitOk(c: Cluster, m: Commit) {
    && m.term in c.hist.leaderLogs && m.index < |c.hist.leaderLogs[m.term]|
    && c.hist.leaderLogs[m.term][m.index].term == m.term
    && exists q :: QuorumAcked(c, m.term, m.index, q)
  }

  ghost predicate HistoryOk(c: Cluster) {
    && TermsOk(c.hist)
    && CandidaciesOk(c.hist)
    && (forall b :: b in c.hist.ballots ==> BallotOk(c.hist, b))
    && (forall a :: a in c.hist.acks ==> AckOk(c.hist, a))
    && (forall m :: m in c.hist.commits ==> CommitOk(c, m))
  }

  // -------------------------------------------------------------- the servers

  /** Index k of this log is covered by some leader's commit in a term no later than t. */
  ghost predicate Backed(h: History, t: nat, k: nat, log: Log) {
    k == 0 || exists m :: m in h.commits && m.term <= t && k <= m.index &&
                          m.term in h.leaderLogs && Agree(h.leaderLogs[m.term], log, k)
  }

  ghost predicate ReplicationOk(c: Cluster, i: NodeId, s: Server) {
    && s.matchIndex.Keys <= Peers(c, i)
    && (s.role.Candidate? ==> (s.term, i) in c.hist.candidacies && c.hist.candidacies[(s.term, i)] == s.log)
    && (s.role.Leader? ==>
          && s.term in c.hist.leaderLogs && c.hist.leaderLogs[s.term] == s.log
          && (forall p :: p in Peers(c, i) ==> p in s.nextIndex && 1 <= s.nextIndex[p] <= |s.log|)
          && (forall p :: p in s.matchIndex ==>
                s.matchIndex[p] == 0 || Acked(c.hist, s.term, p, s.matchIndex[p])))
  }

  ghost predicate LogStateOk(h: History, i: NodeId, s: Server) {
    && LogOk(h, s.log) && LastTerm(s.log) <= s.term
    && s.lastApplied <= s.commitIndex < |s.log|
    && Backed(h, s.term, s.commitIndex, s.log)
  }

  ghost predicate PastOk(h: History, i: NodeId, s: Server) {
    && (forall a :: a in h.acks && a.node == i ==> a.term <= s.term)
    && (forall x :: x in h.candidacies && x.1 == i ==> x.0 <= s.term)
    && (forall t: nat, k: nat :: Acked(h, t, i, k) ==> Kept(h, t, k, s.log))
  }

  ghost predicate ServerOk(c: Cluster, i: NodeId, s: Server) {
    ReplicationOk(c, i, s) && LogStateOk(c.hist, i, s) && PastOk(c.hist, i, s)
  }

  // ------------------------------------------------------------- the messages

  /** An AppendEntries is a stretch of its term's leader log that reaches past everything the leader
      was elected with, and whose commit index it covers. */
  ghost predicate AppendOk(h: History, a: AppendArgs) {
    && a.term in h.elected && a.term in h.leaderLogs
    && var L := h.leaderLogs[a.term];
       var n := a.prevLogIndex + 1 + |a.entries|;
       && |h.elected[a.term].log| < n <= |L|
       && a.entries == L[a.prevLogIndex + 1..n]
       && a.prevLogTerm == L[a.prevLogIndex].term
       && a.leaderCommit < n
       && Backed(h, a.term, a.leaderCommit, L)
  }

  ghost predicate MessageOk(c: Cluster, m: Message) {
    match m
    case VoteReq(_, ask) =>
      && (ask.term, ask.candidate) in c.hist.candidacies
      && var d := c.hist.candidacies[(ask.term, ask.candidate)];
         ask.lastLogIndex == LastIndex(d) && ask.lastLogTerm == LastTerm(d)
    case VoteResp(_, _, _) => true
    case AppendReq(to, args) => to in c.nodes && AppendOk(c.hist, args)
    case AppendResp(from, args, reply) =>
      && from in Peers(c, args.leader) && AppendOk(c.hist, args)
      && (reply.success ==> Ack(args.term, from, args.prevLogIndex + |args.entries|) in c.hist.acks)
      && (reply.conflictTerm > 0 ==> 1 <= reply.conflictIndex <= args.prevLogIndex)
  }

  ghost predicate Inv(c: Cluster) {
    && E.Inv(c)
    && HistoryOk(c)
    && (forall i :: i in c.nodes ==> ServerOk(c, i, c.nodes[i]))
    && (forall m :: m in c.pool ==> MessageOk(c, m))
  }

  // ------------------------------------------------------ leader completeness

  lemma SameTermAgrees(h: History, a: Log, b: Log, k: nat)
    requires LogOk(h, a) && LogOk(h, b) && k < |a| && k < |b| && a[k].term == b[k].term
    ensures Agree(a, b, k)
  {
    if k > 0 {
      assert EntryOk(h, a, k) && EntryOk(h, b, k);
    }
  }

  lemma LogsMatch(h: History, a: Log, b: Log)
    requires LogOk(h, a) && LogOk(h, b)
    ensures Matching(a, b)
  {
    forall k | 0 <= k < |a| && k < |b| && a[k].term == b[k].term ensures Agree(a, b, k) {
      SameTermAgrees(h, a, b, k);
    }
  }

  /** A log whose last term is w is a prefix of w's leader log that reaches past the leader's
      election log. */
  lemma LastTermPrefix(h: History, log: Log)
    requires TermsOk(h) && LogOk(h, log) && LastTerm(log) >= 1
    ensures var w := LastTerm(log);
            && w in h.elected
            && |h.elected[w].log| < |log|
            && Agree(log, h.leaderLogs[w], LastIndex(log))
  {
    var w := LastTerm(log);
    var k := LastIndex(log);
    assert k >= 1;
    assert EntryOk(h, log, k);
    assert TermOk(h, w, h.elected[w], h.leaderLogs[w]);
  }

  /** A candidate whose log is as up to date as one that keeps term t up to k keeps it too, provided
      every leader between did. */
  lemma UpToDateKeeps(h: History, cand: Log, voter: Log, t: nat, k: nat)
    requires TermsOk(h) && LogOk(h, cand) && LogOk(h, voter) && t in h.elected && t >= 1
    requires UpToDate(LastTerm(cand), LastIndex(cand), voter)
    requires Agree(h.leaderLogs[t], voter, k) && h.leaderLogs[t][k].term == t
    requires forall u :: t < u <= LastTerm(cand) && u in h.elected ==> Agree(h.leaderLogs[t], h.elected[u].log, k)
    ensures Agree(h.leaderLogs[t], cand, k)
  {
    var w := LastTerm(cand);
    assert voter[k].term == t && w >= LastTerm(voter) >= t;
    LastTermPrefix(h, cand);
    if w > LastTerm(voter) {
      assert TermOk(h, w, h.elected[w], h.leaderLogs[w]);
    } else {
      SameTermAgrees(h, cand, voter, LastIndex(voter)) by {
        LastTermPrefix(h, voter);
        assert Agree(cand, h.leaderLogs[w], LastIndex(cand));
        assert voter[LastIndex(voter)] == h.leaderLogs[w][LastIndex(voter)];
      }
    }
  }

  /** Some voter of a later leader had acknowledged the entry. */
  lemma SharedVoter(c: Cluster, t: nat, k: nat, q: set<NodeId>, t': nat) returns (b: Ballot)
    requires E.ElectionsOk(c) && QuorumAcked(c, t, k, q) && t' in c.hist.elected
    ensures b in c.hist.ballots && b.term == t' && b.candidate == c.hist.elected[t'].leader
    ensures Acked(c.hist, t, b.voter, k)
  {
    var e := c.hist.elected[t'];
    assert E.ElectionOk(c, t', e);
    var v := QuorumsIntersect(c, q, e.voters);
    assert E.Voted(c.hist, t', v, e.leader);
    b :| b in c.hist.ballots && b.term == t' && b.voter == v && b.candidate == e.leader;
  }

  lemma KeptByVoter(h: History, t: nat, k: nat, b: Ballot, t': nat)
    requires TermsOk(h) && CandidaciesOk(h) && BallotOk(h, b) && Acked(h, t, b.voter, k) && t < t'
    requires t' in h.elected && b.term == t' && b.candidate == h.elected[t'].leader
    requires h.leaderLogs[t][k].term == t
    requires forall u :: t < u < t' && u in h.elected ==> Agree(h.leaderLogs[t], h.elected[u].log, k)
    ensures Agree(h.leaderLogs[t], h.elected[t'].log, k)
  {
    assert TermOk(h, t', h.elected[t'], h.leaderLogs[t']) && TermOk(h, t, h.elected[t], h.leaderLogs[t]);
    var cand := h.candidacies[(b.term, b.candidate)];
    assert LogOk(h, cand) && LastTerm(cand) < t';
    assert Kept(h, t, k, b.log);
    UpToDateKeeps(h, cand, b.log, t, k);
  }

  /** An entry of term t that a quorum holds is in the log of every leader elected later. */
  lemma {:induction false} Completeness(c: Cluster, t: nat, k: nat, q: set<NodeId>, t': nat)
    requires E.ElectionsOk(c) && HistoryOk(c) && QuorumAcked(c, t, k, q)
    requires t in c.hist.elected && k < |c.hist.leaderLogs[t]| && c.hist.leaderLogs[t][k].term == t
    requires t < t' && t' in c.hist.elected
    ensures Agree(c.hist.leaderLogs[t], c.hist.elected[t'].log, k)
    decreases t'
  {
    var b := SharedVoter(c, t, k, q, t');
    forall u | t < u < t' && u in c.hist.elected
      ensures Agree(c.hist.leaderLogs[t], c.hist.elected[u].log, k)
    {
      Completeness(c, t, k, q, u);
    }
    KeptByVoter(c.hist, t, k, b, t');
  }
}
