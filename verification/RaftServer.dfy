/** One Raft server: its persistent and volatile state, and the pure meaning of every
    transition that internal/raft/state.go and internal/raft/node.go perform on it.
    The imperative counterparts are in RaftNode.dfy. */
module RaftServer {
  import opened Bytes

  /** Node identifiers; 0 stands for "nobody". */
  type NodeId = nat

  const NOBODY: NodeId := 0

  const ENTRY_COMMAND: Byte := 0
  const ENTRY_NOOP: Byte := 2

  datatype LogEntry = LogEntry(index: nat, term: nat, kind: Byte, command: seq<Byte>)

  datatype Role = Follower | Candidate | Leader

  /** What term.dat holds: written by SetVotedFor only. */
  datatype TermFile = TermFile(term: nat, vote: NodeId)

  datatype Server = Server(
    term: nat,
    votedFor: NodeId,
    log: Log,
    role: Role,
    commitIndex: nat,
    lastApplied: nat,
    nextIndex: map<NodeId, nat>,
    matchIndex: map<NodeId, nat>,
    leaderId: NodeId,
    votes: set<NodeId>,   // servers counted by the running runCandidate
    disk: TermFile,
    file: seq<LogEntry>)  // the records of raft.log, in the order written

  datatype VoteArgs = VoteArgs(term: nat, candidate: NodeId, lastLogIndex: nat, lastLogTerm: nat)
  datatype VoteReply = VoteReply(term: nat, granted: bool)
  datatype AppendArgs = AppendArgs(term: nat, leader: NodeId, prevLogIndex: nat, prevLogTerm: nat,
                                   entries: seq<LogEntry>, leaderCommit: nat)
  datatype AppendReply = AppendReply(term: nat, success: bool, conflictTerm: nat, conflictIndex: nat)

  // ---------------------------------------------------------------- the log

  const Sentinel := LogEntry(0, 0, ENTRY_NOOP, [])

  /** A log always keeps the sentinel, so it is never empty. */
  type Log = log: seq<LogEntry> | log != [] witness [Sentinel]

  function LastIndex(log: Log): nat { |log| - 1 }

  function LastTerm(log: Log): nat { log[|log| - 1].term }

  function TermAt(log: Log, i: nat): nat {
    if i < |log| then log[i].term else 0
  }

  function GetFrom(log: Log, i: nat): seq<LogEntry> {
    if i < |log| then log[i..] else []
  }

  function TruncateFrom(log: Log, i: nat): Log
    requires i >= 1
  {
    if i < |log| then log[..i] else log
  }

  /** The follower's append loop, one entry at a time from index `idx`. */
  function AppendNew(log: Log, idx: nat, entries: seq<LogEntry>): Log
    requires idx >= 1
    decreases |entries|
  {
    if entries == [] then log
    else AppendNew(AppendOne(log, idx, entries[0]), idx + 1, entries[1..])
  }

  function AppendOne(log: Log, idx: nat, e: LogEntry): Log
    requires idx >= 1
  {
    if idx <= LastIndex(log) then
      if TermAt(log, idx) != e.term then TruncateFrom(log, idx) + [e] else log
    else log + [e]
  }

  /** The append loop adds e: it is new, or another term's entry is in its place. */
  predicate Adds(log: Log, idx: nat, e: LogEntry) {
    idx > LastIndex(log) || TermAt(log, idx) != e.term
  }

  /** The entries the append loop adds, which are the ones it writes to the log file. */
  function Added(log: Log, idx: nat, entries: seq<LogEntry>): seq<LogEntry>
    requires idx >= 1
    decreases |entries|
  {
    if entries == [] then []
    else (if Adds(log, idx, entries[0]) then [entries[0]] else [])
         + Added(AppendOne(log, idx, entries[0]), idx + 1, entries[1..])
  }

  /** The backward scan for the first index of the conflicting term. */
  function ConflictIndex(log: Log, i: nat, term: nat): nat {
    if i == 0 then 0
    else if TermAt(log, i) != term then i + 1
    else if i == 1 then 1
    else ConflictIndex(log, i - 1, term)
  }

  predicate UpToDate(lastLogTerm: nat, lastLogIndex: nat, log: Log) {
    lastLogTerm > LastTerm(log) || (lastLogTerm == LastTerm(log) && lastLogIndex >= LastIndex(log))
  }

  // ----------------------------------------------------------- the log file

  /** A record longer than this ends the reading of the log file. */
  const MAX_RECORD := 10 * 1024 * 1024

  predicate Legible(e: LogEntry) { 21 + |e.command| <= MAX_RECORD }

  /** The records in front of the first one that is too long. */
  function Readable(file: seq<LogEntry>): seq<LogEntry> {
    if file == [] || !Legible(file[0]) then [] else [file[0]] + Readable(file[1..])
  }

  /** A record goes to its index, over what was read for that index before. Skipped indexes would be
      filled with an entry of term 0. */
  function Place(log: Log, e: LogEntry): Log {
    if e.index == 0 then log
    else if e.index < |log| then log[e.index := e]
    else log + seq(e.index - |log|, _ => Sentinel) + [e]
  }

  /** The last record of every index, up to the highest index. */
  function LastRecords(file: seq<LogEntry>): Log {
    if file == [] then [Sentinel] else Place(LastRecords(file[..|file| - 1]), file[|file| - 1])
  }

  /** The log that loadFromDisk builds from the file. */
  function Load(file: seq<LogEntry>): Log { LastRecords(Readable(file)) }

  // ------------------------------------------------------- NodeState setters

  function NewServer(): Server {
    Server(0, NOBODY, [Sentinel], Follower, 0, 0, map[], map[], NOBODY, {}, TermFile(0, NOBODY), [])
  }

  /** An entry is appended to the log and to its file. */
  function AppendEntry(s: Server, e: LogEntry): Server {
    s.(log := s.log + [e], file := s.file + [e])
  }

  function BecomeFollower(s: Server, term: nat): Server {
    s.(role := Follower, term := term, votedFor := NOBODY)
  }

  function BecomeCandidate(s: Server): Server {
    s.(role := Candidate, term := s.term + 1, leaderId := NOBODY)
  }

  function SetVotedFor(s: Server, id: NodeId): Server {
    s.(votedFor := id, disk := TermFile(s.term, id))
  }

  // ----------------------------------------------------------- the node loop

  /** Election timeout: BecomeCandidate, SetVotedFor, and the fresh vote counter of runCandidate. */
  function StartElection(s: Server, me: NodeId): Server {
    SetVotedFor(BecomeCandidate(s), me).(votes := {me})
  }

  function VoteRequest(s: Server, me: NodeId): VoteArgs {
    VoteArgs(s.term, me, LastIndex(s.log), LastTerm(s.log))
  }

  function VotesNeeded(clusterSize: nat): nat { clusterSize / 2 + 1 }

  /** m with every id of the set mapped to value (the loop of InitLeaderState). */
  ghost function SetAll(m: map<NodeId, nat>, ids: set<NodeId>, value: nat): (r: map<NodeId, nat>)
    ensures r.Keys == m.Keys + ids
    ensures forall p :: p in r ==> r[p] == if p in ids then value else m[p]
    decreases ids
  {
    if ids == {} then m
    else
      var p :| p in ids;
      SetAll(m[p := value], ids - {p}, value)
  }

  /** becomeLeader: role, leader id, fresh nextIndex/matchIndex, and the no-op entry. */
  ghost function BecomeLeader(s: Server, me: NodeId, peers: set<NodeId>): Server {
    AppendEntry(s.(role := Leader,
                   leaderId := me,
                   nextIndex := SetAll(s.nextIndex, peers, |s.log|),
                   matchIndex := SetAll(s.matchIndex, peers, 0)),
                LogEntry(|s.log|, s.term, ENTRY_NOOP, []))
  }

  /** One answer taken from the vote channel by runCandidate. */
  ghost function CountVote(s: Server, me: NodeId, peers: set<NodeId>, from: NodeId, reply: VoteReply): Server {
    if reply.term > s.term then BecomeFollower(s, reply.term)
    else if !reply.granted then s
    else
      var s1 := s.(votes := s.votes + {from});
      if |s1.votes| >= VotesNeeded(|peers| + 1) then BecomeLeader(s1, me, peers) else s1
  }

  function HandleRequestVote(s: Server, a: VoteArgs): (Server, VoteReply) {
    if a.term < s.term then (s, VoteReply(s.term, false))
    else
      var s1 := if a.term > s.term then BecomeFollower(s, a.term) else s;
      if (s1.votedFor == NOBODY || s1.votedFor == a.candidate) &&
         UpToDate(a.lastLogTerm, a.lastLogIndex, s1.log)
      then (SetVotedFor(s1, a.candidate), VoteReply(a.term, true))
      else (s1, VoteReply(a.term, false))
  }

  /** The part of handleAppendEntries before the log check: term, role and leader id. */
  function Acknowledge(s: Server, a: AppendArgs): Server {
    var s1 := if a.term > s.term || s.role.Candidate? then BecomeFollower(s, a.term) else s;
    s1.(leaderId := a.leader)
  }

  predicate PrevMatches(log: Log, a: AppendArgs) {
    a.prevLogIndex > 0 ==>
      a.prevLogIndex <= LastIndex(log) && TermAt(log, a.prevLogIndex) == a.prevLogTerm
  }

  function Rejection(log: Log, a: AppendArgs): AppendReply {
    if a.prevLogIndex > LastIndex(log) then AppendReply(a.term, false, 0, |log|)
    else
      var t := TermAt(log, a.prevLogIndex);
      AppendReply(a.term, false, t, ConflictIndex(log, a.prevLogIndex, t))
  }

  function Accept(s: Server, a: AppendArgs): Server {
    var log := AppendNew(s.log, a.prevLogIndex + 1, a.entries);
    var clamped := if LastIndex(log) < a.leaderCommit then LastIndex(log) else a.leaderCommit;
    s.(log := log, file := s.file + Added(s.log, a.prevLogIndex + 1, a.entries),
       commitIndex := if a.leaderCommit > s.commitIndex then clamped else s.commitIndex)
  }

  function HandleAppendEntries(s: Server, a: AppendArgs): (Server, AppendReply) {
    if a.term < s.term then (s, AppendReply(s.term, false, 0, 0))
    else
      var s1 := Acknowledge(s, a);
      if !PrevMatches(s1.log, a) then (s1, Rejection(s1.log, a))
      else (Accept(s1, a), AppendReply(a.term, true, 0, 0))
  }

  /** A request with more entries than this is refused as corrupted when it is decoded. */
  const MAX_ENTRIES := 10000

  /** What a sent request does to its receiver. One that cannot be decoded changes nothing, and the
      reply carries the receiver's term alone. */
  function ReceiveAppend(s: Server, a: AppendArgs): (Server, AppendReply) {
    if |a.entries| > MAX_ENTRIES then (s, AppendReply(s.term, false, 0, 0)) else HandleAppendEntries(s, a)
  }

  // ------------------------------------------------------------- the leader

  /** replicateTo: the request always carries the whole tail of the leader's log. */
  function Replicate(s: Server, me: NodeId, peer: NodeId): AppendArgs
    requires peer in s.nextIndex && s.nextIndex[peer] >= 1
  {
    var next := s.nextIndex[peer];
    AppendArgs(s.term, me, next - 1, TermAt(s.log, next - 1), GetFrom(s.log, next), s.commitIndex)
  }

  function Replicated(s: Server, idx: nat): set<NodeId> {
    set p | p in s.matchIndex && s.matchIndex[p] >= idx
  }

  /** The downward search of updateCommitIndex. */
  function CommitSearch(s: Server, clusterSize: nat, idx: nat): nat {
    if idx <= s.commitIndex then s.commitIndex
    else if TermAt(s.log, idx) == s.term && 1 + |Replicated(s, idx)| > clusterSize / 2 then idx
    else CommitSearch(s, clusterSize, idx - 1)
  }

  function UpdateCommitIndex(s: Server, clusterSize: nat): Server {
    s.(commitIndex := CommitSearch(s, clusterSize, LastIndex(s.log)))
  }

  /** The answer to an AppendEntries that carried `len` entries from `next`. */
  function HandleAppendReply(s: Server, clusterSize: nat, peer: NodeId, next: nat, len: nat,
                             reply: AppendReply): Server
    requires next >= 1
  {
    if reply.term > s.term then BecomeFollower(s, reply.term)
    else if reply.success then
      UpdateCommitIndex(s.(nextIndex := s.nextIndex[peer := next + len],
                           matchIndex := s.matchIndex[peer := next + len - 1]), clusterSize)
    else if reply.conflictTerm > 0 then s.(nextIndex := s.nextIndex[peer := reply.conflictIndex])
    else
      var cur := if peer in s.nextIndex then s.nextIndex[peer] else 0;
      if cur > 1 then s.(nextIndex := s.nextIndex[peer := cur - 1]) else s
  }

  function Propose(s: Server, clusterSize: nat, command: seq<Byte>): Server {
    UpdateCommitIndex(AppendEntry(s, LogEntry(|s.log|, s.term, ENTRY_COMMAND, command)), clusterSize)
  }

  /** One entry taken by the apply loop; whether it may be taken depends on the databases. */
  function ApplyNext(s: Server): Server {
    if s.lastApplied < s.commitIndex then s.(lastApplied := s.lastApplied + 1) else s
  }

  /** A restart: term and vote come from term.dat, the log from raft.log, all of it counts as committed,
      and everything volatile starts over (NewNodeStateWithDir). */
  function Reload(s: Server, applied: nat): Server
    requires applied <= LastIndex(Load(s.file))
  {
    var log := Load(s.file);
    Server(s.disk.term, s.disk.vote, log, Follower, LastIndex(log), applied,
           map[], map[], NOBODY, {}, s.disk, s.file)
  }
}
