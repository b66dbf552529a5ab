/** The node as the program runs it: fields updated in place and loops, each method proved to do
    what the corresponding function of RaftServer says. */
module RaftNode {
  import opened Bytes
  import opened ByteReader
  import opened RaftCodec
  import opened RaftServer

  /** The records are Go's and fit their 32-bit lengths. */
  ghost predicate Storable(records: seq<LogEntry>) {
    EntriesFit(records) && forall k :: 0 <= k < |records| ==> EntryTyped(records[k])
  }

  lemma RecordsSnoc(records: seq<LogEntry>, e: LogEntry)
    ensures EntriesBytes(records + [e]) == EntriesBytes(records) + Blob(4, EntryBytes(e))
  {
    hide Blob, EntryBytes, EntriesBytes;
    var all := records + [e];
    EntriesSnoc(all, |records|);
    assert all[..|records|] == records && all[..|records| + 1] == all;
  }

  /** RaftLog: a sentinel at index 0 followed by the entries, and the bytes of the log file. */
  class RaftLog {
    var entries: seq<LogEntry>
    var file: seq<Byte>
    ghost var records: seq<LogEntry>

    ghost predicate Valid()
      reads this
    {
      entries != [] && file == EntriesBytes(records)
    }

    constructor ()
      ensures Valid() && entries == [Sentinel] && records == []
    {
      entries, file, records := [Sentinel], [], [];
    }

    /** NewRaftLogWithDir, on a file that earlier appends have written. */
    constructor FromFile(data: seq<Byte>, ghost written: seq<LogEntry>)
      requires data == EntriesBytes(written) && Storable(written)
      ensures Valid() && entries == Load(written) && records == written
    {
      hide EntriesBytes, ParseFile, LastRecords, Readable;
      FileRoundTrip(written);
      var loaded := LoadFromDisk(data);
      entries, file, records := loaded.value, data, written;
    }

    method Append(entry: LogEntry)
      requires Valid()
      modifies this
      ensures Valid() && entries == old(entries) + [entry] && records == old(records) + [entry]
    {
      hide EntriesBytes, EntryBytes;
      entries := entries + [entry];
      var data := SerializeEntry(entry);
      RecordsSnoc(records, entry);
      file := file + LittleEndian(4, data.Length) + data[..];
      records := records + [entry];
    }

    /** The file is left as it is. */
    method TruncateFrom(index: nat)
      requires Valid() && index >= 1
      modifies this`entries
      ensures Valid() && entries == RaftServer.TruncateFrom(old(entries), index)
    {
      if index < |entries| {
        entries := entries[..index];
      }
    }

    function LastIndex(): nat
      requires Valid()
      reads this
    {
      |entries| - 1
    }

    function TermAt(index: nat): nat
      requires Valid()
      reads this
    {
      RaftServer.TermAt(entries, index)
    }
  }

  /** The order in which ids are set does not matter. */
  lemma SetAllPick(m: map<NodeId, nat>, ids: set<NodeId>, p: NodeId, value: nat)
    requires p in ids
    ensures SetAll(m, ids, value) == SetAll(m[p := value], ids - {p}, value)
  {
    assert SetAll(m, ids, value).Keys == SetAll(m[p := value], ids - {p}, value).Keys;
  }

  lemma SetAllNone(m: map<NodeId, nat>, value: nat)
    ensures SetAll(m, {}, value) == m
  {
  }

  /** The loop of InitLeaderState over the peers, in no particular order. */
  method StartIndexes(nextIndex: map<NodeId, nat>, matchIndex: map<NodeId, nat>, peers: set<NodeId>, next: nat)
    returns (n: map<NodeId, nat>, m: map<NodeId, nat>)
    ensures n == SetAll(nextIndex, peers, next) && m == SetAll(matchIndex, peers, 0)
  {
    hide SetAll;
    n, m := nextIndex, matchIndex;
    var todo := peers;
    while todo != {}
      invariant SetAll(n, todo, next) == SetAll(nextIndex, peers, next)
      invariant SetAll(m, todo, 0) == SetAll(matchIndex, peers, 0)
      decreases todo
    {
      var p :| p in todo;
      SetAllPick(n, todo, p, next);
      SetAllPick(m, todo, p, 0);
      n, m := n[p := next], m[p := 0];
      todo := todo - {p};
    }
    SetAllNone(n, next);
    SetAllNone(m, 0);
  }

  /** Log and file once the entries are appended. */
  ghost function ToAppend(log: Log, file: seq<LogEntry>, idx: nat, entries: seq<LogEntry>): (Log, seq<LogEntry>)
    requires idx >= 1
  {
    (AppendNew(log, idx, entries), file + Added(log, idx, entries))
  }

  lemma ToAppendStep(log: Log, file: seq<LogEntry>, idx: nat, entries: seq<LogEntry>)
    requires idx >= 1 && entries != []
    ensures var e := entries[0];
            ToAppend(log, file, idx, entries) ==
            ToAppend(AppendOne(log, idx, e), file + if Adds(log, idx, e) then [e] else [], idx + 1, entries[1..])
  {
    hide AppendOne;
    var e := entries[0];
    var one := if Adds(log, idx, e) then [e] else [];
    var more := Added(AppendOne(log, idx, e), idx + 1, entries[1..]);
    assert file + (one + more) == file + one + more;
  }

  lemma ToAppendNone(log: Log, file: seq<LogEntry>, idx: nat)
    requires idx >= 1
    ensures ToAppend(log, file, idx, []) == (log, file)
  {
    assert file + [] == file;
  }

  /** The content of last_applied.dat. */
  datatype SavedIndex = Missing | Saved(index: nat)

  class Node {
    const id: NodeId
    const peers: set<NodeId>
    const log: RaftLog
    var currentTerm: nat
    var votedFor: NodeId
    var role: Role
    var commitIndex: nat
    var lastApplied: nat
    var nextIndex: map<NodeId, nat>
    var matchIndex: map<NodeId, nat>
    var leaderId: NodeId
    var votes: set<NodeId>
    var termFile: TermFile

    ghost predicate Valid()
      reads this, log
    {
      log.Valid() && id !in peers
    }

    /** The node's state as a value. */
    ghost function State(): Server
      requires Valid()
      reads this, log
    {
      Server(currentTerm, votedFor, log.entries, role, commitIndex, lastApplied, nextIndex, matchIndex,
             leaderId, votes, termFile, log.records)
    }

    constructor (id: NodeId, peers: set<NodeId>)
      requires id !in peers
      ensures Valid() && fresh(log) && this.id == id && this.peers == peers
      ensures State() == NewServer()
    {
      this.id, this.peers := id, peers;
      log := new RaftLog();
      currentTerm, votedFor, role, commitIndex, lastApplied := 0, NOBODY, Follower, 0, 0;
      nextIndex, matchIndex, leaderId, votes, termFile := map[], map[], NOBODY, {}, TermFile(0, NOBODY);
    }

    /** NewNodeStateWithDir: a restart from the two files, and from the last applied index if it was saved. */
    constructor FromDisk(id: NodeId, peers: set<NodeId>, disk: TermFile, data: seq<Byte>,
                         ghost written: seq<LogEntry>, saved: SavedIndex)
      requires id !in peers && data == EntriesBytes(written) && Storable(written)
      ensures Valid() && fresh(log) && this.id == id && this.peers == peers
      ensures var last := LastIndex(Load(written));
              State() == Reload(NewServer().(disk := disk, file := written),
                                if saved.Missing? || saved.index > last then last else saved.index)
    {
      hide EntriesBytes, Load, Storable;
      this.id, this.peers := id, peers;
      var l := new RaftLog.FromFile(data, written);
      log := l;
      currentTerm, votedFor, termFile, role := disk.term, disk.vote, disk, Follower;
      nextIndex, matchIndex, leaderId, votes := map[], map[], NOBODY, {};
      commitIndex := l.LastIndex();
      lastApplied := if saved.Missing? || saved.index > l.LastIndex() then l.LastIndex() else saved.index;
    }

    method BecomeFollower(term: nat)
      requires Valid()
      modifies this
      ensures Valid() && State() == RaftServer.BecomeFollower(old(State()), term)
    {
      role, currentTerm, votedFor := Follower, term, NOBODY;
    }

    method SetVotedFor(candidate: NodeId)
      requires Valid()
      modifies this
      ensures Valid() && State() == RaftServer.SetVotedFor(old(State()), candidate)
    {
      votedFor := candidate;
      termFile := TermFile(currentTerm, votedFor);
    }

    method StartElection()
      requires Valid()
      modifies this
      ensures Valid() && State() == RaftServer.StartElection(old(State()), id)
    {
      role, currentTerm, leaderId := Candidate, currentTerm + 1, NOBODY;
      SetVotedFor(id);
      votes := {id};
    }

    method InitLeaderState()
      requires Valid()
      modifies this
      ensures Valid()
      ensures State() == old(State()).(nextIndex := SetAll(old(nextIndex), peers, |log.entries|),
                                       matchIndex := SetAll(old(matchIndex), peers, 0))
    {
      nextIndex, matchIndex := StartIndexes(nextIndex, matchIndex, peers, log.LastIndex() + 1);
    }

    method BecomeLeader()
      requires Valid()
      modifies this, log
      ensures Valid() && State() == RaftServer.BecomeLeader(old(State()), id, peers)
    {
      hide EntriesBytes, SetAll;
      role, leaderId := Leader, id;
      InitLeaderState();
      log.Append(LogEntry(log.LastIndex() + 1, currentTerm, ENTRY_NOOP, []));
    }

    /** One granted or refused vote taken from the channel. */
    method CountVote(from: NodeId, reply: VoteReply)
      requires Valid()
      modifies this, log
      ensures Valid() && State() == RaftServer.CountVote(old(State()), id, peers, from, reply)
    {
      if reply.term > currentTerm {
        BecomeFollower(reply.term);
        return;
      }
      if reply.granted {
        votes := votes + {from};
        if |votes| >= (|peers| + 1) / 2 + 1 {
          BecomeLeader();
        }
      }
    }

    method HandleRequestVote(args: VoteArgs) returns (reply: VoteReply)
      requires Valid()
      modifies this
      ensures Valid() && (State(), reply) == RaftServer.HandleRequestVote(old(State()), args)
    {
      reply := VoteReply(currentTerm, false);
      if args.term < currentTerm {
        return;
      }
      if args.term > currentTerm {
        BecomeFollower(args.term);
        reply := reply.(term := args.term);
      }
      if votedFor == NOBODY || votedFor == args.candidate {
        var lastLogIndex, lastLogTerm := log.LastIndex(), log.TermAt(log.LastIndex());
        if args.lastLogTerm > lastLogTerm ||
           (args.lastLogTerm == lastLogTerm && args.lastLogIndex >= lastLogIndex) {
          SetVotedFor(args.candidate);
          reply := reply.(granted := true);
        }
      }
    }

    /** The loop that walks back to the first index of the conflicting term. */
    method FindConflict(from: nat, term: nat) returns (index: nat)
      requires Valid()
      ensures index == ConflictIndex(log.entries, from, term)
    {
      index := 0;
      var i := from;
      while i > 0
        invariant ConflictIndex(log.entries, from, term) == ConflictIndex(log.entries, i, term)
        invariant index == 0
      {
        if log.TermAt(i) != term {
          index := i + 1;
          break;
        }
        if i == 1 {
          index := 1;
          break;
        }
        i := i - 1;
      }
    }

    /** One entry of a request: it is passed over, or takes the place of a conflicting one, or is new. */
    method AppendAt(idx: nat, e: LogEntry)
      requires Valid() && idx >= 1
      modifies log
      ensures Valid() && log.entries == AppendOne(old(log.entries), idx, e)
      ensures log.records == old(log.records) + if Adds(old(log.entries), idx, e) then [e] else []
    {
      hide EntriesBytes;
      if idx <= log.LastIndex() {
        if log.TermAt(idx) != e.term {
          log.TruncateFrom(idx);
          log.Append(e);
        }
      } else {
        log.Append(e);
      }
    }

    /** The loop that adds a request's entries, truncating at the first conflict. */
    method AppendEntries(prev: nat, entries: seq<LogEntry>)
      requires Valid()
      modifies log
      ensures Valid()
      ensures State() == old(State()).(log := AppendNew(old(log.entries), prev + 1, entries),
                                       file := old(log.records) + Added(old(log.entries), prev + 1, entries))
    {
      hide EntriesBytes, AppendOne, AppendNew, Added;
      for i := 0 to |entries|
        invariant Valid()
        invariant ToAppend(log.entries, log.records, prev + 1 + i, entries[i..]) ==
                  ToAppend(old(log.entries), old(log.records), prev + 1, entries)
      {
        ToAppendStep(log.entries, log.records, prev + 1 + i, entries[i..]);
        assert entries[i..][0] == entries[i] && entries[i..][1..] == entries[i + 1..];
        AppendAt(prev + i + 1, entries[i]);
      }
      ToAppendNone(log.entries, log.records, prev + 1 + |entries|);
    }

    /** handleAppendEntries, on the bytes of a request: what cannot be decoded changes nothing. */
    method HandleAppendEntries(data: seq<Byte>) returns (reply: AppendReply)
      requires Valid()
      modifies this, log
      ensures Valid() && (State(), reply) == HandleAppendData(old(State()), data)
    {
      hide ParseArgs, RaftServer.HandleAppendEntries;
      var args := DeserializeArgs(data);
      if args.Corrupted? {
        return AppendReply(currentTerm, false, 0, 0);
      }
      reply := ProcessAppend(args.value);
    }

    method ProcessAppend(args: AppendArgs) returns (reply: AppendReply)
      requires Valid()
      modifies this, log
      ensures Valid() && (State(), reply) == RaftServer.HandleAppendEntries(old(State()), args)
    {
      hide EntriesBytes, AppendNew, Added, ConflictIndex;
      reply := AppendReply(currentTerm, false, 0, 0);
      if args.term < currentTerm {
        return;
      }
      if args.term > currentTerm {
        BecomeFollower(args.term);
        reply := reply.(term := args.term);
      } else if role.Candidate? {
        BecomeFollower(args.term);
      }
      leaderId := args.leader;
      if args.prevLogIndex > 0 {
        if args.prevLogIndex > log.LastIndex() {
          reply := reply.(conflictIndex := log.LastIndex() + 1);
          return;
        }
        if log.TermAt(args.prevLogIndex) != args.prevLogTerm {
          reply := reply.(conflictTerm := log.TermAt(args.prevLogIndex));
          var index := FindConflict(args.prevLogIndex, reply.conflictTerm);
          reply := reply.(conflictIndex := index);
          return;
        }
      }
      AppendEntries(args.prevLogIndex, args.entries);
      if args.leaderCommit > commitIndex {
        var newCommit := args.leaderCommit;
        if log.LastIndex() < newCommit {
          newCommit := log.LastIndex();
        }
        commitIndex := newCommit;
      }
      reply := reply.(success := true);
    }

    /** How many servers hold idx, counted over the match indexes in no particular order. */
    method CountReplicas(idx: nat) returns (count: nat)
      requires Valid()
      ensures count == 1 + |Replicated(State(), idx)|
    {
      count := 1;
      var todo := matchIndex.Keys;
      ghost var held: set<NodeId> := {};
      while todo != {}
        invariant todo <= matchIndex.Keys && count == 1 + |held|
        invariant forall p :: p in held <==> p in matchIndex && p !in todo && matchIndex[p] >= idx
        decreases todo
      {
        var p :| p in todo;
        todo := todo - {p};
        if matchIndex[p] >= idx {
          count, held := count + 1, held + {p};
        }
      }
      assert Replicated(State(), idx) == held;
    }

    method UpdateCommitIndex()
      requires Valid()
      modifies this
      ensures Valid() && State() == RaftServer.UpdateCommitIndex(old(State()), |peers| + 1)
    {
      ghost var s := State();
      ghost var n := |peers| + 1;
      var idx: nat := log.LastIndex();
      while idx > commitIndex
        invariant Valid() && State() == s
        invariant CommitSearch(s, n, log.LastIndex()) == CommitSearch(s, n, idx)
      {
        if log.TermAt(idx) == currentTerm {
          var count := 1;
          if peers != {} {
            count := CountReplicas(idx);
          }
          if count > (|peers| + 1) / 2 {
            commitIndex := idx;
            break;
          }
        }
        idx := idx - 1;
      }
    }

    method HandleAppendReply(peer: NodeId, next: nat, count: nat, reply: AppendReply)
      requires Valid() && next >= 1
      modifies this
      ensures Valid()
      ensures State() == RaftServer.HandleAppendReply(old(State()), |peers| + 1, peer, next, count, reply)
    {
      if reply.term > currentTerm {
        BecomeFollower(reply.term);
        return;
      }
      if reply.success {
        nextIndex := nextIndex[peer := next + count];
        matchIndex := matchIndex[peer := next + count - 1];
        UpdateCommitIndex();
      } else if reply.conflictTerm > 0 {
        nextIndex := nextIndex[peer := reply.conflictIndex];
      } else {
        var newNext := if peer in nextIndex then nextIndex[peer] else 0;
        if newNext > 1 {
          nextIndex := nextIndex[peer := newNext - 1];
        }
      }
    }

    method AppendCommand(command: seq<Byte>) returns (index: nat)
      requires Valid()
      modifies this, log
      ensures Valid()
      ensures !old(role).Leader? ==> State() == old(State()) && index == 0
      ensures old(role).Leader? ==>
                && State() == Propose(old(State()), |peers| + 1, command)
                && index == old(|log.entries|)
    {
      index := 0;
      if role.Leader? {
        index := log.LastIndex() + 1;
        log.Append(LogEntry(index, currentTerm, ENTRY_COMMAND, command));
        UpdateCommitIndex();
      }
    }
  }
}
