/** The log file of a server. Every appended entry is written to it, a truncation leaves it alone, and a
    restart keeps the last record of every index (internal/raft/log.go). On any run the log is exactly
    what the file would give back, as far as the log goes; what lies beyond was truncated. */
module RaftFile {
  import opened Bytes
  import opened RaftServer
  import opened RaftCluster

  /** Every entry sits at its index. */
  predicate Indexed(log: Log) {
    log[0] == Sentinel && forall k :: 0 <= k < |log| ==> log[k].index == k
  }

  // --------------------------------------------------------------- reading the file

  lemma LastRecordsSnoc(file: seq<LogEntry>, e: LogEntry)
    ensures LastRecords(file + [e]) == Place(LastRecords(file), e)
  {
    assert (file + [e])[..|file|] == file;
  }

  /** The length of what is read is given by the highest index. */
  lemma {:induction false} LastRecordsLength(file: seq<LogEntry>)
    ensures forall k :: 0 <= k < |file| ==> file[k].index < |LastRecords(file)|
    ensures |LastRecords(file)| > 1 ==> exists k :: 0 <= k < |file| && file[k].index == |LastRecords(file)| - 1
    decreases |file|
  {
    if file != [] {
      var init, e := file[..|file| - 1], file[|file| - 1];
      LastRecordsLength(init);
      if |LastRecords(file)| > 1 && e.index != |LastRecords(file)| - 1 {
        var k :| 0 <= k < |init| && init[k].index == |LastRecords(init)| - 1;
        assert file[k] == init[k];
      }
    }
  }

  /** Reading stops at the first record that is too long, if there is one. */
  lemma {:induction false} ReadableIs(file: seq<LogEntry>)
    ensures Readable(file) <= file && AllLegible(Readable(file))
    ensures Readable(file) == file <==> AllLegible(file)
    ensures Readable(file) != file ==> !Legible(file[|Readable(file)|])
  {
    if file != [] && Legible(file[0]) {
      ReadableIs(file[1..]);
      assert file == [file[0]] + file[1..];
      if AllLegible(file) { assert AllLegible(file[1..]); }
    }
  }

  /** Nothing is read that is too long. */
  lemma {:induction false} LastRecordsLegible(file: seq<LogEntry>)
    requires AllLegible(file)
    ensures AllLegible(LastRecords(file))
    decreases |file|
  {
    if file != [] {
      LastRecordsLegible(file[..|file| - 1]);
    }
  }

  // -------------------------------------------------------------- one log, one file

  /** What a log has to do with its file: the file never yields a log with a gap, it is at least as long
      as the log, and without a record that is too long it yields the log and perhaps more. */
  ghost predicate FileOk(log: Log, file: seq<LogEntry>) {
    && Indexed(log)
    && (forall n :: 0 <= n <= |file| ==> Indexed(LastRecords(file[..n])))
    && |log| <= |LastRecords(file)|
    && (AllLegible(file) ==> log <= LastRecords(file))
  }

  lemma StartFile()
    ensures FileOk([Sentinel], [])
  {
  }

  lemma PlaceNext(log: Log, stored: Log, e: LogEntry)
    requires Indexed(stored) && 1 <= e.index <= |stored|
    ensures Indexed(Place(stored, e)) && e.index < |Place(stored, e)|
    ensures e.index == |log| && log <= stored ==> log + [e] <= Place(stored, e)
  {
  }

  lemma FileAppend(log: Log, file: seq<LogEntry>, e: LogEntry)
    requires FileOk(log, file) && e.index == |log|
    ensures FileOk(log + [e], file + [e])
  {
    hide LastRecords, Place, Legible;
    LastRecordsSnoc(file, e);
    var file' := file + [e];
    assert file'[..|file|] == file && file[..|file|] == file;
    PlaceNext(log, LastRecords(file), e);
    forall n | 0 <= n <= |file'| ensures Indexed(LastRecords(file'[..n])) {
      if n <= |file| { assert file'[..n] == file[..n]; } else { assert file'[..n] == file'; }
    }
    if AllLegible(file') {
      assert forall k :: 0 <= k < |file| ==> file[k] == file'[k];
    }
  }

  lemma FileTruncate(log: Log, file: seq<LogEntry>, i: nat)
    requires FileOk(log, file) && i >= 1
    ensures FileOk(TruncateFrom(log, i), file)
  {
  }

  lemma FileAppendOne(log: Log, file: seq<LogEntry>, idx: nat, e: LogEntry)
    requires FileOk(log, file) && 1 <= idx <= |log| && e.index == idx
    ensures var log' := AppendOne(log, idx, e);
            FileOk(log', file + if Adds(log, idx, e) then [e] else []) && idx < |log'|
  {
    hide FileOk;
    if Adds(log, idx, e) {
      FileTruncate(log, file, idx);
      FileAppend(TruncateFrom(log, idx), file, e);
    } else {
      assert file + [] == file;
    }
  }

  /** Entries numbered from idx on. */
  predicate Numbered(idx: nat, entries: seq<LogEntry>) {
    forall k :: 0 <= k < |entries| ==> entries[k].index == idx + k
  }

  /** The append loop. */
  lemma {:induction false} FileAppendNew(log: Log, file: seq<LogEntry>, idx: nat, entries: seq<LogEntry>)
    requires FileOk(log, file) && 1 <= idx <= |log| && Numbered(idx, entries)
    ensures FileOk(AppendNew(log, idx, entries), file + Added(log, idx, entries))
    decreases |entries|
  {
    hide FileOk, AppendOne;
    if entries == [] {
      assert file + [] == file;
    } else {
      var e := entries[0];
      var one := if Adds(log, idx, e) then [e] else [];
      FileAppendOne(log, file, idx, e);
      assert Numbered(idx + 1, entries[1..]);
      FileAppendNew(AppendOne(log, idx, e), file + one, idx + 1, entries[1..]);
      assert file + one + Added(AppendOne(log, idx, e), idx + 1, entries[1..]) == file + Added(log, idx, entries);
    }
  }

  lemma FileReload(log: Log, file: seq<LogEntry>)
    requires FileOk(log, file)
    ensures FileOk(Load(file), file)
  {
    ReadableIs(file);
    var n := |Readable(file)|;
    assert Readable(file) == file[..n];
    LastRecordsLength(file);
    LastRecordsLength(file[..n]);
    if |Load(file)| > 1 {
      var k :| 0 <= k < n && file[..n][k].index == |Load(file)| - 1;
      assert file[k].index == |Load(file)| - 1;
    }
  }

  /** When the log comes back. If no record is too long, it does if and only if no record lies past the
      end of the log. If an entry of the log is too long, it does not. */
  lemma ReloadExact(log: Log, file: seq<LogEntry>)
    requires FileOk(log, file)
    ensures AllLegible(file) ==>
              (Load(file) == log <==> forall k :: 0 <= k < |file| ==> file[k].index <= LastIndex(log))
    ensures !AllLegible(log) ==> Load(file) != log
  {
    ReadableIs(file);
    LastRecordsLength(file);
    LastRecordsLegible(Readable(file));
  }

  // --------------------------------------------------------------------- every run

  /** The entries of a request are numbered from where they are to go. */
  predicate RequestNumbered(m: Message) {
    m.AppendReq? ==> Numbered(m.args.prevLogIndex + 1, m.args.entries)
  }

  ghost predicate FilesOk(c: Cluster) {
    && (forall i :: i in c.nodes ==> FileOk(c.nodes[i].log, c.nodes[i].file))
    && (forall m :: m in c.pool ==> RequestNumbered(m))
  }

  /** The actions that leave log and file alone. */
  lemma SameFile(c: Cluster, a: Action)
    requires Enabled(c, a) && !a.ElectAlone? && !a.OnVoteResp? && !a.OnAppendReq? && !a.Submit? && !a.Restart?
    ensures NextServer(c, a).log == c.nodes[Actor(a)].log && NextServer(c, a).file == c.nodes[Actor(a)].file
  {
    hide CommitSearch, ConflictIndex;
  }

  lemma LeaderFile(s: Server, me: NodeId, peers: set<NodeId>)
    requires FileOk(s.log, s.file)
    ensures var s' := BecomeLeader(s, me, peers); FileOk(s'.log, s'.file)
  {
    hide FileOk, SetAll;
    FileAppend(s.log, s.file, LogEntry(|s.log|, s.term, ENTRY_NOOP, []));
  }

  lemma VoteFile(s: Server, me: NodeId, peers: set<NodeId>, from: NodeId, reply: VoteReply)
    requires FileOk(s.log, s.file)
    ensures var s' := CountVote(s, me, peers, from, reply); FileOk(s'.log, s'.file)
  {
    hide FileOk, BecomeLeader;
    LeaderFile(s.(votes := s.votes + {from}), me, peers);
  }

  lemma ProposeFile(s: Server, n: nat, command: seq<Byte>)
    requires FileOk(s.log, s.file)
    ensures var s' := Propose(s, n, command); FileOk(s'.log, s'.file)
  {
    hide FileOk, CommitSearch;
    FileAppend(s.log, s.file, LogEntry(|s.log|, s.term, ENTRY_COMMAND, command));
  }

  lemma ReceiveFile(s: Server, a: AppendArgs)
    requires FileOk(s.log, s.file) && Numbered(a.prevLogIndex + 1, a.entries)
    ensures var s' := ReceiveAppend(s, a).0; FileOk(s'.log, s'.file)
  {
    hide FileOk, AppendNew, Added, Rejection, Numbered;
    if a.prevLogIndex < |s.log| {
      FileAppendNew(s.log, s.file, a.prevLogIndex + 1, a.entries);
    }
  }

  lemma ActorFile(c: Cluster, a: Action)
    requires FilesOk(c) && Enabled(c, a)
    ensures var s' := NextServer(c, a); FileOk(s'.log, s'.file)
  {
    hide FileOk, CountVote, BecomeLeader, Propose, ReceiveAppend, HandleAppendReply, HandleRequestVote, Load, Numbered;
    var s := c.nodes[Actor(a)];
    match a
    case ElectAlone(i) => LeaderFile(s, i, {});
    case OnVoteResp(m) => VoteFile(s, Actor(a), Peers(c, Actor(a)), m.from, m.vote);
    case OnAppendReq(m) => assert RequestNumbered(m); ReceiveFile(s, m.args);
    case Submit(_, command) => ProposeFile(s, Size(c), command);
    case Restart(_, _) => FileReload(s.log, s.file);
    case _ => SameFile(c, a);
  }

  lemma SentNumbered(c: Cluster, a: Action, m: Message)
    requires FilesOk(c) && Enabled(c, a) && m in Sent(c, a)
    ensures RequestNumbered(m)
  {
    hide HandleRequestVote, ReceiveAppend, LastRecords;
    if a.SendAppend? {
      assert FileOk(c.nodes[a.node].log, c.nodes[a.node].file);
    }
  }

  lemma NextFiles(c: Cluster, a: Action)
    requires FilesOk(c) && Enabled(c, a)
    ensures FilesOk(Next(c, a))
  {
    hide FileOk, RequestNumbered, NextServer, Record, Sent, Enabled;
    ActorFile(c, a);
    forall m | m in Sent(c, a) ensures RequestNumbered(m) { SentNumbered(c, a, m); }
  }

  lemma {:induction false} RunFiles(states: seq<Cluster>, actions: seq<Action>, k: nat)
    requires IsRun(states, actions) && k < |states|
    ensures FilesOk(states[k])
  {
    hide FilesOk, Next, Enabled;
    if k == 0 {
      StartFiles(states[0]);
    } else {
      RunFiles(states, actions, k - 1);
      assert Taken(states[k - 1], actions[k - 1], states[k]);
      NextFiles(states[k - 1], actions[k - 1]);
    }
  }

  lemma StartFiles(c: Cluster)
    requires Init(c)
    ensures FilesOk(c)
  {
    StartFile();
  }

  /** On every run, with restarts of any kind: a server with no overlong record would get its log back
      from its file if and only if no record lies past the end of the log; a server with an overlong
      entry in its log would not. Nobody ever reads a log with a gap. */
  lemma LogComesBack(states: seq<Cluster>, actions: seq<Action>, k: nat, i: NodeId)
    requires IsRun(states, actions) && k < |states| && i in states[k].nodes
    ensures var s := states[k].nodes[i];
            && (AllLegible(s.file) ==> (Load(s.file) == s.log <==> NoTail(s)))
            && (!AllLegible(s.log) ==> Load(s.file) != s.log)
            && Indexed(s.log) && Indexed(Load(s.file))
  {
    hide IsRun, AllLegible, Load, LastRecords;
    RunFiles(states, actions, k);
    var s := states[k].nodes[i];
    ReloadExact(s.log, s.file);
    FileReload(s.log, s.file);
  }

  /** A clean restart gives the log back. */
  lemma CleanLog(c: Cluster, i: NodeId)
    requires FilesOk(c) && i in c.nodes && CleanRestart(c.nodes[i])
    ensures Load(c.nodes[i].file) == c.nodes[i].log
  {
    hide FileOk, AllLegible, Load;
    ReloadExact(c.nodes[i].log, c.nodes[i].file);
  }

  /** A record that was truncated is read back beside the one that took the place of its predecessor. */
  lemma TruncatedComesBack(e1: LogEntry, e2: LogEntry, e1': LogEntry)
    requires e1.index == e1'.index == 1 && e2.index == 2 && AllLegible([e1, e2, e1'])
    ensures Load([e1, e2, e1']) == [Sentinel, e1', e2]
  {
    ReadableIs([e1, e2, e1']);
    LastRecordsSnoc([], e1);
    LastRecordsSnoc([e1], e2);
    LastRecordsSnoc([e1, e2], e1');
    assert [] + [e1] == [e1] && [e1] + [e2] == [e1, e2] && [e1, e2] + [e1'] == [e1, e2, e1'];
    assert [Sentinel] + [e1] == [Sentinel, e1] && [Sentinel, e1] + [e2] == [Sentinel, e1, e2];
  }
}
