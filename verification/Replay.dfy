/** Restarting: the main database is cleared and the whole log applied again over the log database
    that survived (internal/raft/cluster.go, internal/raft/node.go). */
module Replay {
  import opened Bytes
  import opened ByteReader
  import opened EntryCodec
  import opened RaftServer
  import opened RaftCodec
  import opened StateMachine

  /** ClearMainEngine. */
  function Restarted(s: Databases): Databases { s.(main := map[]) }

  /** One replayed entry: the main database follows the first run, the log database stays. */
  lemma ReplayStep(w: Wiring, s: Databases, t: Databases, e: LogEntry)
    requires s.main == t.main && !ToLog(e, CMD_MODIFY_DN)
    requires ApplyEntry(w, s, e).1 != Fatal && Settled(w, t.log, e)
    ensures ApplyEntry(w, t, e).1 != Fatal
    ensures ApplyEntry(w, t, e).0 == Databases(ApplyEntry(w, s, e).0.main, t.log)
  {
    hide ApplyEntry, ToLog, LogData;
    Independent(w, s, t, e);
    if ToLog(e, CMD_PUT) { LogPut(w, s, e); LogPut(w, t, e); }
    else if ToLog(e, CMD_DELETE) { LogDelete(w, t, e); }
    else { NotForLog(w, s, t, e); NotForLog(w, t, s, e); }
  }

  /** A replay of a settled prefix over log database db rebuilds main and leaves db. */
  lemma {:induction false} ReplayPrefix(w: Wiring, first: Databases, db: Db, es: seq<LogEntry>)
    requires first.main == map[] && NoLogRename(es) && Clean(w, first, es) && AllSettled(w, db, es)
    ensures Clean(w, Databases(map[], db), es)
    ensures After(w, Databases(map[], db), es) == Databases(After(w, first, es).main, db)
    decreases |es|
  {
    hide ApplyEntry, ToLog, Settled;
    if es != [] {
      var n := |es| - 1;
      ReplayPrefix(w, first, db, es[..n]);
      ReplayStep(w, After(w, first, es[..n]), After(w, Databases(map[], db), es[..n]), es[n]);
    }
  }

  /** The first entry that is not settled shows: it blocks the replay, or adds to the log database. */
  lemma ReplayShows(w: Wiring, first: Databases, db: Db, es: seq<LogEntry>, k: nat)
    requires first.main == map[] && NoLogRename(es) && Clean(w, first, es)
    requires k < |es| && AllSettled(w, db, es[..k]) && !Settled(w, db, es[k])
    ensures !(Clean(w, Databases(map[], db), es) && After(w, Databases(map[], db), es).log == db)
  {
    hide ApplyEntry, ToLog, LogData;
    var t := Databases(map[], db);
    CleanPrefix(w, first, es, k);
    ReplayPrefix(w, first, db, es[..k]);
    AfterSnoc(w, t, es, k);
    LogPut(w, After(w, t, es[..k]), es[k]);
    if Clean(w, t, es) {
      CleanPrefix(w, t, es, k + 1);
      LogGrowsTo(w, t, es, k + 1);
      assert LogData(es[k]).value.dn in After(w, t, es[..k + 1]).log;
    }
  }

  lemma FirstUnsettled(w: Wiring, db: Db, es: seq<LogEntry>) returns (k: nat)
    requires !AllSettled(w, db, es)
    ensures k < |es| && AllSettled(w, db, es[..k]) && !Settled(w, db, es[k])
  {
    hide Settled;
    k := 0;
    while Settled(w, db, es[k])
      invariant k < |es| && AllSettled(w, db, es[..k])
      decreases |es| - k
    {
      assert forall j :: 0 <= j < k ==> es[..k][j] == es[..k + 1][j];
      k := k + 1;
    }
  }

  /** Restart replay is invisible: clearing the main database and applying the same log again over
      the surviving log database gives back both, without blocking, exactly when the log engine
      would still refuse every put whose DN never made it into the log database. */
  lemma ReplayInvisible(w: Wiring, first: Databases, es: seq<LogEntry>)
    requires first.main == map[] && NoLogRename(es) && Clean(w, first, es)
    ensures var final := After(w, first, es);
            AllSettled(w, final.log, es) <==>
            Clean(w, Restarted(final), es) && After(w, Restarted(final), es) == final
  {
    hide ApplyEntry, ToLog, Settled, NoLogRename;
    var final := After(w, first, es);
    if AllSettled(w, final.log, es) {
      ReplayPrefix(w, first, final.log, es);
    } else {
      var k := FirstUnsettled(w, final.log, es);
      ReplayShows(w, first, final.log, es, k);
    }
  }

  // ------------------------------------------------------- runs with any crashes

  /** A node at work on one committed log: how far it has applied since it started, and the furthest
      it ever got. */
  datatype Node = Node(dbs: Databases, applied: nat, furthest: nat)

  function Max(a: nat, b: nat): nat { if a < b then b else a }

  /** The apply loop takes the next entry, and stays where it is if that is fatal. */
  function ApplyNext(w: Wiring, es: seq<LogEntry>, n: Node): Node {
    if n.applied >= |es| || ApplyEntry(w, n.dbs, es[n.applied]).1 == Fatal then n
    else Node(ApplyEntry(w, n.dbs, es[n.applied]).0, n.applied + 1, Max(n.furthest, n.applied + 1))
  }

  /** ClusterBackend.Start: clear the main database and reset lastApplied. */
  function Restart(n: Node): Node { Node(Restarted(n.dbs), 0, n.furthest) }

  ghost predicate IsRun(w: Wiring, first: Databases, es: seq<LogEntry>, run: seq<Node>) {
    && run != [] && run[0] == Node(first, 0, 0)
    && forall i :: 0 < i < |run| ==> run[i] == ApplyNext(w, es, run[i - 1]) || run[i] == Restart(run[i - 1])
  }

  /** What a log database was built from stays settled, however far the node got. */
  ghost predicate Steady(w: Wiring, first: Databases, es: seq<LogEntry>) {
    forall k :: 0 <= k <= |es| && Clean(w, first, es[..k]) ==> AllSettled(w, After(w, first, es[..k]).log, es[..k])
  }

  /** The main database is exactly the applied prefix; the log database is exactly the longest prefix
      ever applied. */
  ghost predicate Sound(w: Wiring, first: Databases, es: seq<LogEntry>, n: Node) {
    && n.applied <= n.furthest <= |es|
    && Clean(w, first, es[..n.furthest])
    && n.dbs.main == After(w, first, es[..n.applied]).main
    && n.dbs.log == After(w, first, es[..n.furthest]).log
  }

  lemma ApplyNextKeeps(w: Wiring, first: Databases, es: seq<LogEntry>, n: Node)
    requires first.main == map[] && NoLogRename(es) && Steady(w, first, es) && Sound(w, first, es, n)
    ensures Sound(w, first, es, ApplyNext(w, es, n))
    ensures n.applied < n.furthest ==> ApplyNext(w, es, n).applied == n.applied + 1
  {
    hide ApplyEntry, ToLog, Settled, Clean, After;
    var k := n.applied;
    if k < n.furthest {
      var s := After(w, first, es[..k]);
      CleanPrefix(w, first, es[..n.furthest], k + 1);
      assert es[..n.furthest][..k + 1] == es[..k + 1];
      AfterSnoc(w, first, es, k);
      assert es[..n.furthest][k] == es[k];
      ReplayStep(w, s, n.dbs, es[k]);
    } else if k < |es| {
      AfterSnoc(w, first, es, k);
      var s := After(w, first, es[..k]);
      assert n.dbs == s;
    }
  }

  lemma RestartKeeps(w: Wiring, first: Databases, es: seq<LogEntry>, n: Node)
    requires first.main == map[] && Sound(w, first, es, n)
    ensures Sound(w, first, es, Restart(n))
  {
    assert es[..0] == [];
  }

  /** On every run, with crashes and restarts anywhere, lastApplied names exactly the prefix folded
      into the main database, the log database holds the longest prefix ever applied, and a node that
      has caught up is in the state of an uninterrupted run. */
  lemma {:induction false} EveryRunSound(w: Wiring, first: Databases, es: seq<LogEntry>, run: seq<Node>)
    requires first.main == map[] && NoLogRename(es) && Steady(w, first, es) && IsRun(w, first, es, run)
    ensures var n := run[|run| - 1];
            && Sound(w, first, es, n)
            && (n.applied == n.furthest ==> n.dbs == After(w, first, es[..n.applied]))
            && (n.applied < n.furthest ==> ApplyNext(w, es, n).applied == n.applied + 1)
    decreases |run|
  {
    hide ApplyEntry, ApplyNext, ToLog, Settled, Clean, After, NoLogRename, Steady;
    var n := run[|run| - 1];
    if |run| == 1 {
      StartSound(w, first, es);
    } else {
      var before := run[..|run| - 1];
      EveryRunSound(w, first, es, before);
      ApplyNextKeeps(w, first, es, before[|before| - 1]);
      RestartKeeps(w, first, es, before[|before| - 1]);
    }
    ApplyNextKeeps(w, first, es, n);
  }

  /** Where a run has got to is sound, and a replay does not block there. */
  ghost predicate RunSound(w: Wiring, first: Databases, es: seq<LogEntry>, run: seq<Node>)
    requires run != []
  {
    var n := run[|run| - 1];
    Sound(w, first, es, n) && (n.applied < n.furthest ==> ApplyNext(w, es, n).applied == n.applied + 1)
  }

  ghost predicate AlwaysSound(w: Wiring, first: Databases, es: seq<LogEntry>) {
    forall run :: IsRun(w, first, es, run) ==> RunSound(w, first, es, run)
  }

  lemma RunOn(w: Wiring, first: Databases, es: seq<LogEntry>, run: seq<Node>, n: Node)
    requires IsRun(w, first, es, run)
    requires n == ApplyNext(w, es, run[|run| - 1]) || n == Restart(run[|run| - 1])
    ensures IsRun(w, first, es, run + [n])
  {
    hide ApplyNext;
    var more := run + [n];
    forall i | 0 < i < |more|
      ensures more[i] == ApplyNext(w, es, more[i - 1]) || more[i] == Restart(more[i - 1])
    {
      if i < |run| { assert more[i] == run[i] && more[i - 1] == run[i - 1]; }
    }
  }

  /** A node that has just started applies j entries, none of them fatal in its turn. */
  lemma {:induction false} RunApplies(w: Wiring, first: Databases, es: seq<LogEntry>, run: seq<Node>, j: nat)
    returns (more: seq<Node>)
    requires IsRun(w, first, es, run) && run[|run| - 1].applied == 0 && j <= |es|
    requires Clean(w, run[|run| - 1].dbs, es[..j]) || (AlwaysSound(w, first, es) && j <= run[|run| - 1].furthest)
    ensures IsRun(w, first, es, more)
    ensures var n := run[|run| - 1];
            && Clean(w, n.dbs, es[..j])
            && more[|more| - 1] == Node(After(w, n.dbs, es[..j]), j, Max(n.furthest, j))
    decreases j
  {
    hide ApplyEntry, Clean, After, Sound, IsRun;
    RunSome(w, first, es, run);
    var n := run[|run| - 1];
    if j == 0 {
      assert es[..0] == [];
      more := run;
      StartClean(w, n.dbs);
    } else {
      AfterSnoc(w, n.dbs, es, j - 1);
      var before := RunApplies(w, first, es, run, j - 1);
      RunSome(w, first, es, before);
      var last := before[|before| - 1];
      assert AlwaysSound(w, first, es) ==> RunSound(w, first, es, before);
      RunOn(w, first, es, before, ApplyNext(w, es, last));
      more := before + [ApplyNext(w, es, last)];
    }
  }

  lemma StartClean(w: Wiring, s: Databases)
    ensures Clean(w, s, []) && After(w, s, []) == s
  {
  }

  /** Applying k entries, restarting and applying them again, all of it sound, makes the replay invisible. */
  lemma SoundReplays(w: Wiring, first: Databases, es: seq<LogEntry>, k: nat)
    requires first.main == map[] && NoLogRename(es) && AlwaysSound(w, first, es)
    requires k <= |es| && Clean(w, first, es[..k])
    ensures AllSettled(w, After(w, first, es[..k]).log, es[..k])
  {
    hide ApplyEntry, ToLog, Settled, Clean, After, AllSettled, ApplyNext, Restarted;
    var start := [Node(first, 0, 0)];
    var once := RunApplies(w, first, es, start, k);
    var n := once[|once| - 1];
    RunOn(w, first, es, once, Restart(n));
    var again := RunApplies(w, first, es, once + [Restart(n)], k);
    assert RunSound(w, first, es, again);
    assert NoLogRename(es[..k]);
    ReplayInvisible(w, first, es[..k]);
  }

  /** The condition is exact: every run is sound and no replay ever blocks if and only if what a log
      database was built from stays settled. */
  lemma SoundExactly(w: Wiring, first: Databases, es: seq<LogEntry>)
    requires first.main == map[] && NoLogRename(es)
    ensures AlwaysSound(w, first, es) <==> Steady(w, first, es)
  {
    hide IsRun, Sound, ApplyNext, Clean, After, AllSettled, NoLogRename;
    if Steady(w, first, es) {
      forall run | IsRun(w, first, es, run) ensures run != [] && RunSound(w, first, es, run) {
        RunSome(w, first, es, run);
        EveryRunSound(w, first, es, run);
      }
    }
    if AlwaysSound(w, first, es) {
      forall k | 0 <= k <= |es| && Clean(w, first, es[..k])
        ensures AllSettled(w, After(w, first, es[..k]).log, es[..k])
      {
        SoundReplays(w, first, es, k);
      }
    }
  }

  lemma RunSome(w: Wiring, first: Databases, es: seq<LogEntry>, run: seq<Node>)
    requires IsRun(w, first, es, run)
    ensures run != []
  {
  }

  lemma StartSound(w: Wiring, first: Databases, es: seq<LogEntry>)
    ensures Sound(w, first, es, Node(first, 0, 0))
  {
    assert es[..0] == [];
  }

  /** A fatal entry blocks: the node never gets past it, whatever is tried. */
  lemma {:induction false} FatalBlocks(w: Wiring, first: Databases, es: seq<LogEntry>, run: seq<Node>, k: nat)
    requires first.main == map[] && NoLogRename(es) && Steady(w, first, es) && IsRun(w, first, es, run)
    requires k < |es| && Clean(w, first, es[..k]) && ApplyEntry(w, After(w, first, es[..k]), es[k]).1 == Fatal
    ensures run[|run| - 1].furthest <= k
  {
    hide ApplyEntry, ApplyNext, ToLog, Settled, Clean, After, NoLogRename, Steady;
    EveryRunSound(w, first, es, run);
    var n := run[|run| - 1];
    if n.furthest > k {
      CleanPrefix(w, first, es[..n.furthest], k + 1);
      assert es[..n.furthest][..k + 1] == es[..k + 1];
      AfterSnoc(w, first, es, k);
    }
  }

  // ----------------------------------------------------------- the condition matters

  /** A log engine that once, when still empty, reports too many nodes for the DN "a". */
  const FICKLE := Wiring(
    Engine((db, e) => Done, (db, dn) => Done),
    Engine((db: Db, e: Entry) => if db == map[] && e.dn == [97] then TooManyNodes else Done, (db, dn) => Done),
    true, c => true, dn => dn)

  function LogPutEntry(index: nat, dn: Name): LogEntry {
    var data := DataBytes(Entry(dn, map[]), []);
    LogEntry(index, 1, ENTRY_COMMAND, CommandBytes(Command(CMD_PUT, DB_LOG, dn, [], dn, data, [], [])))
  }

  lemma LogPutEntryData(index: nat, dn: Name)
    requires |dn| < 100
    ensures ToLog(LogPutEntry(index, dn), CMD_PUT)
    ensures LogData(LogPutEntry(index, dn)) == Got(Entry(dn, map[]), [])
  {
    hide CommandBytes, ParseCommand, ParseData, Blob, AttributesBytes;
    DataRoundTrip(Entry(dn, map[]), []);
    assert DataFits(Entry(dn, map[]));
    DataSize(dn);
    CommandRoundTrip(Command(CMD_PUT, DB_LOG, dn, [], dn, DataBytes(Entry(dn, map[]), []), [], []));
  }

  lemma DataSize(dn: Name)
    ensures |DataBytes(Entry(dn, map[]), [])| == |dn| + 4
  {
  }

  /** Without that condition a replay can show: the entry such an engine refused turns up in the log
      database after a restart. */
  lemma ReplayVisible()
    ensures var first := Databases(map[], map[]);
            var es := [LogPutEntry(1, [97]), LogPutEntry(2, [98])];
            var final := After(FICKLE, first, es);
            && Clean(FICKLE, first, es) && final.log == map[[98] := map[]]
            && After(FICKLE, Restarted(final), es).log == map[[98] := map[], [97] := map[]]
  {
    hide ApplyEntry, ToLog, LogData, LogPutEntry, After, Clean;
    var first := Databases(map[], map[]);
    var e, f := LogPutEntry(1, [97]), LogPutEntry(2, [98]);
    var es := [e, f];
    LogPutEntryData(1, [97]);
    LogPutEntryData(2, [98]);
    AfterTwo(FICKLE, first, es);
    LogPut(FICKLE, first, e);
    LogPut(FICKLE, first, f);
    var final := Databases(map[], map[[98] := map[]]);
    AfterTwo(FICKLE, final, es);
    LogPut(FICKLE, final, e);
    LogPut(FICKLE, Databases(map[], map[[98] := map[], [97] := map[]]), f);
  }

  lemma AfterTwo(w: Wiring, s: Databases, es: seq<LogEntry>)
    requires |es| == 2
    ensures var s1 := ApplyEntry(w, s, es[0]).0;
            && After(w, s, es) == ApplyEntry(w, s1, es[1]).0
            && (Clean(w, s, es) <==> ApplyEntry(w, s, es[0]).1 != Fatal && ApplyEntry(w, s1, es[1]).1 != Fatal)
  {
    hide ApplyEntry;
    AfterSnoc(w, s, es, 0);
    AfterSnoc(w, s, es, 1);
    assert es[..2] == es && es[..0] == [];
  }
}
