/** The replicated state machine (internal/raft/statemachine.go): what a committed entry does to the
    main and the log database, and what replaying the log after a restart does.

    The storage engines are not modelled inside: an engine is a map from DN to attributes, and its
    answer to a Put or Delete is any deterministic function of that map. */
module StateMachine {
  import opened Bytes
  import opened ByteReader
  import opened EntryCodec
  import opened RaftServer
  import opened RaftCodec

  type Db = map<Name, Attributes>

  /** What an engine may answer: success, or one of the errors the code tells apart. */
  datatype Answer =
    | Done | UidNotUnique | EntryExists | WriteConflict | TooManyNodes | EntryNotFound | VersionDeleted | OtherError

  datatype Engine = Engine(put: (Db, Entry) -> Answer, delete: (Db, Name) -> Answer)

  /** The wiring of one machine; side says whether a configuration or ACL command is accepted, and
      normalize is the trimming and lowercasing of an old DN. */
  datatype Wiring = Wiring(main: Engine, log: Engine, hasLog: bool, side: Command -> bool, normalize: Name -> Name)

  datatype Databases = Databases(main: Db, log: Db)

  datatype Result = Applied | Idempotent | RejectConflict | Fatal

  const CMD_PUT: Byte := 0
  const CMD_DELETE: Byte := 1
  const CMD_MODIFY_DN: Byte := 2
  const CMD_ACL_SET_DEFAULT: Byte := 8

  const DB_LOG: Byte := 1

  function ClassifyPut(a: Answer): Result {
    match a
    case Done => Applied
    case UidNotUnique | EntryExists | WriteConflict | TooManyNodes => RejectConflict
    case EntryNotFound | VersionDeleted | OtherError => Fatal
  }

  function ClassifyDelete(a: Answer): Result {
    match a
    case Done => Applied
    case EntryNotFound | VersionDeleted => Idempotent
    case WriteConflict => RejectConflict
    case UidNotUnique | EntryExists | TooManyNodes | OtherError => Fatal
  }

  // --------------------------------------------------------------- one command

  function PutEntry(engine: Engine, db: Db, e: Entry): (Db, Result) {
    var r := ClassifyPut(engine.put(db, e));
    (if r == Applied then db[e.dn := e.attributes] else db, r)
  }

  /** Put: a log entry is never replaced, and an entry already there as it is is left alone. */
  function ApplyPut(engine: Engine, isLog: bool, db: Db, c: Command): (Db, Result) {
    var p := ParseData(c.entryData);
    if p.Corrupted? then (db, Fatal)
    else if isLog && p.value.dn in db then (db, Idempotent)
    else if p.value.dn in db && db[p.value.dn] == p.value.attributes then (db, Idempotent)
    else PutEntry(engine, db, p.value)
  }

  /** Delete: never applied to the log database. */
  function ApplyDelete(engine: Engine, isLog: bool, db: Db, c: Command): (Db, Result) {
    if isLog then (db, Idempotent)
    else
      var r := ClassifyDelete(engine.delete(db, c.dn));
      (if r == Applied then db - {c.dn} else db, r)
  }

  /** ModifyDN: delete the old DN and put the new entry in one transaction. Only a fatal delete stops
      it, and a refused put undoes the delete. */
  function ApplyModifyDn(w: Wiring, engine: Engine, db: Db, c: Command): (Db, Result) {
    var oldDn := w.normalize(c.oldDn);
    var d := ClassifyDelete(engine.delete(db, oldDn));
    var p := ParseData(c.entryData);
    if d == Fatal || p.Corrupted? then (db, Fatal)
    else
      var (next, r) := PutEntry(engine, if d == Applied then db - {oldDn} else db, p.value);
      (if r == Applied then next else db, r)
  }

  function ApplyTo(w: Wiring, engine: Engine, isLog: bool, db: Db, c: Command): (Db, Result) {
    if c.kind == CMD_PUT then ApplyPut(engine, isLog, db, c)
    else if c.kind == CMD_DELETE then ApplyDelete(engine, isLog, db, c)
    else ApplyModifyDn(w, engine, db, c)
  }

  function Apply(w: Wiring, s: Databases, c: Command): (Databases, Result) {
    if c.kind <= CMD_MODIFY_DN then
      if c.database == DB_LOG then
        if !w.hasLog then (s, Applied)
        else
          var (db, r) := ApplyTo(w, w.log, true, s.log, c);
          (s.(log := db), r)
      else
        var (db, r) := ApplyTo(w, w.main, false, s.main, c);
        (s.(main := db), r)
    else if c.kind <= CMD_ACL_SET_DEFAULT then (s, if w.side(c) then Applied else Fatal)
    else (s, Fatal)
  }

  /** A committed log entry; only commands reach the machine. */
  function ApplyEntry(w: Wiring, s: Databases, e: LogEntry): (Databases, Result) {
    if e.kind != ENTRY_COMMAND then (s, Applied)
    else
      var p := ParseCommand(e.command);
      if p.Corrupted? then (s, Fatal) else Apply(w, s, p.value)
  }

  /** A fatal entry changes nothing. */
  lemma FatalChangesNothing(w: Wiring, s: Databases, e: LogEntry)
    requires ApplyEntry(w, s, e).1 == Fatal
    ensures ApplyEntry(w, s, e).0 == s
  {
    hide ParseCommand, ParseData;
  }

  // ------------------------------------------------------------------- a whole log

  /** The databases after all of es. */
  function After(w: Wiring, s: Databases, es: seq<LogEntry>): Databases {
    if es == [] then s
    else ApplyEntry(w, After(w, s, es[..|es| - 1]), es[|es| - 1]).0
  }

  /** No entry of es is fatal in its turn. */
  predicate Clean(w: Wiring, s: Databases, es: seq<LogEntry>) {
    es == [] || (Clean(w, s, es[..|es| - 1]) &&
                 ApplyEntry(w, After(w, s, es[..|es| - 1]), es[|es| - 1]).1 != Fatal)
  }

  lemma AfterSnoc(w: Wiring, s: Databases, es: seq<LogEntry>, k: nat)
    requires k < |es|
    ensures After(w, s, es[..k + 1]) == ApplyEntry(w, After(w, s, es[..k]), es[k]).0
    ensures Clean(w, s, es[..k + 1]) <==>
            Clean(w, s, es[..k]) && ApplyEntry(w, After(w, s, es[..k]), es[k]).1 != Fatal
  {
    assert es[..k + 1][..k] == es[..k];
  }

  lemma {:induction false} CleanPrefix(w: Wiring, s: Databases, es: seq<LogEntry>, k: nat)
    requires Clean(w, s, es) && k <= |es|
    ensures Clean(w, s, es[..k])
    decreases |es|
  {
    if k < |es| {
      CleanPrefix(w, s, es[..|es| - 1], k);
      assert es[..|es| - 1][..k] == es[..k];
    } else {
      assert es[..k] == es;
    }
  }

  // ------------------------------------------------------------- the log database

  predicate ToLog(e: LogEntry, kind: Byte) {
    e.kind == ENTRY_COMMAND && ParseCommand(e.command).Got?
    && ParseCommand(e.command).value.kind == kind && ParseCommand(e.command).value.database == DB_LOG
  }

  /** The cluster sends the log database only puts and deletes. */
  predicate NoLogRename(es: seq<LogEntry>) {
    forall k :: 0 <= k < |es| ==> !ToLog(es[k], CMD_MODIFY_DN)
  }

  function LogData(e: LogEntry): Read<Entry>
    requires ToLog(e, CMD_PUT)
  {
    ParseData(ParseCommand(e.command).value.entryData)
  }

  /** Putting this log entry into db again would be refused or skipped, and not block. */
  ghost predicate Settled(w: Wiring, db: Db, e: LogEntry) {
    w.hasLog && ToLog(e, CMD_PUT) && LogData(e).Got? && LogData(e).value.dn !in db ==>
      ClassifyPut(w.log.put(db, LogData(e).value)) == RejectConflict
  }

  ghost predicate AllSettled(w: Wiring, db: Db, es: seq<LogEntry>) {
    forall k :: 0 <= k < |es| ==> Settled(w, db, es[k])
  }

  /** The main database is not affected by the log database, nor the other way round. */
  lemma Independent(w: Wiring, s: Databases, t: Databases, e: LogEntry)
    ensures s.main == t.main ==> ApplyEntry(w, s, e).0.main == ApplyEntry(w, t, e).0.main
    ensures s.log == t.log ==> ApplyEntry(w, s, e).0.log == ApplyEntry(w, t, e).0.log
  {
    hide ParseCommand, ParseData;
  }

  /** An entry that is not for the log database leaves it, and its result depends on main only. */
  lemma NotForLog(w: Wiring, s: Databases, t: Databases, e: LogEntry)
    requires !ToLog(e, CMD_PUT) && !ToLog(e, CMD_DELETE) && !ToLog(e, CMD_MODIFY_DN) && s.main == t.main
    ensures ApplyEntry(w, s, e).0.log == s.log && ApplyEntry(w, s, e).1 == ApplyEntry(w, t, e).1
  {
    hide ParseCommand, ParseData;
  }

  lemma LogDelete(w: Wiring, s: Databases, e: LogEntry)
    requires ToLog(e, CMD_DELETE)
    ensures ApplyEntry(w, s, e).0 == s && ApplyEntry(w, s, e).1 != Fatal
  {
    hide ParseCommand, ParseData;
  }

  /** A put to the log database: what becomes of the database, case by case. */
  lemma LogPut(w: Wiring, s: Databases, e: LogEntry)
    requires ToLog(e, CMD_PUT)
    ensures ApplyEntry(w, s, e).0.main == s.main
    ensures !w.hasLog ==> ApplyEntry(w, s, e) == (s, Applied)
    ensures w.hasLog && LogData(e).Corrupted? ==> ApplyEntry(w, s, e) == (s, Fatal)
    ensures w.hasLog && LogData(e).Got? && LogData(e).value.dn in s.log ==> ApplyEntry(w, s, e) == (s, Idempotent)
    ensures w.hasLog && LogData(e).Got? && LogData(e).value.dn !in s.log ==>
              var (db, r) := PutEntry(w.log, s.log, LogData(e).value);
              ApplyEntry(w, s, e) == (s.(log := db), r)
  {
    hide ParseCommand, ParseData;
  }

  /** The log database only grows. */
  lemma LogGrows(w: Wiring, s: Databases, e: LogEntry)
    requires !ToLog(e, CMD_MODIFY_DN)
    ensures forall x :: x in s.log ==> x in ApplyEntry(w, s, e).0.log && ApplyEntry(w, s, e).0.log[x] == s.log[x]
  {
    hide ApplyEntry;
    if ToLog(e, CMD_PUT) { LogPut(w, s, e); }
    else if ToLog(e, CMD_DELETE) { LogDelete(w, s, e); }
    else { NotForLog(w, s, s, e); }
  }

  lemma {:induction false} LogGrowsTo(w: Wiring, s: Databases, es: seq<LogEntry>, k: nat)
    requires NoLogRename(es) && k <= |es|
    ensures forall x :: x in After(w, s, es[..k]).log ==> x in After(w, s, es).log
    decreases |es| - k
  {
    hide ApplyEntry, ToLog;
    if k < |es| {
      AfterSnoc(w, s, es, k);
      LogGrows(w, After(w, s, es[..k]), es[k]);
      LogGrowsTo(w, s, es, k + 1);
    } else {
      assert es[..k] == es;
    }
  }
}
