/** What a committed command does to the databases, read as maps from DN to attributes: from the bytes of
    the command to the entries that are there, not there and untouched afterwards. */
module CommandEffects {
  import opened Bytes
  import opened ByteReader
  import opened EntryCodec
  import opened RaftServer
  import opened RaftCodec
  import opened StateMachine

  /** DN x has the same entry in both, or none in either. */
  predicate SameAt(db: Db, db': Db, x: Name) {
    (x in db' <==> x in db) && (x in db ==> db'[x] == db[x])
  }

  /** db' has these attributes at dn and is db everywhere else. */
  ghost predicate SetsOnly(db: Db, db': Db, dn: Name, attributes: Attributes) {
    dn in db' && db'[dn] == attributes && forall x :: x != dn ==> SameAt(db, db', x)
  }

  /** db' has nothing at dn and is db everywhere else. */
  ghost predicate RemovesOnly(db: Db, db': Db, dn: Name) {
    dn !in db' && forall x :: x != dn ==> SameAt(db, db', x)
  }

  /** The log entry of a command. */
  function EntryOf(index: nat, term: nat, c: Command): LogEntry {
    LogEntry(index, term, ENTRY_COMMAND, CommandBytes(c))
  }

  predicate IsLog(c: Command) { c.database == DB_LOG }

  /** The engine and the database a command is for. */
  function EngineFor(w: Wiring, c: Command): Engine { if IsLog(c) then w.log else w.main }

  function DbFor(s: Databases, c: Command): Db { if IsLog(c) then s.log else s.main }

  /** The database it is not for. */
  function OtherDb(s: Databases, c: Command): Db { if IsLog(c) then s.main else s.log }

  lemma CommandReaches(w: Wiring, s: Databases, index: nat, term: nat, c: Command)
    requires CommandFits(c)
    ensures ApplyEntry(w, s, EntryOf(index, term, c)) == Apply(w, s, c)
  {
    hide CommandBytes, ParseCommand, Apply;
    CommandRoundTrip(c);
  }

  lemma DataReaches(c: Command, e: Entry, order: seq<Name>)
    requires Enumerates(order, e.attributes) && DataFits(e) && c.entryData == DataBytes(e, order)
    ensures ParseData(c.entryData) == Got(e, [])
  {
    hide DataBytes, ParseData, DataFits;
    DataRoundTrip(e, order);
  }

  /** A put. It is skipped if the entry is there as it is, or, in the log database, if the DN is there at
      all; otherwise the engine decides. Applied, it sets exactly its DN to exactly its attributes; with any
      other result nothing changes. */
  lemma PutDoes(w: Wiring, s: Databases, index: nat, term: nat, c: Command, e: Entry, order: seq<Name>)
    requires CommandFits(c) && c.kind == CMD_PUT && (IsLog(c) ==> w.hasLog)
    requires Enumerates(order, e.attributes) && DataFits(e) && c.entryData == DataBytes(e, order)
    ensures var (s', r) := ApplyEntry(w, s, EntryOf(index, term, c));
            var db, answer := DbFor(s, c), EngineFor(w, c).put(DbFor(s, c), e);
            var skipped := e.dn in db && (IsLog(c) || db[e.dn] == e.attributes);
            && (r == Idempotent <==> skipped)
            && (r == Applied <==> !skipped && answer == Done)
            && (r == RejectConflict <==>
                  !skipped && answer in {UidNotUnique, EntryExists, WriteConflict, TooManyNodes})
            && OtherDb(s', c) == OtherDb(s, c)
            && (r == Applied ==> SetsOnly(db, DbFor(s', c), e.dn, e.attributes))
            && (r != Applied ==> s' == s)
  {
    hide ParseData, ApplyEntry, CommandFits, DataFits, Enumerates;
    CommandReaches(w, s, index, term, c);
    DataReaches(c, e, order);
  }

  /** A put whose entry cannot be decoded is fatal. */
  lemma BadPut(w: Wiring, s: Databases, index: nat, term: nat, c: Command)
    requires CommandFits(c) && c.kind == CMD_PUT && (IsLog(c) ==> w.hasLog) && ParseData(c.entryData).Corrupted?
    ensures ApplyEntry(w, s, EntryOf(index, term, c)) == (s, Fatal)
  {
    hide ParseData, ApplyEntry, CommandFits;
    CommandReaches(w, s, index, term, c);
  }

  /** A delete. The log database ignores it; in the main database the engine decides. Applied, it removes
      exactly its DN; with any other result nothing changes. */
  lemma DeleteDoes(w: Wiring, s: Databases, index: nat, term: nat, c: Command)
    requires CommandFits(c) && c.kind == CMD_DELETE && (IsLog(c) ==> w.hasLog)
    ensures var (s', r) := ApplyEntry(w, s, EntryOf(index, term, c));
            var answer := w.main.delete(s.main, c.dn);
            && (IsLog(c) ==> r == Idempotent)
            && (!IsLog(c) ==>
                  && (r == Applied <==> answer == Done)
                  && (r == Idempotent <==> answer in {EntryNotFound, VersionDeleted})
                  && (r == RejectConflict <==> answer == WriteConflict))
            && s'.log == s.log
            && (r == Applied ==> RemovesOnly(s.main, s'.main, c.dn))
            && (r != Applied ==> s' == s)
  {
    hide ParseData, ApplyEntry, CommandFits;
    CommandReaches(w, s, index, term, c);
  }

  /** The database that the put of a ModifyDN finds. */
  function Unnamed(db: Db, answer: Answer, oldDn: Name): Db { if answer == Done then db - {oldDn} else db }

  /** A ModifyDN. Applied, it sets the new DN and changes no DN but the two; the old one, unless it is the
      new one, is gone exactly if it was not there or its delete was answered Done. With any other result
      nothing changes. */
  lemma RenameDoes(w: Wiring, s: Databases, index: nat, term: nat, c: Command, e: Entry, order: seq<Name>)
    requires CommandFits(c) && c.kind == CMD_MODIFY_DN && (IsLog(c) ==> w.hasLog)
    requires Enumerates(order, e.attributes) && DataFits(e) && c.entryData == DataBytes(e, order)
    ensures var (s', r) := ApplyEntry(w, s, EntryOf(index, term, c));
            var engine, db, db', oldDn := EngineFor(w, c), DbFor(s, c), DbFor(s', c), w.normalize(c.oldDn);
            var answer := engine.delete(db, oldDn);
            && (r == Applied <==>
                  && answer in {Done, EntryNotFound, VersionDeleted, WriteConflict}
                  && engine.put(Unnamed(db, answer, oldDn), e) == Done)
            && OtherDb(s', c) == OtherDb(s, c)
            && (r == Applied ==>
                  && e.dn in db' && db'[e.dn] == e.attributes
                  && (forall x :: x != e.dn && x != oldDn ==> SameAt(db, db', x))
                  && (oldDn != e.dn ==>
                        && (oldDn !in db' <==> oldDn !in db || answer == Done)
                        && (oldDn in db' ==> db'[oldDn] == db[oldDn])))
            && (r != Applied ==> s' == s)
  {
    hide ParseData, ApplyEntry, CommandFits, DataFits, Enumerates;
    CommandReaches(w, s, index, term, c);
    DataReaches(c, e, order);
  }

  /** Commands for a log database that is not there, and entries that are no commands, change nothing and
      do not stop the log. */
  lemma PassedOver(w: Wiring, s: Databases, index: nat, term: nat, c: Command, e: LogEntry)
    requires CommandFits(c) && c.kind <= CMD_MODIFY_DN && IsLog(c) && !w.hasLog
    ensures ApplyEntry(w, s, EntryOf(index, term, c)) == (s, Applied)
    ensures e.kind != ENTRY_COMMAND ==> ApplyEntry(w, s, e) == (s, Applied)
  {
    hide CommandFits, CommandBytes, ParseCommand;
    CommandReaches(w, s, index, term, c);
  }

  /** Configuration and ACL commands leave the databases alone and stop the log exactly when they are
      refused; commands of unknown kinds always stop it. */
  lemma SideDoes(w: Wiring, s: Databases, index: nat, term: nat, c: Command)
    requires CommandFits(c) && c.kind > CMD_MODIFY_DN
    ensures ApplyEntry(w, s, EntryOf(index, term, c)) == (s, if c.kind <= 8 && w.side(c) then Applied else Fatal)
  {
    hide CommandFits, CommandBytes, ParseCommand;
    CommandReaches(w, s, index, term, c);
  }

  /** An entry whose command cannot be decoded is fatal. */
  lemma BadCommand(w: Wiring, s: Databases, e: LogEntry)
    requires e.kind == ENTRY_COMMAND && ParseCommand(e.command).Corrupted?
    ensures ApplyEntry(w, s, e) == (s, Fatal)
  {
    hide ParseCommand;
  }

  /** Whatever its bytes, an entry that is not applied changes nothing, and none changes both databases. */
  lemma OnlyAppliedChanges(w: Wiring, s: Databases, e: LogEntry)
    ensures var (s', r) := ApplyEntry(w, s, e);
            (r != Applied ==> s' == s) && (s'.main == s.main || s'.log == s.log)
  {
    hide ParseCommand, ParseData;
  }

  // --------------------------------------------------------------- the old name can stay

  /** A main engine whose deletes meet a write conflict. */
  const BUSY := Wiring(
    Engine((db, e) => Done, (db, dn) => WriteConflict), Engine((db, e) => Done, (db, dn) => Done),
    true, c => true, dn => dn)

  /** A rename is applied although its delete was refused, and the entry is there under both names. */
  lemma OldNameStays(index: nat, term: nat)
    ensures var c := Command(CMD_MODIFY_DN, 0, [], [97], [98], DataBytes(Entry([98], map[]), []), [], []);
            ApplyEntry(BUSY, Databases(map[[97] := map[]], map[]), EntryOf(index, term, c)) ==
            (Databases(map[[97] := map[], [98] := map[]], map[]), Applied)
  {
    hide ApplyEntry, CommandBytes, DataBytes, CommandFits;
    var e := Entry([98], map[]);
    var c := Command(CMD_MODIFY_DN, 0, [], [97], [98], DataBytes(e, []), [], []);
    var s := Databases(map[[97] := map[]], map[]);
    ShortCommand(c, [98]);
    RenameDoes(BUSY, s, index, term, c, e, []);
    var after := ApplyEntry(BUSY, s, EntryOf(index, term, c)).0.main;
    forall x | x != [97] && x != [98] ensures x !in after { assert SameAt(s.main, after, x); }
    BothNames(after);
  }

  lemma BothNames(db: Db)
    requires [97] in db && db[[97]] == map[] && [98] in db && db[[98]] == map[]
    requires forall x :: x != [97] && x != [98] ==> x !in db
    ensures db == map[[97] := map[], [98] := map[]]
  {
  }

  lemma ShortCommand(c: Command, dn: Name)
    requires |dn| < 100 && c == Command(CMD_MODIFY_DN, 0, [], [97], [98], DataBytes(Entry(dn, map[]), []), [], [])
    ensures CommandFits(c) && DataFits(Entry(dn, map[])) && Enumerates([], Entry(dn, map[]).attributes)
  {
    ShortData(dn);
  }

  lemma ShortData(dn: Name)
    ensures |DataBytes(Entry(dn, map[]), [])| == |dn| + 4
  {
  }
}
