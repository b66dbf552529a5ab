/** The state machine and the apply loop as they run: databases replaced in place, one entry of the
    log at a time. */
module Machine {
  import opened Bytes
  import opened ByteReader
  import opened EntryCodec
  import opened RaftServer
  import opened RaftCodec
  import opened StateMachine

  /** entriesEqual, on the attributes: same size, and every attribute of one in the other. */
  method SameAttributes(a: Attributes, b: Attributes) returns (r: bool)
    ensures r == (a == b)
  {
    if |a| != |b| {
      return false;
    }
    var left := a.Keys;
    while left != {}
      invariant left <= a.Keys
      invariant forall x :: x in a && x !in left ==> x in b && a[x] == b[x]
      decreases left
    {
      var x :| x in left;
      left := left - {x};
      if x !in b || |a[x]| != |b[x]| {
        return false;
      }
      var i := 0;
      while i < |a[x]|
        invariant 0 <= i <= |a[x]|
        invariant a[x][..i] == b[x][..i]
      {
        if a[x][i] != b[x][i] {
          return false;
        }
        i := i + 1;
      }
      assert a[x] == a[x][..i] && b[x] == b[x][..i];
    }
    SameSizeKeys(a.Keys, b.Keys);
    r := true;
  }

  lemma SameSizeKeys(a: set<Name>, b: set<Name>)
    requires a <= b && |a| == |b|
    ensures a == b
  {
    assert |b - a| == |b| - |a|;
  }

  /** A database with the engine that answers for it. */
  class Database {
    const engine: Engine
    var db: Db

    constructor (e: Engine)
      ensures engine == e && db == map[]
    {
      engine, db := e, map[];
    }

    /** The CmdPut branch of applyLDAPCommand. */
    method Put(isLog: bool, data: seq<Byte>) returns (r: Result)
      modifies this`db
      ensures forall c: Command :: c.entryData == data ==> (db, r) == ApplyPut(engine, isLog, old(db), c)
    {
      var entry := DeserializeEntry(data);
      if entry.Corrupted? {
        return Fatal;
      }
      var e := entry.value;
      if isLog && e.dn in db {
        return Idempotent;
      }
      if e.dn in db {
        var same := SameAttributes(db[e.dn], e.attributes);
        if same {
          return Idempotent;
        }
      }
      r := ClassifyPut(engine.put(db, e));
      if r == Applied {
        db := db[e.dn := e.attributes];
      }
    }

    /** applyLDAPCommand; the transaction is the database before it. */
    method ApplyCommand(w: Wiring, isLog: bool, c: Command) returns (r: Result)
      modifies this`db
      ensures (db, r) == ApplyTo(w, engine, isLog, old(db), c)
    {
      if c.kind == CMD_PUT {
        r := Put(isLog, c.entryData);
      } else if c.kind == CMD_DELETE {
        if isLog {
          return Idempotent;
        }
        r := ClassifyDelete(engine.delete(db, c.dn));
        if r == Applied {
          db := db - {c.dn};
        }
      } else {
        var before := db;
        var oldDn := w.normalize(c.oldDn);
        var d := ClassifyDelete(engine.delete(db, oldDn));
        if d == Fatal {
          return Fatal;
        }
        if d == Applied {
          db := db - {oldDn};
        }
        var entry := DeserializeEntry(c.entryData);
        if entry.Corrupted? {
          db := before;
          return Fatal;
        }
        r := ClassifyPut(engine.put(db, entry.value));
        if r == Applied {
          db := db[entry.value.dn := entry.value.attributes];
        } else {
          db := before;
        }
      }
    }
  }

  /** A node's state machine and its apply loop. */
  class Applier {
    const w: Wiring
    const main: Database
    const log: Database
    var lastApplied: nat
    ghost const first: Databases
    ghost var done: seq<LogEntry>

    ghost function Dbs(): Databases
      reads main, log
    {
      Databases(main.db, log.db)
    }

    /** lastApplied counts the entries folded into the databases since the start, none of them fatal. */
    ghost predicate Valid()
      reads this, main, log
    {
      && main != log && main.engine == w.main && log.engine == w.log
      && lastApplied == |done| && Clean(w, first, done) && Dbs() == After(w, first, done)
    }

    /** ClusterBackend.Start: the main database is cleared, the log database kept, lastApplied reset. */
    constructor (wiring: Wiring, logDb: Db)
      ensures Valid() && fresh(main) && fresh(log)
      ensures w == wiring && first == Databases(map[], logDb) && done == []
    {
      w, lastApplied, done, first := wiring, 0, [], Databases(map[], logDb);
      main := new Database(wiring.main);
      log := new Database(wiring.log);
      new;
      log.db := logDb;
    }

    /** Apply. */
    method Apply(c: Command) returns (r: Result)
      requires main != log && main.engine == w.main && log.engine == w.log
      modifies main`db, log`db
      ensures (Dbs(), r) == StateMachine.Apply(w, old(Dbs()), c)
    {
      hide ApplyTo;
      if c.kind <= CMD_MODIFY_DN {
        if c.database == DB_LOG {
          if !w.hasLog {
            return Applied;
          }
          r := log.ApplyCommand(w, true, c);
        } else {
          r := main.ApplyCommand(w, false, c);
        }
      } else if c.kind <= CMD_ACL_SET_DEFAULT {
        r := if w.side(c) then Applied else Fatal;
      } else {
        r := Fatal;
      }
    }

    method ApplyOne(e: LogEntry) returns (r: Result)
      requires main != log && main.engine == w.main && log.engine == w.log
      modifies main`db, log`db
      ensures (Dbs(), r) == ApplyEntry(w, old(Dbs()), e)
    {
      hide StateMachine.Apply, ParseCommand;
      if e.kind != ENTRY_COMMAND {
        return Applied;
      }
      var c := DeserializeCommand(e.command);
      if c.Corrupted? {
        return Fatal;
      }
      r := Apply(c.value);
    }

    /** One round of applyLoop. It stops early only at the end of the log or in front of an entry
        that is fatal there. */
    method Round(entries: Log, commitIndex: nat)
      requires Valid() && done <= entries[1..]
      modifies this`lastApplied, this`done, main`db, log`db
      ensures Valid() && old(lastApplied) <= lastApplied && done <= entries[1..]
      ensures lastApplied >= commitIndex || lastApplied == LastIndex(entries)
              || ApplyEntry(w, Dbs(), entries[lastApplied + 1]).1 == Fatal
      ensures lastApplied <= commitIndex || lastApplied == old(lastApplied)
    {
      hide ApplyEntry;
      while lastApplied < commitIndex
        invariant Valid() && old(lastApplied) <= lastApplied && done <= entries[1..]
        invariant lastApplied <= commitIndex || lastApplied == old(lastApplied)
        decreases commitIndex - lastApplied
      {
        if lastApplied + 1 > LastIndex(entries) {
          return;
        }
        var next := entries[lastApplied + 1];
        ghost var before := Dbs();
        var r := ApplyOne(next);
        assert entries[1..][lastApplied] == next;
        assert done == entries[1..][..lastApplied];
        AfterSnoc(w, first, entries[1..], lastApplied);
        if r == Fatal {
          FatalChangesNothing(w, before, next);
          return;
        }
        lastApplied := lastApplied + 1;
        done := entries[1..][..lastApplied];
      }
    }
  }
}
