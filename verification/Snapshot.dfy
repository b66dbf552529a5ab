/** Snapshots of the state machine (internal/raft/statemachine.go): every database as a list of
    serialized entries, then the configuration and ACL blobs, each behind a length. */
module Snapshot {
  import opened Bytes
  import opened ByteReader
  import opened EntryCodec
  import opened StateMachine
  import opened Machine

  /** An entry and the order in which its attributes are written. */
  datatype Item = Item(entry: Entry, order: seq<Name>)

  /** One order in which a database may be listed. */
  ghost predicate Lists(items: seq<Item>, db: Db) {
    && (forall j, k :: 0 <= j < k < |items| ==> items[j].entry.dn != items[k].entry.dn)
    && (forall k :: 0 <= k < |items| ==>
          && Enumerates(items[k].order, items[k].entry.attributes)
          && items[k].entry.dn in db && db[items[k].entry.dn] == items[k].entry.attributes)
    && (forall dn :: dn in db ==> exists k :: 0 <= k < |items| && items[k].entry.dn == dn)
  }

  ghost predicate Writable(items: seq<Item>) {
    forall k :: 0 <= k < |items| ==> Enumerates(items[k].order, items[k].entry.attributes)
  }

  ghost predicate ItemFits(i: Item)
    requires Enumerates(i.order, i.entry.attributes)
  {
    DataFits(i.entry) && |DataBytes(i.entry, i.order)| < UINT32
  }

  ghost predicate ItemsFit(items: seq<Item>)
    requires Writable(items)
  {
    |items| < UINT32 && forall k :: 0 <= k < |items| ==> ItemFits(items[k])
  }

  ghost function ItemsBytes(items: seq<Item>): seq<Byte>
    requires Writable(items)
  {
    if items == [] then [] else Blob(4, DataBytes(items[0].entry, items[0].order)) + ItemsBytes(items[1..])
  }

  /** snapshotEngine. */
  ghost function EngineBytes(items: seq<Item>): seq<Byte>
    requires Writable(items)
  {
    LittleEndian(4, |items|) + ItemsBytes(items)
  }

  // --------------------------------------------------------------- one database back

  /** The database reached, and whether the restore ran to its end. */
  datatype Restored = Restored(db: Db, ok: bool)

  /** The loop of restoreEngine over the entries. */
  function RestoreItems(engine: Engine, db: Db, count: nat, s: seq<Byte>): Restored
    decreases count
  {
    if count == 0 then Restored(db, true)
    else
      var b := ReadBlob(4, s);
      if b.Corrupted? then Restored(db, false)
      else
        var e := ParseData(b.value);
        if e.Corrupted? || engine.put(db, e.value) != Done then Restored(db, false)
        else RestoreItems(engine, db[e.value.dn := e.value.attributes], count - 1, b.rest)
  }

  /** What is there is deleted first, from the last DN listed; a delete that fails is passed over. */
  function Cleared(engine: Engine, db: Db, dns: seq<Name>): Db {
    if dns == [] then db
    else
      var dn := dns[|dns| - 1];
      Cleared(engine, if engine.delete(db, dn) == Done then db - {dn} else db, dns[..|dns| - 1])
  }

  function RestoreEngine(engine: Engine, db: Db, dns: seq<Name>, s: seq<Byte>): Restored {
    var count := Field(4, s);
    if count.Corrupted? then Restored(db, false)
    else RestoreItems(engine, Cleared(engine, db, dns), count.value, count.rest)
  }

  /** The engine accepts the entries one after the other. */
  predicate Accepts(engine: Engine, db: Db, items: seq<Item>)
    decreases |items|
  {
    items == [] ||
    (engine.put(db, items[0].entry) == Done &&
     Accepts(engine, db[items[0].entry.dn := items[0].entry.attributes], items[1..]))
  }

  /** db with the entries put in, one after the other. */
  ghost function Loaded(db: Db, items: seq<Item>): Db
    decreases |items|
  {
    if items == [] then db else Loaded(db[items[0].entry.dn := items[0].entry.attributes], items[1..])
  }

  lemma {:induction false} ItemsBack(engine: Engine, db: Db, items: seq<Item>)
    requires Writable(items) && ItemsFit(items)
    ensures var r := RestoreItems(engine, db, |items|, ItemsBytes(items));
            r.ok == Accepts(engine, db, items) && (r.ok ==> r.db == Loaded(db, items))
    decreases |items|
  {
    hide Blob, ReadBlob, DataBytes, ParseData, DataFits, Enumerates;
    if items != [] {
      var first := items[0];
      Widths();
      assert ItemFits(first);
      BlobBack(4, DataBytes(first.entry, first.order), ItemsBytes(items[1..]));
      DataRoundTrip(first.entry, first.order);
      ItemsBack(engine, db[first.entry.dn := first.entry.attributes], items[1..]);
    }
  }

  lemma {:induction false} LoadedContents(db: Db, items: seq<Item>, from: Db)
    requires forall k :: 0 <= k < |items| ==>
               items[k].entry.dn in from && from[items[k].entry.dn] == items[k].entry.attributes
    ensures forall dn :: dn in Loaded(db, items) <==>
              dn in db || exists k :: 0 <= k < |items| && items[k].entry.dn == dn
    ensures forall k :: 0 <= k < |items| ==>
              items[k].entry.dn in Loaded(db, items) && Loaded(db, items)[items[k].entry.dn] == from[items[k].entry.dn]
    ensures forall dn :: dn in db && (dn in from ==> db[dn] == from[dn]) ==>
              dn in Loaded(db, items) && (dn in from ==> Loaded(db, items)[dn] == from[dn])
    decreases |items|
  {
    if items != [] {
      var first := items[0].entry;
      LoadedContents(db[first.dn := first.attributes], items[1..], from);
      assert forall k :: 1 <= k < |items| ==> items[k] == items[1..][k - 1];
    }
  }

  /** Loading the list of a database puts all of it over what was there. */
  lemma LoadedOver(left: Db, items: seq<Item>, db: Db)
    requires Lists(items, db)
    ensures Loaded(left, items) == left + db
  {
    hide Enumerates;
    LoadedContents(left, items, db);
    LoadedElsewhere(left, items);
    assert Loaded(left, items).Keys == (left + db).Keys;
    forall dn | dn in Loaded(left, items)
      ensures Loaded(left, items)[dn] == (left + db)[dn]
    {
      if dn in db {
        var k :| 0 <= k < |items| && items[k].entry.dn == dn;
      }
    }
  }

  lemma {:induction false} LoadedElsewhere(db: Db, items: seq<Item>)
    ensures forall dn :: dn in db && (forall k :: 0 <= k < |items| ==> items[k].entry.dn != dn) ==>
              dn in Loaded(db, items) && Loaded(db, items)[dn] == db[dn]
    decreases |items|
  {
    if items != [] {
      LoadedElsewhere(db[items[0].entry.dn := items[0].entry.attributes], items[1..]);
      assert forall k :: 0 <= k < |items| - 1 ==> items[1..][k] == items[k + 1];
    }
  }

  /** Laid over what is left, a source comes out as itself exactly when it covers all that is left. */
  lemma OverIsSource(left: Db, source: Db)
    ensures left + source == source <==> left.Keys <= source.Keys
  {
    assert (left + source).Keys == left.Keys + source.Keys;
    if left.Keys <= source.Keys {
      assert (left + source).Keys == source.Keys;
    }
  }

  /** A database restored from a snapshot, in any listing and whatever it held. The restore runs to its end
      exactly when the engine accepts the entries over what its deletes left, and then the source lies over
      what was left: the result is the source exactly when nothing is left that the source does not have. */
  lemma EngineRoundTrip(engine: Engine, source: Db, items: seq<Item>, target: Db, dns: seq<Name>)
    requires Lists(items, source) && Writable(items) && ItemsFit(items)
    ensures var r := RestoreEngine(engine, target, dns, EngineBytes(items));
            var left := Cleared(engine, target, dns);
            && r.ok == Accepts(engine, left, items)
            && (r.ok ==> r.db == left + source && (r.db == source <==> left.Keys <= source.Keys))
  {
    hide Lists, ItemsBytes, RestoreItems, Cleared, Field, LittleEndian, Accepts;
    Widths();
    var left := Cleared(engine, target, dns);
    FieldBack(4, |items|, ItemsBytes(items));
    ItemsBack(engine, left, items);
    LoadedOver(left, items, source);
    OverIsSource(left, source);
  }

  /** The deletes of a restore, one after the other from the last DN listed: each takes its DN out if the
      engine answers Done, and leaves the database alone otherwise. */
  ghost predicate Deletes(engine: Engine, dns: seq<Name>, steps: seq<Db>) {
    && |steps| == |dns| + 1
    && forall k :: 0 <= k < |dns| ==>
         steps[k + 1] == if engine.delete(steps[k], Turn(dns, k)) == Done then steps[k] - {Turn(dns, k)} else steps[k]
  }

  /** The DN whose turn it is after k deletes. */
  function Turn(dns: seq<Name>, k: nat): Name
    requires k < |dns|
  {
    dns[|dns| - 1 - k]
  }

  lemma {:induction false} ClearedSteps(engine: Engine, target: Db, dns: seq<Name>) returns (steps: seq<Db>)
    ensures Deletes(engine, dns, steps) && steps[0] == target && steps[|dns|] == Cleared(engine, target, dns)
    decreases |dns|
  {
    if dns == [] {
      steps := [target];
    } else {
      var n := |dns| - 1;
      var next := if engine.delete(target, dns[n]) == Done then target - {dns[n]} else target;
      var more := ClearedSteps(engine, next, dns[..n]);
      steps := [target] + more;
      forall k | 0 <= k < |dns|
        ensures steps[k + 1] ==
                if engine.delete(steps[k], Turn(dns, k)) == Done then steps[k] - {Turn(dns, k)} else steps[k]
      {
        if k > 0 {
          assert Turn(dns, k) == Turn(dns[..n], k - 1);
          assert steps[k] == more[k - 1] && steps[k + 1] == more[k];
        }
      }
    }
  }

  /** The delete of dn is refused whenever its turn comes. */
  ghost predicate Refused(engine: Engine, dns: seq<Name>, steps: seq<Db>, dn: Name)
    requires |steps| == |dns| + 1
  {
    forall k :: 0 <= k < |dns| && Turn(dns, k) == dn ==> engine.delete(steps[k], dn) != Done
  }

  /** After k deletes nothing is added or changed, and what is gone was deleted in its turn. */
  lemma {:induction false} DeletedSoFar(engine: Engine, dns: seq<Name>, steps: seq<Db>, k: nat, dn: Name)
    requires Deletes(engine, dns, steps) && k <= |dns|
    ensures dn in steps[k] ==> dn in steps[0] && steps[k][dn] == steps[0][dn]
    ensures dn in steps[k] <==>
            dn in steps[0] && forall j :: 0 <= j < k && Turn(dns, j) == dn ==> engine.delete(steps[j], dn) != Done
    decreases k
  {
    if k > 0 { DeletedSoFar(engine, dns, steps, k - 1, dn); }
  }

  /** What is left when an engine has been cleared: exactly the entries whose delete was refused every time
      its turn came, as they were. So a DN that is not listed is never touched, and nothing is left if all is
      listed and the engine deletes what is there. */
  lemma LeftExactly(engine: Engine, target: Db, dns: seq<Name>) returns (steps: seq<Db>)
    ensures Deletes(engine, dns, steps) && steps[0] == target
    ensures var left := RestoreEngine(engine, target, dns, EngineBytes([])).db;
            && (forall dn :: dn in left <==> dn in target && Refused(engine, dns, steps, dn))
            && (forall dn :: dn in left ==> left[dn] == target[dn])
            && (forall dn :: dn in target && dn !in dns ==> dn in left)
            && (target.Keys <= (set dn | dn in dns) && DeletesPresent(engine) ==> left == map[])
  {
    hide Cleared, Deletes;
    steps := ClearedSteps(engine, target, dns);
    EmptySnapshot(engine, target, dns);
    var left := steps[|dns|];
    forall dn
      ensures dn in left <==> dn in target && Refused(engine, dns, steps, dn)
      ensures dn in left ==> left[dn] == target[dn]
    {
      StepsLength(engine, dns, steps);
      DeletedSoFar(engine, dns, steps, |dns|, dn);
    }
    StepsLength(engine, dns, steps);
    if target.Keys <= (set dn | dn in dns) && DeletesPresent(engine) {
      forall dn ensures dn !in left { ListedIsGone(engine, dns, steps, dn); }
    }
  }

  /** The engine deletes whatever is there. */
  ghost predicate DeletesPresent(engine: Engine) {
    forall db: Db, dn :: dn in db ==> engine.delete(db, dn) == Done
  }

  lemma StepsLength(engine: Engine, dns: seq<Name>, steps: seq<Db>)
    requires Deletes(engine, dns, steps)
    ensures |steps| == |dns| + 1
  {
  }

  lemma ListedIsGone(engine: Engine, dns: seq<Name>, steps: seq<Db>, dn: Name)
    requires Deletes(engine, dns, steps) && DeletesPresent(engine) && (dn in steps[0] ==> dn in dns)
    ensures dn !in steps[|dns|]
  {
    hide Deletes;
    StepsLength(engine, dns, steps);
    DeletedSoFar(engine, dns, steps, |dns|, dn);
    if dn in steps[|dns|] {
      var i :| 0 <= i < |dns| && dns[i] == dn;
      var k := |dns| - 1 - i;
      assert Turn(dns, k) == dn;
      DeletedSoFar(engine, dns, steps, k, dn);
    }
  }

  lemma EmptySnapshot(engine: Engine, target: Db, dns: seq<Name>)
    ensures Writable([])
    ensures RestoreEngine(engine, target, dns, EngineBytes([])) == Restored(Cleared(engine, target, dns), true)
  {
    hide LittleEndian, Field, Cleared;
    Widths();
    NoItems();
    assert EngineBytes([]) == LittleEndian(4, 0) + [];
    FieldBack(4, 0, []);
  }

  /** The snapshot round trip of one database: an engine that deletes what is there, lists all of it and
      accepts the entries has exactly the source afterwards, whatever it held. */
  lemma RestoreIsSource(engine: Engine, source: Db, items: seq<Item>, target: Db, dns: seq<Name>)
    requires Lists(items, source) && Writable(items) && ItemsFit(items)
    requires DeletesPresent(engine) && target.Keys <= (set dn | dn in dns) && Accepts(engine, map[], items)
    ensures RestoreEngine(engine, target, dns, EngineBytes(items)) == Restored(source, true)
  {
    hide Lists, ItemsFit, Accepts, Cleared, RestoreEngine, Deletes;
    var steps := LeftExactly(engine, target, dns);
    EmptySnapshot(engine, target, dns);
    EngineRoundTrip(engine, source, items, target, dns);
    assert map[] + source == source;
  }

  /** An engine that refuses every delete, as for an entry with children. */
  const STUBBORN := Engine((db, e) => Done, (db, dn) => OtherError)

  /** A failed delete is passed over: what it left stays beside the restored entries. */
  lemma ResidueStays(dn: Name)
    ensures var target: Db := map[dn := map[]];
            RestoreEngine(STUBBORN, target, [dn], EngineBytes([])) == Restored(target, true)
  {
    var target: Db := map[dn := map[]];
    NoItems();
    assert Lists([], map[]) && ItemsFit([]);
    EngineRoundTrip(STUBBORN, map[], [], target, [dn]);
    assert [dn][..0] == [];
    assert Cleared(STUBBORN, target, [dn]) == target;
    assert target + map[] == target;
  }

  // --------------------------------------------------------------- the whole machine

  /** Databases, and the blobs the configuration and ACL managers hand out and take back. */
  datatype Whole = Whole(main: Db, log: Db, config: seq<Byte>, acl: seq<Byte>)

  datatype Wired = Wired(main: Engine, log: Engine, hasLog: bool, hasConfig: bool, hasAcl: bool)

  /** Snapshot, given how the two databases are listed. */
  ghost function SnapshotBytes(w: Wired, s: Whole, main: seq<Item>, log: seq<Item>): seq<Byte>
    requires Writable(main) && Writable(log)
  {
    [2] + Blob(4, EngineBytes(main))
    + Blob(4, if w.hasLog then EngineBytes(log) else [])
    + Blob(4, if w.hasConfig then s.config else [])
    + Blob(4, if w.hasAcl then s.acl else [])
  }

  /** One section: its length, and its bytes if there are any and the machine has a place for them.
      Bytes without a place are not skipped. A length that cannot be read ends the restore well. */
  datatype Section = Missing | Bad | Skipped(rest: seq<Byte>) | Present(data: seq<Byte>, rest: seq<Byte>)

  function ReadSection(s: seq<Byte>, wanted: bool): Section {
    var length := Field(4, s);
    if length.Corrupted? then Missing
    else if length.value == 0 || !wanted then Skipped(length.rest)
    else
      var data := Take(length.value, length.rest);
      if data.Corrupted? then Bad else Present(data.value, data.rest)
  }

  function RestoreAcl(w: Wired, s: Whole, data: seq<Byte>): (Whole, bool) {
    match ReadSection(data, w.hasAcl)
    case Missing => (s, true)
    case Bad => (s, false)
    case Skipped(_) => (s, true)
    case Present(acl, _) => (s.(acl := acl), true)
  }

  function RestoreConfig(w: Wired, s: Whole, data: seq<Byte>): (Whole, bool) {
    match ReadSection(data, w.hasConfig)
    case Missing => (s, true)
    case Bad => (s, false)
    case Skipped(rest) => RestoreAcl(w, s, rest)
    case Present(config, rest) => RestoreAcl(w, s.(config := config), rest)
  }

  function RestoreLog(w: Wired, s: Whole, dns: seq<Name>, version: Byte, data: seq<Byte>): (Whole, bool) {
    match ReadSection(data, w.hasLog)
    case Missing => (s, true)
    case Bad => (s, false)
    case Skipped(rest) => if version >= 2 then RestoreConfig(w, s, rest) else (s, true)
    case Present(log, rest) =>
      var r := RestoreEngine(w.log, s.log, dns, log);
      if !r.ok then (s.(log := r.db), false)
      else if version >= 2 then RestoreConfig(w, s.(log := r.db), rest)
      else (s.(log := r.db), true)
  }

  /** Restore; the DNs listed are those the two engines held before. */
  function Restore(w: Wired, s: Whole, mainDns: seq<Name>, logDns: seq<Name>, data: seq<Byte>): (Whole, bool) {
    if data == [] then (s, true)
    else
      match ReadSection(data[1..], true)
      case Missing => (s, false)
      case Bad => (s, false)
      case Skipped(rest) => RestoreLog(w, s, logDns, data[0], rest)
      case Present(main, rest) =>
        var r := RestoreEngine(w.main, s.main, mainDns, main);
        if !r.ok then (s.(main := r.db), false) else RestoreLog(w, s.(main := r.db), logDns, data[0], rest)
  }

  /** A section that was written is read back; an empty one is passed over. */
  lemma SectionBack(x: seq<Byte>, wanted: bool, rest: seq<Byte>)
    requires |x| < UINT32 && (wanted || x == [])
    ensures ReadSection(Blob(4, x) + rest, wanted) == if x == [] then Skipped(rest) else Present(x, rest)
  {
    hide Field, LittleEndian;
    Widths();
    assert Blob(4, x) + rest == LittleEndian(4, |x|) + (x + rest);
    FieldBack(4, |x|, x + rest);
    assert (x + rest)[..|x|] == x && (x + rest)[|x|..] == rest;
    assert x == [] ==> x + rest == rest;
  }

  lemma EngineBytesSome(items: seq<Item>)
    requires Writable(items)
    ensures EngineBytes(items) != []
  {
    assert |LittleEndian(4, |items|)| == 4;
  }

  ghost predicate SnapshotFits(w: Wired, s: Whole, main: seq<Item>, log: seq<Item>)
    requires Writable(main) && Writable(log)
  {
    && ItemsFit(main) && |EngineBytes(main)| < UINT32
    && (w.hasLog ==> ItemsFit(log) && |EngineBytes(log)| < UINT32)
    && |Sent(w.hasConfig, s.config)| < UINT32 && |Sent(w.hasAcl, s.acl)| < UINT32
  }

  /** What a section holds when its part is wired at the source. */
  function Sent(wired: bool, x: seq<Byte>): seq<Byte> { if wired then x else [] }

  /** What the target has afterwards: an empty section leaves what was there. */
  function Taken(sent: bool, taken: bool, x: seq<Byte>, had: seq<Byte>): seq<Byte> {
    if sent && taken && x != [] then x else had
  }

  /** A section that is not taken is not skipped either; the ones after it are lost. */
  lemma SectionUntaken(x: seq<Byte>, rest: seq<Byte>)
    requires |x| < UINT32
    ensures ReadSection(Blob(4, x) + rest, false) == Skipped(x + rest)
  {
    hide Field, LittleEndian;
    Widths();
    assert Blob(4, x) + rest == LittleEndian(4, |x|) + (x + rest);
    FieldBack(4, |x|, x + rest);
  }

  lemma AclBack(ws: Wired, wt: Wired, s: Whole, source: Whole)
    requires |Sent(ws.hasAcl, source.acl)| < UINT32
    ensures RestoreAcl(wt, s, Blob(4, Sent(ws.hasAcl, source.acl))) ==
            (s.(acl := Taken(ws.hasAcl, wt.hasAcl, source.acl, s.acl)), true)
  {
    hide ReadSection, Blob;
    var x := Sent(ws.hasAcl, source.acl);
    assert Blob(4, x) + [] == Blob(4, x);
    if wt.hasAcl || x == [] { SectionBack(x, wt.hasAcl, []); } else { SectionUntaken(x, []); }
  }

  lemma NoAclTaker(w: Wired, s: Whole, data: seq<Byte>)
    requires !w.hasAcl
    ensures RestoreAcl(w, s, data) == (s, true)
  {
  }

  lemma NoTakers(w: Wired, s: Whole, data: seq<Byte>)
    requires !w.hasConfig && !w.hasAcl
    ensures RestoreConfig(w, s, data) == (s, true)
  {
  }

  /** The configuration has a taker, or is empty, or no taker follows it. */
  predicate ConfigAligned(ws: Wired, wt: Wired, source: Whole) {
    ws.hasConfig && source.config != [] && !wt.hasConfig ==> !wt.hasAcl
  }

  /** No section without a taker stands before one that has a taker. */
  predicate Aligned(ws: Wired, wt: Wired, source: Whole) {
    (ws.hasLog && !wt.hasLog ==> !wt.hasConfig && !wt.hasAcl) && ConfigAligned(ws, wt, source)
  }

  ghost function Tail(ws: Wired, source: Whole): seq<Byte> {
    Blob(4, Sent(ws.hasConfig, source.config)) + Blob(4, Sent(ws.hasAcl, source.acl))
  }

  lemma ConfigBack(ws: Wired, wt: Wired, s: Whole, source: Whole)
    requires |Sent(ws.hasConfig, source.config)| < UINT32 && |Sent(ws.hasAcl, source.acl)| < UINT32
    requires ConfigAligned(ws, wt, source)
    ensures RestoreConfig(wt, s, Tail(ws, source)) ==
            (s.(config := Taken(ws.hasConfig, wt.hasConfig, source.config, s.config),
                acl := Taken(ws.hasAcl, wt.hasAcl, source.acl, s.acl)), true)
  {
    hide ReadSection, Blob, RestoreAcl;
    var x := Sent(ws.hasConfig, source.config);
    var rest := Blob(4, Sent(ws.hasAcl, source.acl));
    AclBack(ws, wt, s, source);
    AclBack(ws, wt, s.(config := x), source);
    if wt.hasConfig || x == [] {
      SectionBack(x, wt.hasConfig, rest);
    } else {
      SectionUntaken(x, rest);
      NoAclTaker(wt, s, x + rest);
    }
  }

  /** What the two wirings let through of the source, over what is left of the target. */
  function Carried(ws: Wired, wt: Wired, source: Whole, target: Whole, mainDns: seq<Name>, logDns: seq<Name>): Whole {
    Whole(Cleared(wt.main, target.main, mainDns) + source.main,
          if ws.hasLog && wt.hasLog then Cleared(wt.log, target.log, logDns) + source.log else target.log,
          Taken(ws.hasConfig, wt.hasConfig, source.config, target.config),
          Taken(ws.hasAcl, wt.hasAcl, source.acl, target.acl))
  }

  lemma LogBack(ws: Wired, wt: Wired, s: Whole, source: Whole, log: seq<Item>, dns: seq<Name>)
    requires Lists(log, source.log) && Writable(log)
    requires ws.hasLog ==> ItemsFit(log) && |EngineBytes(log)| < UINT32
    requires |Sent(ws.hasConfig, source.config)| < UINT32 && |Sent(ws.hasAcl, source.acl)| < UINT32
    requires Aligned(ws, wt, source)
    ensures var r := RestoreLog(wt, s, dns, 2, Blob(4, if ws.hasLog then EngineBytes(log) else []) + Tail(ws, source));
            && r.1 == (ws.hasLog && wt.hasLog ==> Accepts(wt.log, Cleared(wt.log, s.log, dns), log))
            && (r.1 ==> r.0 == Carried(ws, wt, source, s, [], dns).(main := s.main))
  {
    hide ReadSection, Blob, RestoreConfig, RestoreEngine, EngineBytes, Lists, Cleared, Accepts, ItemsFit, Tail;
    var x := if ws.hasLog then EngineBytes(log) else [];
    EngineBytesSome(log);
    ConfigBack(ws, wt, s, source);
    if ws.hasLog && !wt.hasLog {
      SectionUntaken(x, Tail(ws, source));
      NoTakers(wt, s, x + Tail(ws, source));
    } else {
      SectionBack(x, wt.hasLog, Tail(ws, source));
      if ws.hasLog {
        EngineRoundTrip(wt.log, source.log, log, s.log, dns);
        ConfigBack(ws, wt, s.(log := Cleared(wt.log, s.log, dns) + source.log), source);
      }
    }
  }

  /** Restoring a snapshot on another machine, whatever it held, however the databases were listed and
      however the two are wired, as long as no section without a taker stands before one with a taker. The
      restore runs to its end exactly when the engines accept the entries over what their deletes left,
      and then the machine has what was carried over. */
  lemma SnapshotRoundTrip(ws: Wired, wt: Wired, source: Whole, main: seq<Item>, log: seq<Item>,
                          target: Whole, mainDns: seq<Name>, logDns: seq<Name>)
    requires Lists(main, source.main) && Lists(log, source.log) && Writable(main) && Writable(log)
    requires SnapshotFits(ws, source, main, log) && Aligned(ws, wt, source)
    ensures var r := Restore(wt, target, mainDns, logDns, SnapshotBytes(ws, source, main, log));
            && r.1 == (Accepts(wt.main, Cleared(wt.main, target.main, mainDns), main) &&
                       (ws.hasLog && wt.hasLog ==> Accepts(wt.log, Cleared(wt.log, target.log, logDns), log)))
            && (r.1 ==> r.0 == Carried(ws, wt, source, target, mainDns, logDns))
  {
    hide ReadSection, Blob, RestoreLog, RestoreEngine, EngineBytes, Lists, Cleared, Accepts, ItemsFit;
    var data := SnapshotBytes(ws, source, main, log);
    var afterMain := Blob(4, if ws.hasLog then EngineBytes(log) else []) + Tail(ws, source);
    assert data[1..] == Blob(4, EngineBytes(main)) + afterMain;
    SectionBack(EngineBytes(main), true, afterMain);
    EngineBytesSome(main);
    EngineRoundTrip(wt.main, source.main, main, target.main, mainDns);
    LogBack(ws, wt, target.(main := Cleared(wt.main, target.main, mainDns) + source.main), source, log, logDns);
  }

  /** Between machines with everything wired, what was carried over is the source exactly when the deletes
      left nothing that the source does not have, and no empty blob met one that is not. */
  lemma CarriedIsSource(ws: Wired, wt: Wired, source: Whole, target: Whole, mainDns: seq<Name>, logDns: seq<Name>)
    requires ws.hasLog && ws.hasConfig && ws.hasAcl && wt.hasLog && wt.hasConfig && wt.hasAcl
    ensures Aligned(ws, wt, source)
    ensures Carried(ws, wt, source, target, mainDns, logDns) == source <==>
            && Cleared(wt.main, target.main, mainDns).Keys <= source.main.Keys
            && Cleared(wt.log, target.log, logDns).Keys <= source.log.Keys
            && (source.config == [] ==> target.config == []) && (source.acl == [] ==> target.acl == [])
  {
    hide Cleared;
    OverIsSource(Cleared(wt.main, target.main, mainDns), source.main);
    OverIsSource(Cleared(wt.log, target.log, logDns), source.log);
  }

  /** The snapshot round trip of a whole machine, whatever the target held: with everything wired, engines
      that delete what is there and accept the entries, and no empty blob over one that is not, the target
      has exactly the source afterwards. */
  lemma MachineIsSource(ws: Wired, wt: Wired, source: Whole, main: seq<Item>, log: seq<Item>,
                        target: Whole, mainDns: seq<Name>, logDns: seq<Name>)
    requires ws.hasLog && ws.hasConfig && ws.hasAcl && wt.hasLog && wt.hasConfig && wt.hasAcl
    requires Lists(main, source.main) && Lists(log, source.log) && Writable(main) && Writable(log)
    requires SnapshotFits(ws, source, main, log)
    requires DeletesPresent(wt.main) && target.main.Keys <= (set dn | dn in mainDns) && Accepts(wt.main, map[], main)
    requires DeletesPresent(wt.log) && target.log.Keys <= (set dn | dn in logDns) && Accepts(wt.log, map[], log)
    requires (source.config == [] ==> target.config == []) && (source.acl == [] ==> target.acl == [])
    ensures Restore(wt, target, mainDns, logDns, SnapshotBytes(ws, source, main, log)) == (source, true)
  {
    hide Lists, SnapshotFits, Accepts, Cleared, Restore, SnapshotBytes, Aligned, Carried, DeletesPresent;
    NothingLeft(wt.main, target.main, mainDns);
    NothingLeft(wt.log, target.log, logDns);
    CarriedIsSource(ws, wt, source, target, mainDns, logDns);
    SnapshotRoundTrip(ws, wt, source, main, log, target, mainDns, logDns);
  }

  lemma NothingLeft(engine: Engine, target: Db, dns: seq<Name>)
    requires DeletesPresent(engine) && target.Keys <= (set dn | dn in dns)
    ensures Cleared(engine, target, dns) == map[]
  {
    hide Cleared, RestoreEngine, Deletes, DeletesPresent;
    var steps := LeftExactly(engine, target, dns);
    EmptySnapshot(engine, target, dns);
  }

  // ------------------------------------------------------------------- older snapshots

  /** A snapshot that ends after the main database restores that one and leaves the rest. */
  lemma MainOnly(w: Wired, source: Db, main: seq<Item>, target: Whole, mainDns: seq<Name>, logDns: seq<Name>, version: Byte)
    requires Lists(main, source) && Writable(main) && ItemsFit(main) && |EngineBytes(main)| < UINT32
    ensures var r := Restore(w, target, mainDns, logDns, [version] + Blob(4, EngineBytes(main)));
            var left := Cleared(w.main, target.main, mainDns);
            r.1 == Accepts(w.main, left, main) && (r.1 ==> r.0 == target.(main := left + source))
  {
    hide Blob, RestoreEngine, EngineBytes, Lists, Cleared, Accepts, ItemsFit, ReadSection;
    var data := [version] + Blob(4, EngineBytes(main));
    assert data[1..] == Blob(4, EngineBytes(main)) + [];
    SectionBack(EngineBytes(main), true, []);
    EngineBytesSome(main);
    EngineRoundTrip(w.main, source, main, target.main, mainDns);
    NoSection(w.hasLog);
  }

  lemma NoSection(wanted: bool)
    ensures ReadSection([], wanted) == Missing
  {
  }

  /** Before version 2 a snapshot has two databases, and whatever follows them is not looked at. */
  lemma FirstVersion(w: Wired, main: Db, mainItems: seq<Item>, log: Db, logItems: seq<Item>, rest: seq<Byte>,
                     target: Whole, mainDns: seq<Name>, logDns: seq<Name>, version: Byte)
    requires version < 2 && w.hasLog
    requires Lists(mainItems, main) && Writable(mainItems) && ItemsFit(mainItems) && |EngineBytes(mainItems)| < UINT32
    requires Lists(logItems, log) && Writable(logItems) && ItemsFit(logItems) && |EngineBytes(logItems)| < UINT32
    ensures var data := [version] + (Blob(4, EngineBytes(mainItems)) + (Blob(4, EngineBytes(logItems)) + rest));
            var r := Restore(w, target, mainDns, logDns, data);
            var leftMain, leftLog := Cleared(w.main, target.main, mainDns), Cleared(w.log, target.log, logDns);
            && r.1 == (Accepts(w.main, leftMain, mainItems) && Accepts(w.log, leftLog, logItems))
            && (r.1 ==> r.0 == target.(main := leftMain + main, log := leftLog + log))
  {
    hide Blob, RestoreEngine, EngineBytes, Lists, Cleared, Accepts, ItemsFit, ReadSection;
    var afterMain := Blob(4, EngineBytes(logItems)) + rest;
    var data := [version] + (Blob(4, EngineBytes(mainItems)) + afterMain);
    assert data[1..] == Blob(4, EngineBytes(mainItems)) + afterMain;
    SectionBack(EngineBytes(mainItems), true, afterMain);
    SectionBack(EngineBytes(logItems), true, rest);
    EngineBytesSome(mainItems);
    EngineBytesSome(logItems);
    EngineRoundTrip(w.main, main, mainItems, target.main, mainDns);
    EngineRoundTrip(w.log, log, logItems, target.log, logDns);
  }

  // --------------------------------------------------------- wirings that do not align

  /** The two wirings align whatever the source holds. */
  predicate AlignedWirings(ws: Wired, wt: Wired) {
    (ws.hasLog && !wt.hasLog ==> !wt.hasConfig && !wt.hasAcl) && (ws.hasConfig && !wt.hasConfig ==> !wt.hasAcl)
  }

  lemma AlignedForAll(ws: Wired, wt: Wired)
    ensures AlignedWirings(ws, wt) <==> forall source :: Aligned(ws, wt, source)
  {
    if forall source :: Aligned(ws, wt, source) { assert Aligned(ws, wt, EMPTY.(config := [0])); }
  }

  const EMPTY := Whole(map[], map[], [], [])

  /** One entry with no name and no attributes. */
  const NAMELESS := Item(Entry([], map[]), [])

  /** A source that shows two wirings do not align: an entry in the log database, or a configuration. */
  ghost function Telltale(ws: Wired, wt: Wired): (Whole, seq<Item>) {
    if ws.hasLog && !wt.hasLog then (EMPTY.(log := map[[] := map[]]), [NAMELESS])
    else (EMPTY.(config := LittleEndian(4, 1) + [9]), [])
  }

  /** An empty main database is restored, and the rest is what follows it. */
  lemma MainEmpty(wt: Wired, rest: seq<Byte>)
    ensures Writable([])
    ensures Restore(wt, EMPTY, [], [], [2] + (Blob(4, EngineBytes([])) + rest)) == RestoreLog(wt, EMPTY, [], 2, rest)
  {
    hide ReadSection, Blob, RestoreLog, RestoreEngine, EngineBytes;
    NoItems();
    var data := [2] + (Blob(4, EngineBytes([])) + rest);
    assert data[1..] == Blob(4, EngineBytes([])) + rest;
    EmptyEngine(wt.main);
    SectionBack(EngineBytes([]), true, rest);
  }

  lemma EmptyEngine(engine: Engine)
    ensures Writable([]) && 0 < |EngineBytes([])| < UINT32
    ensures RestoreEngine(engine, map[], [], EngineBytes([])) == Restored(map[], true)
  {
    hide LittleEndian, Field;
    Widths();
    NoItems();
    assert EngineBytes([]) == LittleEndian(4, 0) + [];
    FieldBack(4, 0, []);
  }

  /** The log section with one nameless entry, field by field. */
  lemma NamelessBytes()
    ensures Writable([NAMELESS])
    ensures |DataBytes(NAMELESS.entry, NAMELESS.order)| == 4
    ensures EngineBytes([NAMELESS]) ==
            LittleEndian(4, 1) + (LittleEndian(4, 4) + DataBytes(NAMELESS.entry, NAMELESS.order))
    ensures |EngineBytes([NAMELESS])| == 12
  {
    hide LittleEndian;
    var d := DataBytes(NAMELESS.entry, NAMELESS.order);
    assert d == LittleEndian(2, 0) + [] + LittleEndian(2, 0) + [];
    assert [NAMELESS][1..] == [];
    assert ItemsBytes([NAMELESS]) == LittleEndian(4, 4) + d + [];
  }

  lemma NamelessLists()
    ensures Lists([NAMELESS], map[[] := map[]]) && Lists([], map[])
  {
    assert [NAMELESS][0].entry.dn == [];
  }

  lemma NamelessFits()
    ensures Writable([NAMELESS]) && ItemsFit([NAMELESS]) && Writable([]) && ItemsFit([])
  {
    hide DataBytes;
    NamelessBytes();
  }

  /** The entries of an untaken log section are read as the sections after it. */
  lemma LogMisread(wt: Wired, rest: seq<Byte>)
    requires !wt.hasLog && (wt.hasConfig || wt.hasAcl)
    ensures Writable([NAMELESS])
    ensures var r := RestoreLog(wt, EMPTY, [], 2, Blob(4, EngineBytes([NAMELESS])) + rest).0;
            r.config != [] || r.acl != []
  {
    hide LittleEndian, Field, EngineBytes;
    Widths();
    NamelessBytes();
    var d := DataBytes(NAMELESS.entry, NAMELESS.order);
    var s1 := EngineBytes([NAMELESS]) + rest;
    var s2 := LittleEndian(4, 4) + (d + rest);
    SectionUntaken(EngineBytes([NAMELESS]), rest);
    assert s1 == LittleEndian(4, 1) + s2;
    FieldBack(4, 1, s2);
    assert |s2| >= 1;
    if !wt.hasConfig {
      FieldBack(4, 4, d + rest);
      assert (d + rest)[..4] == d;
    }
  }

  /** So are the octets of an untaken configuration. */
  lemma ConfigMisread(wt: Wired, s: Whole, rest: seq<Byte>)
    requires !wt.hasConfig && wt.hasAcl
    ensures RestoreConfig(wt, s, Blob(4, LittleEndian(4, 1) + [9]) + rest).0.acl == [9]
  {
    hide LittleEndian, Field;
    Widths();
    var x: seq<Byte> := LittleEndian(4, 1) + [9];
    SectionUntaken(x, rest);
    assert x + rest == LittleEndian(4, 1) + ([9] + rest);
    FieldBack(4, 1, [9] + rest);
    assert ([9] + rest)[..1] == [9];
  }

  /** Where two wirings do not align there is a source whose restore is not what was carried over: so the
      restore gives what is carried over for every source exactly when the wirings align. */
  lemma MisalignedShows(ws: Wired, wt: Wired)
    requires exists source :: !Aligned(ws, wt, source)
    ensures var (source, log) := Telltale(ws, wt);
            && Writable([]) && Writable(log) && Lists([], source.main) && Lists(log, source.log)
            && SnapshotFits(ws, source, [], log)
            && Restore(wt, EMPTY, [], [], SnapshotBytes(ws, source, [], log)).0 != Carried(ws, wt, source, EMPTY, [], [])
  {
    hide RestoreLog, RestoreConfig, ReadSection, Blob, EngineBytes, LittleEndian, Restore, Lists, SnapshotFits, Aligned;
    AlignedForAll(ws, wt);
    NoItems();
    NamelessBytes();
    EmptyEngine(wt.log);
    TelltaleFits(ws, wt);
    var (source, log) := Telltale(ws, wt);
    var afterMain := Blob(4, if ws.hasLog then EngineBytes(log) else []) + Tail(ws, source);
    assert SnapshotBytes(ws, source, [], log) == [2] + (Blob(4, EngineBytes([])) + afterMain);
    MainEmpty(wt, afterMain);
    if ws.hasLog && !wt.hasLog {
      LogMisread(wt, Tail(ws, source));
    } else {
      PastLog(ws, wt, source);
      ConfigMisread(wt, EMPTY, Blob(4, Sent(ws.hasAcl, [])));
    }
  }

  lemma TelltaleFits(ws: Wired, wt: Wired)
    ensures var (source, log) := Telltale(ws, wt);
            && Writable([]) && Writable(log) && Lists([], source.main) && Lists(log, source.log)
            && SnapshotFits(ws, source, [], log)
  {
    hide LittleEndian, EngineBytes, Lists, ItemsFit, Writable;
    NamelessLists();
    NamelessFits();
    NamelessBytes();
    EmptyEngine(ws.log);
  }

  /** An empty log database, if there is one, is restored and the next section follows. */
  lemma PastLog(ws: Wired, wt: Wired, source: Whole)
    requires ws.hasLog ==> wt.hasLog
    ensures Writable([])
    ensures RestoreLog(wt, EMPTY, [], 2, Blob(4, if ws.hasLog then EngineBytes([]) else []) + Tail(ws, source)) ==
            RestoreConfig(wt, EMPTY, Tail(ws, source))
  {
    hide RestoreConfig, ReadSection, Blob, EngineBytes, RestoreEngine, Tail;
    EmptyEngine(wt.log);
    SectionBack(if ws.hasLog then EngineBytes([]) else [], wt.hasLog, Tail(ws, source));
  }

  // ------------------------------------------------------------- the loops as they run

  lemma {:induction false} ItemsSnoc(items: seq<Item>, item: Item)
    requires Writable(items) && Enumerates(item.order, item.entry.attributes)
    ensures Writable(items + [item])
    ensures ItemsBytes(items + [item]) == ItemsBytes(items) + Blob(4, DataBytes(item.entry, item.order))
  {
    hide Blob, DataBytes, Enumerates;
    if items == [] {
      assert ([] + [item])[1..] == [];
    } else {
      assert (items + [item])[1..] == items[1..] + [item];
      ItemsSnoc(items[1..], item);
    }
  }

  /** The entries outside `left` are listed, each once. */
  ghost predicate Listed(items: seq<Item>, db: Db, left: set<Name>) {
    && left <= db.Keys
    && (forall j, k :: 0 <= j < k < |items| ==> items[j].entry.dn != items[k].entry.dn)
    && (forall k :: 0 <= k < |items| ==>
          && Enumerates(items[k].order, items[k].entry.attributes) && items[k].entry.dn !in left
          && items[k].entry.dn in db && db[items[k].entry.dn] == items[k].entry.attributes)
    && (forall dn :: dn in db && dn !in left ==> exists k :: 0 <= k < |items| && items[k].entry.dn == dn)
  }

  lemma ListedMore(items: seq<Item>, db: Db, left: set<Name>, item: Item)
    requires Listed(items, db, left) && item.entry.dn in left && db[item.entry.dn] == item.entry.attributes
    requires Enumerates(item.order, item.entry.attributes)
    ensures Listed(items + [item], db, left - {item.entry.dn})
  {
    hide Enumerates;
    var more := items + [item];
    var rest := left - {item.entry.dn};
    forall dn | dn in db && dn !in rest
      ensures exists k :: 0 <= k < |more| && more[k].entry.dn == dn
    {
      if dn == item.entry.dn {
        assert more[|items|].entry.dn == dn;
      } else {
        var k :| 0 <= k < |items| && items[k].entry.dn == dn;
        assert more[k].entry.dn == dn;
      }
    }
  }

  lemma ListedAll(items: seq<Item>, db: Db)
    requires Listed(items, db, {})
    ensures Lists(items, db) && Writable(items)
  {
    hide Enumerates;
  }

  lemma ListedNone(db: Db)
    ensures Listed([], db, db.Keys)
  {
  }

  /** snapshotEngine: the iterator yields the entries in some order. */
  method SnapshotEngine(db: Db) returns (r: seq<Byte>, ghost items: seq<Item>)
    ensures Lists(items, db) && Writable(items) && r == EngineBytes(items)
    ensures |db| < UINT32 ==> var count := Field(4, r); count.Got? && count.value == |db|
  {
    hide Blob, DataBytes, Enumerates, LittleEndian, Listed, Lists, ItemsBytes, Field;
    var entries := [];
    items := [];
    NoItems();
    ListedNone(db);
    var left := db.Keys;
    while left != {}
      invariant left <= db.Keys && |items| + |left| == |db|
      invariant Listed(items, db, left)
      invariant Writable(items) && entries == ItemsBytes(items)
      decreases left
    {
      var dn :| dn in left;
      var data;
      ghost var order;
      data, order := SerializeEntry(Entry(dn, db[dn]));
      ghost var item := Item(Entry(dn, db[dn]), order);
      ListedMore(items, db, left, item);
      ItemsSnoc(items, item);
      items := items + [item];
      left := left - {dn};
      entries := entries + Blob(4, data);
    }
    ListedAll(items, db);
    Widths();
    if |db| < UINT32 { FieldBack(4, |db|, entries); }
    r := LittleEndian(4, |db|) + entries;
  }

  lemma NoItems()
    ensures Writable([]) && ItemsBytes([]) == []
  {
  }

  /** The loop that deletes what is there, from the last DN listed. */
  method ClearDatabase(d: Database, dns: seq<Name>)
    modifies d`db
    ensures d.db == Cleared(d.engine, old(d.db), dns)
  {
    var i := |dns|;
    assert dns[..i] == dns;
    while i > 0
      invariant 0 <= i <= |dns|
      invariant Cleared(d.engine, old(d.db), dns) == Cleared(d.engine, d.db, dns[..i])
    {
      i := i - 1;
      assert dns[..i + 1][..i] == dns[..i];
      if d.engine.delete(d.db, dns[i]) == Done {
        d.db := d.db - {dns[i]};
      }
    }
  }

  /** restoreEngine, on a database that lists these DNs. */
  method RestoreDatabase(d: Database, dns: seq<Name>, data: seq<Byte>) returns (ok: bool)
    modifies d`db
    ensures Restored(d.db, ok) == RestoreEngine(d.engine, old(d.db), dns, data)
  {
    hide Field, Cleared, RestoreItems;
    var reader := new Reader(data);
    assert reader.Unread() == data;
    var count := reader.ReadField(4);
    if count.Corrupted? {
      return false;
    }
    ClearDatabase(d, dns);
    ok := LoadItems(d, reader, count.value);
  }

  /** The loop that reads and puts the entries. */
  method LoadItems(d: Database, reader: Reader, count: nat) returns (ok: bool)
    requires reader.Valid()
    modifies d`db, reader`position
    ensures Restored(d.db, ok) == RestoreItems(d.engine, old(d.db), count, old(reader.Unread()))
  {
    hide ReadBlob, ParseData;
    ghost var goal := RestoreItems(d.engine, d.db, count, reader.Unread());
    var i := 0;
    while i < count
      invariant reader.Valid() && 0 <= i <= count
      invariant goal == RestoreItems(d.engine, d.db, count - i, reader.Unread())
    {
      var b := reader.ReadPrefixed(4);
      if b.Corrupted? {
        return false;
      }
      var e := DeserializeEntry(b.value);
      if e.Corrupted? || d.engine.put(d.db, e.value) != Done {
        return false;
      }
      d.db := d.db[e.value.dn := e.value.attributes];
      i := i + 1;
    }
    ok := true;
  }
}
