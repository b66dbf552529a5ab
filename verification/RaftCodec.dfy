/** The wire and disk forms of what Raft replicates: log entries, commands and AppendEntries
    requests (internal/raft/log.go, internal/raft/rpc.go). */
module RaftCodec {
  import opened Bytes
  import opened ByteReader
  import opened RaftServer

  const UINT16 := 0x1_0000
  const UINT32 := 0x1_0000_0000
  const UINT64 := 0x1_0000_0000_0000_0000

  // ------------------------------------------------------------------ log entries

  /** The fields are Go's uint64; only the command's length can overflow its prefix. */
  ghost predicate EntryTyped(e: LogEntry) { e.index < UINT64 && e.term < UINT64 }

  function EntryBytes(e: LogEntry): seq<Byte> {
    LittleEndian(8, e.index) + LittleEndian(8, e.term) + [e.kind] + Blob(4, e.command)
  }

  /** DeserializeLogEntry, which ignores bytes after the command. */
  function ParseEntry(s: seq<Byte>): Read<LogEntry> {
    if |s| < 21 then Corrupted
    else
      var n := FromLittleEndian(s[17..21]);
      if |s| < 21 + n then Corrupted
      else Got(LogEntry(FromLittleEndian(s[0..8]), FromLittleEndian(s[8..16]), s[16], s[21..21 + n]), s[21 + n..])
  }

  lemma EntrySlices(e: LogEntry, rest: seq<Byte>)
    ensures var s := EntryBytes(e) + rest;
            && |s| == 21 + |e.command| + |rest|
            && s[0..8] == LittleEndian(8, e.index) && s[8..16] == LittleEndian(8, e.term) && s[16] == e.kind
            && s[17..21] == LittleEndian(4, |e.command|)
            && s[21..21 + |e.command|] == e.command && s[21 + |e.command|..] == rest
  {
    hide LittleEndian;
  }

  /** An entry comes back exactly when its command is shorter than 2^32 bytes. */
  lemma EntryRoundTrip(e: LogEntry, rest: seq<Byte>)
    requires EntryTyped(e)
    ensures ParseEntry(EntryBytes(e) + rest) == Got(e, rest) <==> |e.command| < UINT32
  {
    hide LittleEndian, FromLittleEndian, EntryBytes;
    Widths();
    EntrySlices(e, rest);
    if |e.command| < UINT32 {
      FieldFits(8, e.index);
      FieldFits(8, e.term);
      FieldFits(4, |e.command|);
    } else {
      FieldBounded(LittleEndian(4, |e.command|));
    }
  }

  // -------------------------------------------------------------- AppendEntries

  ghost predicate ArgsTyped(a: AppendArgs) {
    && a.term < UINT64 && a.leader < UINT64 && a.prevLogIndex < UINT64 && a.prevLogTerm < UINT64
    && a.leaderCommit < UINT64 && |a.entries| < UINT64
    && forall k :: 0 <= k < |a.entries| ==> EntryTyped(a.entries[k])
  }

  /** Every entry, with its own prefix, fits a 32-bit length. */
  predicate EntriesFit(es: seq<LogEntry>) {
    forall k :: 0 <= k < |es| ==> 21 + |es[k].command| < UINT32
  }

  function EntriesBytes(es: seq<LogEntry>): seq<Byte> {
    if es == [] then [] else Blob(4, EntryBytes(es[0])) + EntriesBytes(es[1..])
  }

  function ArgsHeader(a: AppendArgs): seq<Byte> {
    LittleEndian(8, a.term) + LittleEndian(8, a.leader) + LittleEndian(8, a.prevLogIndex)
    + LittleEndian(8, a.prevLogTerm) + LittleEndian(8, |a.entries|) + LittleEndian(8, a.leaderCommit)
  }

  function ArgsBytes(a: AppendArgs): seq<Byte> { ArgsHeader(a) + EntriesBytes(a.entries) }

  function ParseEntries(count: nat, s: seq<Byte>): Read<seq<LogEntry>>
    decreases count
  {
    if count == 0 then Got([], s)
    else
      var (b, s1) :- ReadBlob(4, s);
      var (e, _) :- ParseEntry(b);
      var (es, s2) :- ParseEntries(count - 1, s1);
      Got([e] + es, s2)
  }

  function ParseArgs(s: seq<Byte>): Read<AppendArgs> {
    if |s| < 48 then Corrupted
    else
      var count := FromLittleEndian(s[32..40]);
      if count > MAX_ENTRIES then Corrupted
      else
        var (es, rest) :- ParseEntries(count, s[48..]);
        Got(AppendArgs(FromLittleEndian(s[0..8]), FromLittleEndian(s[8..16]), FromLittleEndian(s[16..24]),
                       FromLittleEndian(s[24..32]), es, FromLittleEndian(s[40..48])), rest)
  }

  lemma ArgsSlices(a: AppendArgs, rest: seq<Byte>)
    ensures var s := ArgsHeader(a) + rest;
            && |s| == 48 + |rest|
            && s[0..8] == LittleEndian(8, a.term) && s[8..16] == LittleEndian(8, a.leader)
            && s[16..24] == LittleEndian(8, a.prevLogIndex) && s[24..32] == LittleEndian(8, a.prevLogTerm)
            && s[32..40] == LittleEndian(8, |a.entries|) && s[40..48] == LittleEndian(8, a.leaderCommit)
            && s[48..] == rest
  {
    hide LittleEndian;
  }

  lemma {:induction false} EntriesRoundTrip(es: seq<LogEntry>)
    requires EntriesFit(es) && forall k :: 0 <= k < |es| ==> EntryTyped(es[k])
    ensures ParseEntries(|es|, EntriesBytes(es)) == Got(es, [])
  {
    hide Blob, EntryBytes, ParseEntry, ReadBlob;
    if es != [] {
      var rest := EntriesBytes(es[1..]);
      Widths();
      EntrySlices(es[0], []);
      assert EntryBytes(es[0]) + [] == EntryBytes(es[0]);
      BlobBack(4, EntryBytes(es[0]), rest);
      EntryRoundTrip(es[0], []);
      EntriesRoundTrip(es[1..]);
      assert [es[0]] + es[1..] == es;
    }
  }

  /** A request comes back whole exactly when it carries at most 10000 entries; a leader's longer
      tail is refused as corrupted. */
  lemma ArgsRoundTrip(a: AppendArgs)
    requires ArgsTyped(a) && EntriesFit(a.entries)
    ensures ParseArgs(ArgsBytes(a)) == if |a.entries| <= MAX_ENTRIES then Got(a, []) else Corrupted
  {
    hide LittleEndian, FromLittleEndian, ArgsHeader, EntriesBytes, ParseEntries, EntryTyped;
    Widths();
    ArgsSlices(a, EntriesBytes(a.entries));
    FieldFits(8, |a.entries|);
    if |a.entries| <= MAX_ENTRIES {
      FieldFits(8, a.term);
      FieldFits(8, a.leader);
      FieldFits(8, a.prevLogIndex);
      FieldFits(8, a.prevLogTerm);
      FieldFits(8, a.leaderCommit);
      EntriesRoundTrip(a.entries);
    }
  }

  /** handleAppendEntries from the bytes on: what cannot be decoded is answered with the term alone. */
  function HandleAppendData(s: Server, data: seq<Byte>): (Server, AppendReply) {
    var p := ParseArgs(data);
    if p.Corrupted? then (s, AppendReply(s.term, false, 0, 0)) else HandleAppendEntries(s, p.value)
  }

  /** Over the wire a request does what the cluster model says: it is handled if it has at most 10000
      entries, and changes nothing otherwise. */
  lemma SentIsReceived(s: Server, a: AppendArgs)
    requires ArgsTyped(a) && EntriesFit(a.entries)
    ensures HandleAppendData(s, ArgsBytes(a)) == ReceiveAppend(s, a)
  {
    hide ArgsBytes, ParseArgs, HandleAppendEntries;
    ArgsRoundTrip(a);
  }

  // ---------------------------------------------------------------- the log file

  /** The records of a log file. A length of 0 or over 10 MB ends the reading; a record cut short is an
      error. */
  function ParseFile(s: seq<Byte>): Read<seq<LogEntry>>
    decreases |s|
  {
    if s == [] then Got([], [])
    else
      var (n, s1) :- Field(4, s);
      if n == 0 || n > MAX_RECORD then Got([], s1)
      else
        var (b, s2) :- Take(n, s1);
        var (e, _) :- ParseEntry(b);
        var (es, s3) :- ParseFile(s2);
        Got([e] + es, s3)
  }

  lemma RecordBack(e: LogEntry, rest: seq<Byte>)
    requires EntryTyped(e) && 21 + |e.command| < UINT32
    ensures var s := Blob(4, EntryBytes(e)) + rest;
            var r := Field(4, s);
            && s != [] && r == Got(21 + |e.command|, EntryBytes(e) + rest)
            && Take(r.value, r.rest) == Got(EntryBytes(e), rest) && ParseEntry(EntryBytes(e)) == Got(e, [])
  {
    hide EntryBytes, ParseEntry, Field;
    Widths();
    EntrySlices(e, []);
    assert EntryBytes(e) + [] == EntryBytes(e);
    EntryRoundTrip(e, []);
    var x := EntryBytes(e);
    assert Blob(4, x) + rest == LittleEndian(4, |x|) + (x + rest);
    FieldBack(4, |x|, x + rest);
    assert (x + rest)[..|x|] == x && (x + rest)[|x|..] == rest;
  }

  /** The bytes written by appending records are read as those records, up to the first over 10 MB. */
  lemma {:induction false} FileRoundTrip(file: seq<LogEntry>)
    requires EntriesFit(file) && forall k :: 0 <= k < |file| ==> EntryTyped(file[k])
    ensures var r := ParseFile(EntriesBytes(file)); r.Got? && r.value == Readable(file)
  {
    hide Blob, EntryBytes, ParseEntry, Field, Take, EntryTyped;
    if file != [] {
      RecordBack(file[0], EntriesBytes(file[1..]));
      FileRoundTrip(file[1..]);
    }
  }

  // ------------------------------------------------------------------- commands

  datatype Command = Command(
    kind: Byte, database: Byte,
    dn: seq<Byte>, oldDn: seq<Byte>, entryDn: seq<Byte>,
    entryData: seq<Byte>, configData: seq<Byte>, aclData: seq<Byte>)

  /** Within the length prefixes. */
  predicate CommandFits(c: Command) {
    && |c.dn| < UINT16 && |c.oldDn| < UINT16 && |c.entryDn| < UINT16
    && |c.entryData| < UINT32 && |c.configData| < UINT32 && |c.aclData| < UINT32
  }

  /** The fields every version of the format has. */
  function OldBytes(c: Command): seq<Byte> {
    [c.kind, c.database] + Blob(2, c.dn) + Blob(2, c.oldDn) + Blob(2, c.entryDn) + Blob(4, c.entryData)
  }

  function CommandBytes(c: Command): seq<Byte> {
    OldBytes(c) + Blob(4, c.configData) + Blob(4, c.aclData)
  }

  /** A field that older writers left out: none if it cannot be read, and then nothing follows. */
  function OptionalBlob(s: seq<Byte>): (seq<Byte>, seq<Byte>) {
    var r := ReadBlob(4, s);
    if r.Got? then (r.value, r.rest) else ([], [])
  }

  function ParseCommand(s: seq<Byte>): Read<Command> {
    if |s| < 2 then Corrupted
    else
      var (dn, s1) :- ReadBlob(2, s[2..]);
      var (oldDn, s2) :- ReadBlob(2, s1);
      var (entryDn, s3) :- ReadBlob(2, s2);
      var (entryData, s4) :- ReadBlob(4, s3);
      var (configData, s5) := OptionalBlob(s4);
      var (aclData, s6) := OptionalBlob(s5);
      Got(Command(s[0], s[1], dn, oldDn, entryDn, entryData, configData, aclData), s6)
  }

  /** The common fields are read back and what follows them is left. */
  lemma OldFieldsBack(c: Command, rest: seq<Byte>)
    requires CommandFits(c)
    ensures var s := OldBytes(c) + rest;
            && |s| >= 2 && s[0] == c.kind && s[1] == c.database && s[2..] == Blob(2, c.dn) + AfterDn(c, rest)
    ensures ReadBlob(2, Blob(2, c.dn) + AfterDn(c, rest)) == Got(c.dn, AfterDn(c, rest))
    ensures ReadBlob(2, AfterDn(c, rest)) == Got(c.oldDn, AfterOldDn(c, rest))
    ensures ReadBlob(2, AfterOldDn(c, rest)) == Got(c.entryDn, Blob(4, c.entryData) + rest)
    ensures ReadBlob(4, Blob(4, c.entryData) + rest) == Got(c.entryData, rest)
  {
    hide Blob, ReadBlob;
    Widths();
    BlobBack(2, c.dn, AfterDn(c, rest));
    BlobBack(2, c.oldDn, AfterOldDn(c, rest));
    BlobBack(2, c.entryDn, Blob(4, c.entryData) + rest);
    BlobBack(4, c.entryData, rest);
  }

  ghost function AfterOldDn(c: Command, rest: seq<Byte>): seq<Byte> {
    Blob(2, c.entryDn) + (Blob(4, c.entryData) + rest)
  }

  ghost function AfterDn(c: Command, rest: seq<Byte>): seq<Byte> { Blob(2, c.oldDn) + AfterOldDn(c, rest) }

  lemma OptionalBack(x: seq<Byte>, rest: seq<Byte>)
    requires |x| < UINT32
    ensures OptionalBlob(Blob(4, x) + rest) == (x, rest)
  {
    Widths();
    BlobBack(4, x, rest);
  }

  lemma ParsedFits(s: seq<Byte>)
    ensures var r := ParseCommand(s); r.Got? ==> CommandFits(r.value)
  {
    hide ReadBlob;
    Widths();
    forall t: seq<Byte>
      ensures var r := ReadBlob(2, t); r.Got? ==> |r.value| < UINT16
      ensures var r := ReadBlob(4, t); r.Got? ==> |r.value| < UINT32
    {
      BlobBounded(2, t);
      BlobBounded(4, t);
    }
  }

  /** A command comes back exactly when its strings are under 65536 bytes and its payloads under
      2^32; otherwise its prefix is cut and something else comes back, or nothing. */
  lemma CommandRoundTrip(c: Command)
    ensures ParseCommand(CommandBytes(c)) == Got(c, []) <==> CommandFits(c)
  {
    hide Blob, ReadBlob, OptionalBlob, OldBytes;
    if CommandFits(c) {
      var tail := Blob(4, c.configData) + Blob(4, c.aclData);
      assert CommandBytes(c) == OldBytes(c) + tail;
      OldFieldsBack(c, tail);
      OptionalBack(c.configData, Blob(4, c.aclData));
      OptionalBack(c.aclData, []);
      assert Blob(4, c.aclData) + [] == Blob(4, c.aclData);
    } else {
      ParsedFits(CommandBytes(c));
    }
  }

  /** Commands written before configuration and ACL payloads existed are still read. */
  lemma OldFormatRead(c: Command)
    requires CommandFits(c)
    ensures ParseCommand(OldBytes(c)) == Got(c.(configData := [], aclData := []), [])
  {
    hide Blob, ReadBlob, OldBytes;
    OldFieldsBack(c, []);
    assert OldBytes(c) + [] == OldBytes(c);
    NothingToRead();
  }

  lemma NothingToRead()
    ensures OptionalBlob([]) == ([], [])
  {
  }

  // ------------------------------------------------------------ the codecs as they run

  /** binary.LittleEndian.PutUintN into a slice of a fixed buffer. */
  method PutField(buf: array<Byte>, from: nat, n: nat, v: nat)
    requires from + n <= buf.Length
    modifies buf
    ensures buf[from..from + n] == LittleEndian(n, v)
    ensures buf[..from] == old(buf[..from]) && buf[from + n..] == old(buf[from + n..])
  {
    var digits := LittleEndian(n, v);
    for i := 0 to n
      invariant buf[from..from + i] == digits[..i]
      invariant buf[..from] == old(buf[..from]) && buf[from + n..] == old(buf[from + n..])
    {
      buf[from + i] := digits[i];
    }
  }

  /** LogEntry.Serialize. */
  method SerializeEntry(e: LogEntry) returns (buf: array<Byte>)
    ensures fresh(buf) && buf[..] == EntryBytes(e)
  {
    hide LittleEndian;
    buf := new Byte[21 + |e.command|];
    PutField(buf, 0, 8, e.index);
    PutField(buf, 8, 8, e.term);
    assert buf[0..8] == buf[..8] == LittleEndian(8, e.index);
    buf[16] := e.kind;
    ghost var head := LittleEndian(8, e.index) + LittleEndian(8, e.term) + [e.kind];
    assert buf[..17] == head;
    PutField(buf, 17, 4, |e.command|);
    assert buf[..21] == head + LittleEndian(4, |e.command|);
    for i := 0 to |e.command|
      invariant buf[..21] == head + LittleEndian(4, |e.command|)
      invariant buf[21..21 + i] == e.command[..i]
    {
      buf[21 + i] := e.command[i];
    }
    assert buf[..] == buf[..21] + buf[21..21 + |e.command|];
  }

  lemma {:induction false} EntriesSnoc(es: seq<LogEntry>, k: nat)
    requires k < |es|
    ensures EntriesBytes(es[..k + 1]) == EntriesBytes(es[..k]) + Blob(4, EntryBytes(es[k]))
  {
    hide Blob, EntryBytes;
    if k == 0 {
      assert es[..1][1..] == [];
    } else {
      assert es[..k + 1][1..] == es[1..][..k] && es[..k][1..] == es[1..][..k - 1];
      EntriesSnoc(es[1..], k - 1);
    }
  }

  /** AppendEntriesArgs.Serialize. */
  method SerializeArgs(a: AppendArgs) returns (r: seq<Byte>)
    ensures r == ArgsBytes(a)
  {
    hide ArgsHeader, EntryBytes;
    r := ArgsHeader(a);
    for i := 0 to |a.entries|
      invariant r == ArgsHeader(a) + EntriesBytes(a.entries[..i])
    {
      var data := SerializeEntry(a.entries[i]);
      EntriesSnoc(a.entries, i);
      r := r + LittleEndian(4, data.Length) + data[..];
    }
    assert a.entries[..|a.entries|] == a.entries;
  }

  /** The loop of DeserializeAppendEntriesArgs. */
  method ReadEntries(reader: Reader, count: nat) returns (r: Read<seq<LogEntry>>)
    requires reader.Valid()
    modifies reader`position
    ensures r == ParseEntries(count, old(reader.Unread()))
  {
    hide ParseEntry, ReadBlob;
    var es: seq<LogEntry> := [];
    var i := 0;
    JoinedNone(ParseEntries(count, reader.Unread()));
    while i < count
      invariant reader.Valid() && 0 <= i <= count
      invariant ParseEntries(count, old(reader.Unread())) == Joined(es, ParseEntries(count - i, reader.Unread()))
    {
      var data := reader.ReadPrefixed(4);
      if data.Corrupted? {
        return Corrupted;
      }
      var e := ParseEntry(data.value);
      if e.Corrupted? {
        return Corrupted;
      }
      i := i + 1;
      JoinedMore(es, e.value, ParseEntries(count - i, reader.Unread()));
      es := es + [e.value];
    }
    assert es + [] == es;
    r := Got(es, reader.data[reader.position..]);
  }

  /** Entries already read, in front of those still to come. */
  ghost function Joined(es: seq<LogEntry>, r: Read<seq<LogEntry>>): Read<seq<LogEntry>> {
    if r.Corrupted? then r else Got(es + r.value, r.rest)
  }

  lemma JoinedNone(r: Read<seq<LogEntry>>)
    ensures Joined([], r) == r
  {
    if r.Got? { assert [] + r.value == r.value; }
  }

  lemma JoinedMore(es: seq<LogEntry>, e: LogEntry, r: Read<seq<LogEntry>>)
    ensures Joined(es + [e], r) == Joined(es, if r.Corrupted? then r else Got([e] + r.value, r.rest))
  {
    if r.Got? { assert es + [e] + r.value == es + ([e] + r.value); }
  }

  method DeserializeArgs(data: seq<Byte>) returns (r: Read<AppendArgs>)
    ensures r == ParseArgs(data)
  {
    hide ParseEntries, FromLittleEndian;
    if |data| < 48 {
      return Corrupted;
    }
    var count := FromLittleEndian(data[32..40]);
    if count > MAX_ENTRIES {
      return Corrupted;
    }
    var reader := new Reader(data[48..]);
    assert reader.Unread() == data[48..];
    var es := ReadEntries(reader, count);
    if es.Corrupted? {
      return Corrupted;
    }
    r := Got(AppendArgs(FromLittleEndian(data[0..8]), FromLittleEndian(data[8..16]), FromLittleEndian(data[16..24]),
                        FromLittleEndian(data[24..32]), es.value, FromLittleEndian(data[40..48])), es.rest);
  }

  method DeserializeCommand(data: seq<Byte>) returns (r: Read<Command>)
    ensures r == ParseCommand(data)
  {
    hide ReadBlob;
    if |data| < 2 {
      return Corrupted;
    }
    var reader := new Reader(data[2..]);
    assert reader.Unread() == data[2..];
    var dn := reader.ReadPrefixed(2);
    if dn.Corrupted? {
      return Corrupted;
    }
    var oldDn := reader.ReadPrefixed(2);
    if oldDn.Corrupted? {
      return Corrupted;
    }
    var entryDn := reader.ReadPrefixed(2);
    if entryDn.Corrupted? {
      return Corrupted;
    }
    var entryData := reader.ReadPrefixed(4);
    if entryData.Corrupted? {
      return Corrupted;
    }
    var configData := reader.ReadPrefixed(4);
    var aclData := reader.ReadPrefixed(4);
    NothingToRead();
    r := Got(Command(data[0], data[1], dn.value, oldDn.value, entryDn.value, entryData.value,
                     if configData.Got? then configData.value else [],
                     if aclData.Got? then aclData.value else []),
             reader.data[reader.position..]);
  }

  // --------------------------------------------------------- the log file as it is read

  /** The map of the last record per index, and the highest index, say what the records give. */
  ghost predicate Collected(m: map<nat, LogEntry>, max: nat, log: Log) {
    && |log| == max + 1 && log[0] == Sentinel && (max > 0 ==> max in m)
    && (forall k :: k in m ==> 1 <= k <= max && log[k] == m[k])
    && (forall k :: 1 <= k <= max && k !in m ==> log[k] == Sentinel)
  }

  lemma CollectedMore(m: map<nat, LogEntry>, max: nat, log: Log, e: LogEntry)
    requires Collected(m, max, log)
    ensures if e.index == 0 then Place(log, e) == log
            else Collected(m[e.index := e], if e.index > max then e.index else max, Place(log, e))
  {
  }

  /** Records already read, in front of those still to come. */
  ghost function LoadedFrom(log: Log, r: Read<seq<LogEntry>>): Read<seq<LogEntry>> {
    if r.Corrupted? then r else Got(PlaceAll(log, r.value), r.rest)
  }

  ghost function PlaceAll(log: Log, es: seq<LogEntry>): Log
    decreases |es|
  {
    if es == [] then log else PlaceAll(Place(log, es[0]), es[1..])
  }

  lemma {:induction false} PlaceAllSnoc(log: Log, es: seq<LogEntry>, e: LogEntry)
    ensures PlaceAll(log, es + [e]) == Place(PlaceAll(log, es), e)
    decreases |es|
  {
    hide Place;
    if es == [] {
      assert ([] + [e])[1..] == [];
    } else {
      assert (es + [e])[1..] == es[1..] + [e];
      PlaceAllSnoc(Place(log, es[0]), es[1..], e);
    }
  }

  lemma {:induction false} PlaceAllIs(es: seq<LogEntry>)
    ensures PlaceAll([Sentinel], es) == LastRecords(es)
    decreases |es|
  {
    hide Place;
    if es != [] {
      var init := es[..|es| - 1];
      PlaceAllIs(init);
      PlaceAllSnoc([Sentinel], init, es[|es| - 1]);
      assert init + [es[|es| - 1]] == es;
    }
  }

  /** The reading loop of loadFromDisk: a map from index to the last record, and the highest index. */
  method ReadRecords(data: seq<Byte>) returns (ok: bool, m: map<nat, LogEntry>, max: nat)
    ensures ok <==> ParseFile(data).Got?
    ensures ok ==> Collected(m, max, LastRecords(ParseFile(data).value))
  {
    hide ParseEntry, Field, Take, Place, Collected;
    var reader := new Reader(data);
    m, max := map[], 0;
    ghost var log: Log := [Sentinel];
    assert reader.Unread() == data;
    assert Collected(m, max, log) by { CollectedNone(); }
    LoadedNone(ParseFile(data));
    while reader.position < |reader.data|
      invariant reader.Valid() && Collected(m, max, log)
      invariant LoadedFrom([Sentinel], ParseFile(data)) == LoadedFrom(log, ParseFile(reader.Unread()))
      decreases |reader.data| - reader.position
    {
      ghost var unread := reader.Unread();
      var n := reader.ReadField(4);
      if n.Corrupted? {
        return false, m, max;
      }
      if n.value == 0 || n.value > MAX_RECORD {
        break;
      }
      var b := reader.ReadFull(n.value);
      if b.Corrupted? {
        return false, m, max;
      }
      var e := ParseEntry(b.value);
      if e.Corrupted? {
        return false, m, max;
      }
      CollectedMore(m, max, log, e.value);
      LoadedMore(log, e.value, ParseFile(reader.Unread()));
      log := Place(log, e.value);
      if e.value.index > 0 {
        m := m[e.value.index := e.value];
        if e.value.index > max {
          max := e.value.index;
        }
      }
    }
    ok := true;
  }

  lemma CollectedNone()
    ensures Collected(map[], 0, [Sentinel])
  {
  }

  lemma LoadedNone(r: Read<seq<LogEntry>>)
    ensures r.Got? ==> LoadedFrom([Sentinel], r) == Got(LastRecords(r.value), r.rest)
  {
    if r.Got? { PlaceAllIs(r.value); }
  }

  lemma LoadedMore(log: Log, e: LogEntry, r: Read<seq<LogEntry>>)
    ensures LoadedFrom(Place(log, e), r) == LoadedFrom(log, if r.Corrupted? then r else Got([e] + r.value, r.rest))
  {
    hide Place;
    if r.Got? { assert ([e] + r.value)[1..] == r.value; }
  }

  /** The building loop: skipped indexes are filled, and none is filled at the end. */
  method BuildEntries(m: map<nat, LogEntry>, max: nat, ghost log: Log) returns (entries: seq<LogEntry>)
    requires Collected(m, max, log)
    ensures entries == log
  {
    entries := [Sentinel];
    for i := 1 to max + 1
      invariant 1 <= |entries| <= i && entries == log[..|entries|]
      invariant forall k :: |entries| <= k < i ==> k !in m
    {
      if i in m {
        while |entries| <= i
          invariant 1 <= |entries| <= i + 1 && forall k :: 0 <= k < |entries| && k != i ==> entries[k] == log[k]
        {
          entries := entries + [Sentinel];
        }
        entries := entries[i := m[i]];
      }
    }
  }

  /** loadFromDisk. */
  method LoadFromDisk(data: seq<Byte>) returns (r: Read<seq<LogEntry>>)
    ensures r == if ParseFile(data).Got? then Got(LastRecords(ParseFile(data).value), []) else Corrupted
  {
    hide ParseFile, LastRecords, Collected;
    var ok, m, max := ReadRecords(data);
    if !ok {
      return Corrupted;
    }
    var entries := BuildEntries(m, max, LastRecords(ParseFile(data).value));
    r := Got(entries, []);
  }
}
