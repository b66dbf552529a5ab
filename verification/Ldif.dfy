/** LDIF text (RFC 2849) as internal/backup/ldif.go writes and reads it. Base64 is any coding with an
    inverse whose text is free of line breaks and blanks. */
module Ldif {
  import opened Bytes
  import opened EntryCodec

  const TAB: Byte := 9
  const NEWLINE: Byte := 10
  const RETURN: Byte := 13
  const SPACE: Byte := 32
  const HASH: Byte := 35
  const COLON: Byte := 58
  const LESS: Byte := 60

  const DN_NAME: seq<Byte> := [100, 110]

  /** bufio.Scanner gives up on a longer line. */
  const MAX_LINE := 0xFFFF

  datatype Option<+T> = None | Some(value: T)

  datatype Base64 = Base64(encode: seq<Byte> -> seq<Byte>, decode: seq<Byte> -> Option<seq<Byte>>)

  predicate Blank(b: Byte) { b == SPACE || TAB <= b <= RETURN }

  ghost predicate Inverse(c: Base64) {
    forall x :: c.decode(c.encode(x)) == Some(x) && (x != [] ==> c.encode(x) != []) &&
                forall k :: 0 <= k < |c.encode(x)| ==> !Blank(c.encode(x)[k])
  }

  function TrimLeft(s: seq<Byte>): seq<Byte> {
    if s != [] && Blank(s[0]) then TrimLeft(s[1..]) else s
  }

  function TrimRight(s: seq<Byte>): seq<Byte> {
    if s != [] && Blank(s[|s| - 1]) then TrimRight(s[..|s| - 1]) else s
  }

  function Trim(s: seq<Byte>): seq<Byte> { TrimRight(TrimLeft(s)) }

  // ------------------------------------------------------------------- writing

  predicate Plain(b: Byte) { 0x20 <= b <= 0x7E }

  predicate NeedsBase64(v: seq<Byte>) {
    v != [] && (v[0] == SPACE || v[0] == COLON || v[0] == LESS || exists k :: 0 <= k < |v| && !Plain(v[k]))
  }

  /** name: value, or name:: base64. */
  function ValueLine(c: Base64, name: Name, v: seq<Byte>): seq<Byte> {
    name + if NeedsBase64(v) then [COLON, COLON, SPACE] + c.encode(v) else [COLON, SPACE] + v
  }

  datatype Pair = Pair(name: Name, value: seq<Byte>)

  function PairsOf(name: Name, vs: Values): seq<Pair> {
    if vs == [] then [] else [Pair(name, vs[0])] + PairsOf(name, vs[1..])
  }

  /** Every value of every attribute, the attributes in this order. */
  function Pairs(order: seq<Name>, m: Attributes): seq<Pair>
    requires forall x :: x in order ==> x in m
  {
    if order == [] then [] else PairsOf(order[0], m[order[0]]) + Pairs(order[1..], m)
  }

  function PairLines(c: Base64, ps: seq<Pair>): seq<seq<Byte>> {
    if ps == [] then [] else [ValueLine(c, ps[0].name, ps[0].value)] + PairLines(c, ps[1..])
  }

  /** writeEntry: the DN, the values, and an empty line. */
  function EntryLines(c: Base64, e: Entry, order: seq<Name>): seq<seq<Byte>>
    requires Enumerates(order, e.attributes)
  {
    [ValueLine(c, DN_NAME, e.dn)] + PairLines(c, Pairs(order, e.attributes)) + [[]]
  }

  function Text(lines: seq<seq<Byte>>): seq<Byte> {
    if lines == [] then [] else lines[0] + [NEWLINE] + Text(lines[1..])
  }

  // ------------------------------------------------------------------- reading

  datatype Error = InvalidLdif | MissingDn | InvalidBase64

  datatype Result<+T> = Ok(value: T) | Err(error: Error) {
    predicate IsFailure() { Err? }
    function PropagateFailure<U>(): Result<U> requires Err? { Err(error) }
    function Extract(): T requires Ok? { value }
  }

  /** The position of the first b in s, or the length of s. */
  function Find(b: Byte, s: seq<Byte>): (i: nat)
    ensures i <= |s| && (i < |s| ==> s[i] == b) && forall k :: 0 <= k < i ==> s[k] != b
  {
    if s == [] || s[0] == b then 0
    else
      var i := Find(b, s[1..]);
      assert forall k :: 0 < k < i + 1 ==> s[k] == s[1..][k - 1];
      i + 1
  }

  function DropReturn(s: seq<Byte>): seq<Byte> {
    if s != [] && s[|s| - 1] == RETURN then s[..|s| - 1] else s
  }

  /** The stretches between line breaks. */
  function SplitLines(s: seq<Byte>): seq<seq<Byte>>
    decreases |s|
  {
    if s == [] then []
    else
      var i := Find(NEWLINE, s);
      [s[..i]] + if i < |s| then SplitLines(s[i + 1..]) else []
  }

  /** processDNLine; "dn::" and "DN::" announce base64, in that case only. */
  function ReadDn(c: Base64, line: seq<Byte>): Result<Name>
    requires |line| >= 3
  {
    if |line| >= 4 && line[2..4] == [COLON, COLON] && (line[..2] == DN_NAME || line[..2] == [68, 78]) then
      var encoded := Trim(line[4..]);
      if encoded == [] then Err(MissingDn)
      else
        match c.decode(encoded)
        case None => Err(InvalidBase64)
        case Some(dn) => if dn == [] then Err(MissingDn) else Ok(dn)
    else if Trim(line[3..]) == [] then Err(MissingDn)
    else Ok(Trim(line[3..]))
  }

  /** AddAttributeValue. */
  function AddValue(e: Entry, name: Name, v: seq<Byte>): Entry {
    e.(attributes := e.attributes[name := (if name in e.attributes then e.attributes[name] else []) + [v]])
  }

  /** processLine. */
  function ReadPair(c: Base64, line: seq<Byte>): Result<Pair> {
    var i := Find(COLON, line);
    if i == |line| then Err(InvalidLdif)
    else
      var name, rest := LowerAll(line[..i]), line[i + 1..];
      if rest != [] && rest[0] == COLON then
        match c.decode(Trim(rest[1..]))
        case None => Err(InvalidBase64)
        case Some(v) => Ok(Pair(name, v))
      else Ok(Pair(name, Trim(rest)))
  }

  /** Where the line loop stands: entries finished, the entry being read, the line being continued. */
  datatype Progress = Progress(finished: seq<Entry>, current: Option<Entry>, pending: seq<Byte>)

  /** The continued line, if any, is added to the entry, if any. */
  function Flush(c: Base64, p: Progress): Result<Progress> {
    if p.pending == [] || p.current.None? then Ok(p.(pending := []))
    else
      var pair :- ReadPair(c, p.pending);
      Ok(Progress(p.finished, Some(AddValue(p.current.value, pair.name, pair.value)), []))
  }

  /** The entry being read is finished. */
  function Finish(p: Progress): Result<Progress> {
    if p.current.None? then Ok(p)
    else if p.current.value.dn == [] then Err(MissingDn)
    else Ok(Progress(p.finished + [p.current.value], None, p.pending))
  }

  predicate StartsEntry(line: seq<Byte>) {
    |line| >= 3 && LowerAll(line)[..3] == DN_NAME + [COLON]
  }

  /** One line of Parse. A new DN drops an entry that no empty line has ended. */
  function ReadLine(c: Base64, p: Progress, line: seq<Byte>): Result<Progress> {
    if line != [] && line[0] == SPACE then Ok(p.(pending := p.pending + line[1..]))
    else
      var q :- Flush(c, p);
      if line != [] && line[0] == HASH then Ok(q)
      else if line == [] then Finish(q)
      else if StartsEntry(line) then
        var dn :- ReadDn(c, line);
        Ok(q.(current := Some(Entry(dn, map[]))))
      else if q.current.Some? then Ok(q.(pending := line))
      else Ok(q)
  }

  function ReadLines(c: Base64, p: Progress, lines: seq<seq<Byte>>): Result<Progress>
    decreases |lines|
  {
    if lines == [] then Ok(p)
    else
      var q :- ReadLine(c, p, lines[0]);
      ReadLines(c, q, lines[1..])
  }

  const START := Progress([], None, [])

  /** What bufio.Scanner yields: each line without its carriage return, up to the first that is too long
      with it. */
  function Scanned(raw: seq<seq<Byte>>): (lines: seq<seq<Byte>>)
    ensures |lines| <= |raw|
  {
    if raw == [] || |raw[0]| > MAX_LINE then [] else [DropReturn(raw[0])] + Scanned(raw[1..])
  }

  function Parse(c: Base64, text: seq<Byte>): Result<seq<Entry>> {
    var raw := SplitLines(text);
    var lines := Scanned(raw);
    var p :- ReadLines(c, START, lines);
    var q :- Flush(c, p);
    var r :- Finish(q);
    if |lines| < |raw| then Err(InvalidLdif) else Ok(r.finished)
  }

  // ------------------------------------------------------------------ round trip

  predicate EndsInSpace(v: seq<Byte>) { v != [] && v[|v| - 1] == SPACE }

  /** Written as it is, a value must not end in a blank, which reading trims. */
  predicate ValueOk(v: seq<Byte>) { NeedsBase64(v) || !EndsInSpace(v) }

  /** Names the format can carry: lower case, no colon or line break, and not taken for a
      continuation, a comment or a DN. */
  predicate NameOk(name: Name) {
    && LowerAll(name) == name && COLON !in name && NEWLINE !in name && name != DN_NAME
    && (name != [] ==> name[0] != SPACE && name[0] != HASH)
  }

  /** What the lines of an entry need to be read as such, apart from the values. */
  ghost predicate EntryNamed(e: Entry) {
    e.dn != [] && forall x :: x in e.attributes ==> NameOk(x) && e.attributes[x] != []
  }

  /** No line is too long, either. */
  ghost predicate EntryOk(c: Base64, e: Entry) {
    && EntryNamed(e) && |ValueLine(c, DN_NAME, e.dn)| <= MAX_LINE
    && forall x :: x in e.attributes ==>
         forall k :: 0 <= k < |e.attributes[x]| ==> |ValueLine(c, x, e.attributes[x][k])| <= MAX_LINE
  }

  /** No value and no DN is plain text ending in a space. */
  ghost predicate ValuesOk(e: Entry) {
    && ValueOk(e.dn)
    && forall x :: x in e.attributes ==>
         forall k :: 0 <= k < |e.attributes[x]| ==> ValueOk(e.attributes[x][k])
  }

  ghost predicate PairOk(c: Base64, p: Pair) {
    NameOk(p.name) && |ValueLine(c, p.name, p.value)| <= MAX_LINE
  }

  /** What is left of a value when it is read back. */
  function Kept(v: seq<Byte>): seq<Byte> { if NeedsBase64(v) then v else TrimRight(v) }

  lemma TrimNone(s: seq<Byte>)
    requires s == [] || (!Blank(s[0]) && !Blank(s[|s| - 1]))
    ensures Trim([SPACE] + s) == s
  {
    assert ([SPACE] + s)[1..] == s;
    assert TrimLeft([SPACE] + s) == TrimLeft(s) == s;
  }

  lemma {:induction false} TrimRightEnd(s: seq<Byte>)
    ensures |TrimRight(s)| <= |s| && (s != [] && Blank(s[|s| - 1]) ==> |TrimRight(s)| < |s|)
    decreases |s|
  {
    if s != [] && Blank(s[|s| - 1]) { TrimRightEnd(s[..|s| - 1]); }
  }

  /** Plain text has no blanks but spaces. */
  lemma PlainEnds(v: seq<Byte>)
    requires !NeedsBase64(v) && v != []
    ensures !Blank(v[0]) && (Blank(v[|v| - 1]) <==> EndsInSpace(v))
  {
    assert Plain(v[0]) && Plain(v[|v| - 1]);
  }

  lemma EncodedTrim(c: Base64, v: seq<Byte>)
    requires Inverse(c)
    ensures Trim([SPACE] + c.encode(v)) == c.encode(v)
  {
    TrimNone(c.encode(v));
  }

  /** A value loses exactly what is trimmed on its right. */
  lemma KeptExactly(v: seq<Byte>)
    ensures Kept(v) == v <==> ValueOk(v)
    ensures v != [] ==> Kept(v) != []
  {
    if !NeedsBase64(v) && v != [] {
      PlainEnds(v);
      TrimRightEnd(v);
      TrimRightStart(v);
    }
  }

  lemma {:induction false} TrimRightStart(v: seq<Byte>)
    requires v != [] && !Blank(v[0])
    ensures TrimRight(v) != []
    decreases |v|
  {
    if Blank(v[|v| - 1]) { TrimRightStart(v[..|v| - 1]); }
  }

  /** A line gives back its name and what is left of its value. */
  lemma LineRead(c: Base64, name: Name, v: seq<Byte>)
    requires Inverse(c) && LowerAll(name) == name && COLON !in name
    ensures ReadPair(c, ValueLine(c, name, v)) == Ok(Pair(name, Kept(v)))
  {
    hide NeedsBase64, Trim, Find, LowerAll, TrimRight;
    var line := ValueLine(c, name, v);
    assert line[|name|] == COLON;
    FindFirst(COLON, line, |name|);
    assert line[..|name|] == name;
    var rest := line[|name| + 1..];
    if NeedsBase64(v) {
      assert rest == [COLON, SPACE] + c.encode(v);
      assert rest[1..] == [SPACE] + c.encode(v);
      EncodedTrim(c, v);
    } else {
      assert rest == [SPACE] + v;
      PlainTrim(v);
    }
  }

  /** A value comes back from its line exactly when it is not plain text ending in a space. */
  lemma ValueRoundTrip(c: Base64, name: Name, v: seq<Byte>)
    requires Inverse(c) && LowerAll(name) == name && COLON !in name
    ensures ReadPair(c, ValueLine(c, name, v)) == Ok(Pair(name, v)) <==> ValueOk(v)
  {
    hide ValueLine, ReadPair, Kept, ValueOk;
    LineRead(c, name, v);
    KeptExactly(v);
  }

  lemma FindFirst(b: Byte, s: seq<Byte>, i: nat)
    requires i < |s| && s[i] == b && b !in s[..i]
    ensures Find(b, s) == i
  {
    assert forall k :: 0 <= k < i ==> s[k] == s[..i][k];
  }

  lemma PlainTrim(v: seq<Byte>)
    requires !NeedsBase64(v)
    ensures Trim([SPACE] + v) == TrimRight(v)
  {
    hide NeedsBase64;
    if v != [] { PlainEnds(v); }
    assert ([SPACE] + v)[1..] == v;
    assert TrimLeft([SPACE] + v) == TrimLeft(v) == v;
  }

  lemma DnStarts(c: Base64, dn: Name)
    ensures var line := ValueLine(c, DN_NAME, dn); |line| >= 3 && line[0] == 100 && StartsEntry(line)
  {
    hide NeedsBase64;
    var line := ValueLine(c, DN_NAME, dn);
    assert LowerAll(line)[..3] == DN_NAME + [COLON];
  }

  lemma EncodedDn(c: Base64, dn: Name)
    requires Inverse(c) && dn != [] && NeedsBase64(dn)
    ensures |ValueLine(c, DN_NAME, dn)| >= 3 && ReadDn(c, ValueLine(c, DN_NAME, dn)) == Ok(dn)
  {
    hide NeedsBase64, Trim;
    var line := ValueLine(c, DN_NAME, dn);
    assert line[..2] == DN_NAME && line[2..4] == [COLON, COLON] && line[4..] == [SPACE] + c.encode(dn);
    EncodedTrim(c, dn);
  }

  lemma PlainDn(c: Base64, dn: Name)
    requires dn != [] && !NeedsBase64(dn)
    ensures |ValueLine(c, DN_NAME, dn)| >= 3 && ReadDn(c, ValueLine(c, DN_NAME, dn)) == Ok(Kept(dn))
  {
    hide NeedsBase64, Trim, TrimRight;
    var line := ValueLine(c, DN_NAME, dn);
    assert line[2..4] == [COLON, SPACE] && line[3..] == [SPACE] + dn;
    KeptExactly(dn);
    PlainTrim(dn);
  }

  /** A DN line starts an entry and gives back what is left of its DN. */
  lemma DnRoundTrip(c: Base64, dn: Name)
    requires Inverse(c) && dn != []
    ensures var line := ValueLine(c, DN_NAME, dn);
            |line| >= 3 && line[0] == 100 && StartsEntry(line) && ReadDn(c, line) == Ok(Kept(dn))
  {
    hide ValueLine, StartsEntry, ReadDn, NeedsBase64, Inverse, TrimRight;
    DnStarts(c, dn);
    if NeedsBase64(dn) { EncodedDn(c, dn); } else { PlainDn(c, dn); }
  }

  /** The line of a well-named value is none of the special kinds. */
  lemma OrdinaryLine(c: Base64, name: Name, v: seq<Byte>)
    requires NameOk(name)
    ensures var line := ValueLine(c, name, v);
            line != [] && line[0] != SPACE && line[0] != HASH && !StartsEntry(line)
  {
    hide NeedsBase64;
    var line := ValueLine(c, name, v);
    assert line[|name|] == COLON;
    if name == [] { assert line[0] == COLON; } else { assert line[0] == name[0]; }
    if |line| >= 3 {
      var low := LowerAll(line);
      var first := low[..3];
      if |name| > 2 {
        assert first[2] == low[2] == LowerAll(name)[2] == name[2] && name[2] in name;
      } else if |name| == 2 {
        assert first[0] == LowerAll(name)[0] == name[0] && first[1] == LowerAll(name)[1] == name[1];
        assert name == [name[0], name[1]];
      } else {
        assert first[|name|] == low[|name|] == COLON;
      }
    }
  }

  // ------------------------------------------------------ lines to entries and back

  /** The entry with the values put in, one after the other. */
  ghost function AddAll(e: Entry, ps: seq<Pair>): Entry
    decreases |ps|
  {
    if ps == [] then e else AddAll(AddValue(e, ps[0].name, ps[0].value), ps[1..])
  }

  /** The values as they are read back. */
  ghost function KeptPairs(ps: seq<Pair>): seq<Pair> {
    if ps == [] then [] else [Pair(ps[0].name, Kept(ps[0].value))] + KeptPairs(ps[1..])
  }

  ghost predicate AllNamed(ps: seq<Pair>) {
    forall k :: 0 <= k < |ps| ==> NameOk(ps[k].name)
  }

  /** Reading the value lines of an entry, each processed when the next line is seen. */
  lemma {:induction false} PairLinesBack(c: Base64, done: seq<Entry>, e: Entry, ps: seq<Pair>, rest: seq<seq<Byte>>)
    requires Inverse(c) && AllNamed(ps) && e.dn != []
    ensures ReadLines(c, Progress(done, Some(e), []), PairLines(c, ps) + [[]] + rest) ==
            ReadLines(c, Progress(done + [AddAll(e, KeptPairs(ps))], None, []), rest)
    decreases |ps|
  {
    hide ReadPair, ValueLine, NameOk, Kept, StartsEntry, ReadDn, Inverse;
    var p := Progress(done, Some(e), []);
    if ps == [] {
      var all := PairLines(c, ps) + [[]] + rest;
      assert all == [[]] + rest && all[1..] == rest;
    } else {
      var line := ValueLine(c, ps[0].name, ps[0].value);
      OrdinaryLine(c, ps[0].name, ps[0].value);
      var all := PairLines(c, ps) + [[]] + rest;
      assert all[0] == line && all[1..] == PairLines(c, ps[1..]) + [[]] + rest;
      PendingBack(c, done, e, ps, rest);
    }
  }

  lemma NameParts(name: Name)
    requires NameOk(name)
    ensures LowerAll(name) == name && COLON !in name
  {
  }

  /** The next line puts the pending value into the entry; an empty line finishes the entry, another
      value's line is pending in its turn. */
  lemma Settles(c: Base64, done: seq<Entry>, e: Entry, p: Pair, line: seq<Byte>)
    requires Inverse(c) && NameOk(p.name) && e.dn != []
    requires line != [] ==> line[0] != SPACE && line[0] != HASH && !StartsEntry(line)
    ensures var next := AddValue(e, p.name, Kept(p.value));
            ReadLine(c, Progress(done, Some(e), ValueLine(c, p.name, p.value)), line) ==
            Ok(if line == [] then Progress(done + [next], None, []) else Progress(done, Some(next), line))
  {
    hide ReadPair, ValueLine, NameOk, Kept, StartsEntry, ReadDn, Inverse;
    NameParts(p.name);
    LineRead(c, p.name, p.value);
    OrdinaryLine(c, p.name, p.value);
  }

  lemma ReadLinesStep(c: Base64, p: Progress, q: Progress, lines: seq<seq<Byte>>)
    requires lines != [] && ReadLine(c, p, lines[0]) == Ok(q)
    ensures ReadLines(c, p, lines) == ReadLines(c, q, lines[1..])
  {
    hide ReadLine;
  }

  lemma KeptPairsStep(e: Entry, ps: seq<Pair>)
    requires ps != []
    ensures AddAll(e, KeptPairs(ps)) == AddAll(AddValue(e, ps[0].name, Kept(ps[0].value)), KeptPairs(ps[1..]))
  {
    hide Kept;
    assert KeptPairs(ps)[1..] == KeptPairs(ps[1..]);
  }

  lemma PairLinesStep(c: Base64, ps: seq<Pair>, rest: seq<seq<Byte>>)
    ensures var all := PairLines(c, ps) + [[]] + rest;
            if ps == [] then all[0] == [] && all[1..] == rest
            else all[0] == ValueLine(c, ps[0].name, ps[0].value) && all[1..] == PairLines(c, ps[1..]) + [[]] + rest
  {
    hide ValueLine;
  }

  /** With the first value's line pending, the next line settles it. */
  lemma {:induction false} PendingBack(c: Base64, done: seq<Entry>, e: Entry, ps: seq<Pair>, rest: seq<seq<Byte>>)
    requires Inverse(c) && AllNamed(ps) && e.dn != [] && ps != []
    ensures ReadLines(c, Progress(done, Some(e), ValueLine(c, ps[0].name, ps[0].value)),
                      PairLines(c, ps[1..]) + [[]] + rest) ==
            ReadLines(c, Progress(done + [AddAll(e, KeptPairs(ps))], None, []), rest)
    decreases |ps|
  {
    hide ReadLine, ReadLines, ValueLine, NameOk, Kept, StartsEntry, Inverse, PairLines, AddAll, KeptPairs;
    var p := Progress(done, Some(e), ValueLine(c, ps[0].name, ps[0].value));
    var next := AddValue(e, ps[0].name, Kept(ps[0].value));
    var all := PairLines(c, ps[1..]) + [[]] + rest;
    KeptPairsStep(e, ps);
    PairLinesStep(c, ps[1..], rest);
    if |ps| == 1 {
      Settles(c, done, e, ps[0], []);
      ReadLinesStep(c, p, Progress(done + [next], None, []), all);
      NothingAdded(next);
    } else {
      OrdinaryLine(c, ps[1].name, ps[1].value);
      Settles(c, done, e, ps[0], all[0]);
      ReadLinesStep(c, p, Progress(done, Some(next), all[0]), all);
      assert ps[1..][0] == ps[1] && ps[1..][1..] == ps[2..];
      PendingBack(c, done, next, ps[1..], rest);
    }
  }

  lemma NothingAdded(e: Entry)
    ensures AddAll(e, KeptPairs([])) == e
  {
  }

  // --------------------------------------------------------- the attributes come back

  lemma {:induction false} AddValues(e: Entry, name: Name, vs: Values)
    requires vs != []
    ensures AddAll(e, PairsOf(name, vs)) ==
            e.(attributes := e.attributes[name := (if name in e.attributes then e.attributes[name] else []) + vs])
    decreases |vs|
  {
    var before: Values := if name in e.attributes then e.attributes[name] else [];
    var e1 := AddValue(e, name, vs[0]);
    assert PairsOf(name, vs)[1..] == PairsOf(name, vs[1..]);
    if |vs| == 1 {
      assert vs == [vs[0]];
      assert PairsOf(name, vs[1..]) == [];
    } else {
      AddValues(e1, name, vs[1..]);
      assert before + [vs[0]] + vs[1..] == before + vs;
      assert e1.attributes[name := before + vs] == e.attributes[name := before + vs];
    }
  }

  lemma {:induction false} AddAllConcat(e: Entry, a: seq<Pair>, b: seq<Pair>)
    ensures AddAll(e, a + b) == AddAll(AddAll(e, a), b)
    decreases |a|
  {
    if a == [] {
      assert a + b == b;
    } else {
      assert (a + b)[1..] == a[1..] + b;
      AddAllConcat(AddValue(e, a[0].name, a[0].value), a[1..], b);
    }
  }

  /** Names new to the entry are added with their values. */
  lemma {:induction false} AddPairs(e: Entry, order: seq<Name>, m: Attributes)
    requires forall x :: x in order ==> x in m && m[x] != [] && x !in e.attributes
    requires forall j, k :: 0 <= j < k < |order| ==> order[j] != order[k]
    ensures AddAll(e, Pairs(order, m)) == e.(attributes := Added(e.attributes, order, m))
    decreases |order|
  {
    if order != [] {
      var name, others := order[0], order[1..];
      assert name in order;
      AddAllConcat(e, PairsOf(name, m[name]), Pairs(others, m));
      AddValues(e, name, m[name]);
      assert [] + m[name] == m[name];
      forall x | x in others
        ensures x in order && x != name
      {
        var k :| 0 <= k < |others| && others[k] == x;
        assert order[k + 1] == x;
      }
      AddPairs(e.(attributes := e.attributes[name := m[name]]), others, m);
    }
  }

  /** All values of an entry, added to its bare DN, make the entry. */
  lemma PairsRebuild(e: Entry, order: seq<Name>)
    requires Enumerates(order, e.attributes) && forall x :: x in e.attributes ==> e.attributes[x] != []
    ensures AddAll(Entry(e.dn, map[]), Pairs(order, e.attributes)) == e
  {
    hide AddAll, Pairs, Added;
    AddPairs(Entry(e.dn, map[]), order, e.attributes);
    AddedContents(map[], order, e.attributes);
    assert Added(map[], order, e.attributes) == e.attributes;
  }

  function KeptAll(vs: Values): (r: Values)
    ensures |r| == |vs| && forall k :: 0 <= k < |vs| ==> r[k] == Kept(vs[k])
  {
    if vs == [] then [] else [Kept(vs[0])] + KeptAll(vs[1..])
  }

  /** The attributes as they are read back. */
  ghost function KeptMap(order: seq<Name>, m: Attributes): (r: Attributes)
    requires forall x :: x in order ==> x in m
    ensures forall x :: x in r <==> x in order
    ensures forall x :: x in order ==> r[x] == KeptAll(m[x])
  {
    if order == [] then map[]
    else
      assert forall x :: x in order <==> x == order[0] || x in order[1..];
      KeptMap(order[1..], m)[order[0] := KeptAll(m[order[0]])]
  }

  /** The entry as it is read back. */
  ghost function Stored(e: Entry, order: seq<Name>): Entry
    requires Enumerates(order, e.attributes)
  {
    Entry(Kept(e.dn), KeptMap(order, e.attributes))
  }

  lemma {:induction false} KeptPairsOf(name: Name, vs: Values)
    ensures KeptPairs(PairsOf(name, vs)) == PairsOf(name, KeptAll(vs))
    decreases |vs|
  {
    hide Kept;
    if vs != [] {
      KeptPairsOf(name, vs[1..]);
      assert PairsOf(name, vs)[1..] == PairsOf(name, vs[1..]) && KeptAll(vs)[1..] == KeptAll(vs[1..]);
    }
  }

  lemma {:induction false} KeptConcat(a: seq<Pair>, b: seq<Pair>)
    ensures KeptPairs(a + b) == KeptPairs(a) + KeptPairs(b)
    decreases |a|
  {
    hide Kept;
    if a == [] {
      assert a + b == b;
    } else {
      assert (a + b)[1..] == a[1..] + b;
      KeptConcat(a[1..], b);
    }
  }

  lemma {:induction false} KeptPairsAll(order: seq<Name>, m: Attributes, kept: Attributes)
    requires forall x :: x in order ==> x in m && x in kept && kept[x] == KeptAll(m[x])
    ensures KeptPairs(Pairs(order, m)) == Pairs(order, kept)
    decreases |order|
  {
    hide KeptPairs, KeptAll, PairsOf;
    if order == [] {
      NoPairs();
    } else {
      assert order[0] in order;
      KeptConcat(PairsOf(order[0], m[order[0]]), Pairs(order[1..], m));
      KeptPairsOf(order[0], m[order[0]]);
      KeptPairsAll(order[1..], m, kept);
    }
  }

  lemma NoPairs()
    ensures KeptPairs([]) == []
  {
  }

  /** All values of an entry as they are read, added to its bare DN, make the entry as it is read. */
  lemma StoredRebuild(e: Entry, order: seq<Name>)
    requires Enumerates(order, e.attributes) && forall x :: x in e.attributes ==> e.attributes[x] != []
    ensures AddAll(Entry(Kept(e.dn), map[]), KeptPairs(Pairs(order, e.attributes))) == Stored(e, order)
  {
    hide Kept, KeptPairs, Pairs, AddAll;
    var s := Stored(e, order);
    KeptPairsAll(order, e.attributes, s.attributes);
    forall x | x in s.attributes ensures s.attributes[x] != [] {
      assert |s.attributes[x]| == |e.attributes[x]|;
    }
    PairsRebuild(s, order);
  }

  /** An entry is read back as itself exactly when none of its values loses anything. */
  lemma StoredExactly(e: Entry, order: seq<Name>)
    requires Enumerates(order, e.attributes)
    ensures Stored(e, order) == e <==> ValuesOk(e)
  {
    hide Kept, ValueOk;
    var s := Stored(e, order);
    KeptExactly(e.dn);
    forall v: seq<Byte> ensures Kept(v) == v <==> ValueOk(v) { KeptExactly(v); }
    if ValuesOk(e) {
      forall x | x in e.attributes ensures s.attributes[x] == e.attributes[x] {
        assert forall k :: 0 <= k < |e.attributes[x]| ==> Kept(e.attributes[x][k]) == e.attributes[x][k];
      }
      assert s.attributes == e.attributes;
    }
    if s == e {
      forall x | x in e.attributes
        ensures forall k :: 0 <= k < |e.attributes[x]| ==> ValueOk(e.attributes[x][k])
      {
        assert KeptAll(e.attributes[x]) == e.attributes[x];
      }
    }
  }

  lemma {:induction false} PairsOfOk(c: Base64, name: Name, vs: Values)
    requires NameOk(name)
    requires forall k :: 0 <= k < |vs| ==> |ValueLine(c, name, vs[k])| <= MAX_LINE
    ensures forall k :: 0 <= k < |PairsOf(name, vs)| ==> PairOk(c, PairsOf(name, vs)[k])
    decreases |vs|
  {
    hide NameOk, ValueLine;
    if vs != [] { PairsOfOk(c, name, vs[1..]); }
  }

  lemma {:induction false} PairsOk(c: Base64, e: Entry, order: seq<Name>)
    requires EntryOk(c, e) && forall x :: x in order ==> x in e.attributes
    ensures forall k :: 0 <= k < |Pairs(order, e.attributes)| ==> PairOk(c, Pairs(order, e.attributes)[k])
    decreases |order|
  {
    hide NameOk, ValueLine, PairOk;
    if order != [] {
      assert order[0] in order;
      PairsOfOk(c, order[0], e.attributes[order[0]]);
      PairsOk(c, e, order[1..]);
    }
  }

  lemma {:induction false} NamesOf(name: Name, vs: Values)
    requires NameOk(name)
    ensures AllNamed(PairsOf(name, vs))
    decreases |vs|
  {
    hide NameOk;
    if vs != [] { NamesOf(name, vs[1..]); }
  }

  lemma {:induction false} PairsNamed(e: Entry, order: seq<Name>)
    requires EntryNamed(e) && forall x :: x in order ==> x in e.attributes
    ensures AllNamed(Pairs(order, e.attributes))
    decreases |order|
  {
    hide NameOk;
    if order != [] {
      assert order[0] in order;
      NamesOf(order[0], e.attributes[order[0]]);
      PairsNamed(e, order[1..]);
    }
  }

  /** One entry's lines are read as that entry. */
  lemma EntryLinesBack(c: Base64, done: seq<Entry>, e: Entry, order: seq<Name>, rest: seq<seq<Byte>>)
    requires Inverse(c) && EntryNamed(e) && Enumerates(order, e.attributes)
    ensures ReadLines(c, Progress(done, None, []), EntryLines(c, e, order) + rest) ==
            ReadLines(c, Progress(done + [Stored(e, order)], None, []), rest)
  {
    hide ValueLine, NameOk, StartsEntry, ReadDn, Inverse, AllNamed, Pairs, PairLines, Stored, Kept, KeptPairs;
    var ps := Pairs(order, e.attributes);
    var line := ValueLine(c, DN_NAME, e.dn);
    var all := EntryLines(c, e, order) + rest;
    assert all[0] == line && all[1..] == PairLines(c, ps) + [[]] + rest;
    DnRoundTrip(c, e.dn);
    KeptExactly(e.dn);
    PairsNamed(e, order);
    StoredRebuild(e, order);
    PairLinesBack(c, done, Entry(Kept(e.dn), map[]), ps, rest);
  }

  // ------------------------------------------------------------------- whole files

  /** An entry and the order in which its attributes are written. */
  datatype Item = Item(entry: Entry, order: seq<Name>)

  ghost predicate Writable(items: seq<Item>) {
    forall k :: 0 <= k < |items| ==> Enumerates(items[k].order, items[k].entry.attributes)
  }

  ghost function FileLines(c: Base64, items: seq<Item>): seq<seq<Byte>>
    requires Writable(items)
  {
    if items == [] then [] else EntryLines(c, items[0].entry, items[0].order) + FileLines(c, items[1..])
  }

  ghost function EntriesOf(items: seq<Item>): seq<Entry> {
    if items == [] then [] else [items[0].entry] + EntriesOf(items[1..])
  }

  ghost predicate ItemsNamed(items: seq<Item>) {
    forall k :: 0 <= k < |items| ==> EntryNamed(items[k].entry)
  }

  ghost predicate ItemsOk(c: Base64, items: seq<Item>) {
    forall k :: 0 <= k < |items| ==> EntryOk(c, items[k].entry)
  }

  /** The entries as they are read back. */
  ghost function StoredOf(items: seq<Item>): seq<Entry>
    requires Writable(items)
  {
    if items == [] then [] else [Stored(items[0].entry, items[0].order)] + StoredOf(items[1..])
  }

  lemma {:induction false} FileLinesBack(c: Base64, done: seq<Entry>, items: seq<Item>)
    requires Inverse(c) && Writable(items) && ItemsNamed(items)
    ensures ReadLines(c, Progress(done, None, []), FileLines(c, items)) ==
            Ok(Progress(done + StoredOf(items), None, []))
    decreases |items|
  {
    hide EntryLines, EntryNamed, Enumerates, ReadLines, Inverse, Stored, StoredOf, FileLines;
    if items == [] {
      NoFile(c, done);
    } else {
      var first := Stored(items[0].entry, items[0].order);
      FileStep(c, items);
      EntryLinesBack(c, done, items[0].entry, items[0].order, FileLines(c, items[1..]));
      FileLinesBack(c, done + [first], items[1..]);
      assert done + [first] + StoredOf(items[1..]) == done + ([first] + StoredOf(items[1..]));
    }
  }

  lemma NoFile(c: Base64, done: seq<Entry>)
    ensures Writable([]) && FileLines(c, []) == [] && StoredOf([]) == [] && done + [] == done
    ensures ReadLines(c, Progress(done, None, []), []) == Ok(Progress(done, None, []))
  {
  }

  lemma FileStep(c: Base64, items: seq<Item>)
    requires Writable(items) && items != []
    ensures FileLines(c, items) == EntryLines(c, items[0].entry, items[0].order) + FileLines(c, items[1..])
    ensures StoredOf(items) == [Stored(items[0].entry, items[0].order)] + StoredOf(items[1..])
  {
    hide EntryLines, Enumerates, Stored;
  }

  /** Every value and DN of every entry survives. */
  ghost predicate AllValuesOk(items: seq<Item>) {
    forall k :: 0 <= k < |items| ==> ValuesOk(items[k].entry)
  }

  lemma {:induction false} StoredOfExactly(items: seq<Item>)
    requires Writable(items)
    ensures StoredOf(items) == EntriesOf(items) <==> AllValuesOk(items)
    ensures |StoredOf(items)| == |EntriesOf(items)| == |items|
    decreases |items|
  {
    hide Enumerates, ValuesOk, Stored;
    if items != [] {
      StoredExactly(items[0].entry, items[0].order);
      StoredOfExactly(items[1..]);
      var s, e := StoredOf(items), EntriesOf(items);
      assert s[1..] == StoredOf(items[1..]) && e[1..] == EntriesOf(items[1..]);
      assert s == [s[0]] + s[1..] && e == [e[0]] + e[1..];
      assert AllValuesOk(items) <==> ValuesOk(items[0].entry) && AllValuesOk(items[1..]) by {
        assert forall k :: 1 <= k < |items| ==> items[k] == items[1..][k - 1];
        assert forall k :: 0 <= k < |items| - 1 ==> items[1..][k] == items[k + 1];
      }
    }
  }

  /** A line the scanner returns as it was written. */
  predicate Scannable(line: seq<Byte>) {
    NEWLINE !in line && |line| <= MAX_LINE && DropReturn(line) == line
  }

  ghost predicate AllScannable(lines: seq<seq<Byte>>) {
    forall k :: 0 <= k < |lines| ==> Scannable(lines[k])
  }

  lemma ValueScannable(c: Base64, name: Name, v: seq<Byte>)
    requires Inverse(c) && NEWLINE !in name && |ValueLine(c, name, v)| <= MAX_LINE
    ensures Scannable(ValueLine(c, name, v))
  {
    var line := ValueLine(c, name, v);
    if NeedsBase64(v) {
      assert forall k :: 0 <= k < |c.encode(v)| ==> !Blank(c.encode(v)[k]);
      assert c.encode(v) != [];
      assert line[|line| - 1] == c.encode(v)[|c.encode(v)| - 1];
    } else {
      assert forall k :: 0 <= k < |v| ==> Plain(v[k]);
      if v != [] { assert line[|line| - 1] == v[|v| - 1]; } else { assert line[|line| - 1] == SPACE; }
    }
  }

  lemma NameLine(name: Name)
    requires NameOk(name)
    ensures NEWLINE !in name
  {
  }

  lemma {:induction false} PairLinesScannable(c: Base64, ps: seq<Pair>)
    requires Inverse(c) && forall k :: 0 <= k < |ps| ==> PairOk(c, ps[k])
    ensures AllScannable(PairLines(c, ps))
    decreases |ps|
  {
    hide ValueLine, NameOk, Scannable, Inverse;
    if ps != [] {
      assert PairOk(c, ps[0]);
      NameLine(ps[0].name);
      ValueScannable(c, ps[0].name, ps[0].value);
      PairLinesScannable(c, ps[1..]);
    }
  }

  lemma EntryScannable(c: Base64, e: Entry, order: seq<Name>)
    requires Inverse(c) && EntryOk(c, e) && Enumerates(order, e.attributes)
    ensures AllScannable(EntryLines(c, e, order))
  {
    hide ValueLine, NameOk, Inverse, PairOk, Pairs, PairLines, Scannable;
    PairsOk(c, e, order);
    PairLinesScannable(c, Pairs(order, e.attributes));
    DnNameLine();
    ValueScannable(c, DN_NAME, e.dn);
    EmptyScannable();
  }

  lemma DnNameLine()
    ensures NEWLINE !in DN_NAME
  {
  }

  lemma EmptyScannable()
    ensures Scannable([])
  {
  }

  lemma {:induction false} FileScannable(c: Base64, items: seq<Item>)
    requires Inverse(c) && Writable(items) && ItemsOk(c, items)
    ensures AllScannable(FileLines(c, items))
    decreases |items|
  {
    hide EntryLines, EntryOk, Enumerates, Inverse, Scannable;
    if items != [] {
      EntryScannable(c, items[0].entry, items[0].order);
      FileScannable(c, items[1..]);
    }
  }

  /** The scanner recovers the lines of a text. */
  lemma {:induction false} SplitText(lines: seq<seq<Byte>>)
    requires AllScannable(lines)
    ensures SplitLines(Text(lines)) == lines && Scanned(lines) == lines
    decreases |lines|
  {
    hide Find;
    if lines != [] {
      assert Scannable(lines[0]);
      var s := Text(lines);
      var n := |lines[0]|;
      assert s[..n] == lines[0] && s[n] == NEWLINE && s[n + 1..] == Text(lines[1..]);
      FindFirst(NEWLINE, s, n);
      SplitText(lines[1..]);
      assert [lines[0]] + lines[1..] == lines;
    }
  }

  /** The LDIF round trip: any list of entries, written with the attributes in any order, is parsed back
      with values in order, each without the spaces that plain text ended in. The entries come back as they
      were if and only if no value and no DN is plain text ending in a space. */
  lemma FileRoundTrip(c: Base64, items: seq<Item>)
    requires Inverse(c) && Writable(items) && ItemsOk(c, items)
    ensures Parse(c, Text(FileLines(c, items))) == Ok(StoredOf(items))
    ensures Parse(c, Text(FileLines(c, items))) == Ok(EntriesOf(items)) <==> AllValuesOk(items)
  {
    hide Text, FileLines, SplitLines, Scanned, Inverse, Writable, EntryNamed, ReadLines, AllValuesOk;
    FileScannable(c, items);
    SplitText(FileLines(c, items));
    FileLinesBack(c, [], items);
    assert [] + StoredOf(items) == StoredOf(items);
    StoredOfExactly(items);
  }
}
