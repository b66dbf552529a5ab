/** Folded LDIF (RFC 2849): a line may be broken anywhere into a first piece and pieces that each follow a
    space, and comment lines may stand between lines. The reader sees the same entries, except that it
    joins neither a folded DN nor a folded comment. */
module LdifFolding {
  import opened Bytes
  import opened EntryCodec
  import opened Ldif

  type Line = seq<Byte>

  // --------------------------------------------------------------------- folded lines

  /** One line of the unfolded text: the comment lines in front of it and the pieces it is broken into. */
  datatype Fold = Fold(comments: seq<Line>, pieces: seq<Line>)

  function Joined(pieces: seq<Line>): Line {
    if pieces == [] then [] else pieces[0] + Joined(pieces[1..])
  }

  /** Each piece on a line of its own, behind a space. */
  function Continued(pieces: seq<Line>): seq<Line> {
    if pieces == [] then [] else [[SPACE] + pieces[0]] + Continued(pieces[1..])
  }

  predicate AreComments(lines: seq<Line>) {
    forall k :: 0 <= k < |lines| ==> lines[k] != [] && lines[k][0] == HASH
  }

  /** A line that is broken has something on its first line and is neither a comment nor a DN line, and
      comments do not separate a continuation from what it continues. */
  predicate FoldOk(f: Fold) {
    && f.pieces != [] && AreComments(f.comments)
    && (f.comments != [] && Joined(f.pieces) != [] ==> Joined(f.pieces)[0] != SPACE)
    && (|f.pieces| > 1 ==> f.pieces[0] != [] && f.pieces[0][0] != HASH && !StartsEntry(Joined(f.pieces)))
  }

  predicate AllFoldOk(folds: seq<Fold>) {
    forall k :: 0 <= k < |folds| ==> FoldOk(folds[k])
  }

  function Physical(f: Fold): seq<Line>
    requires f.pieces != []
  {
    f.comments + [f.pieces[0]] + Continued(f.pieces[1..])
  }

  function PhysicalLines(folds: seq<Fold>): seq<Line>
    requires AllFoldOk(folds)
  {
    if folds == [] then [] else Physical(folds[0]) + PhysicalLines(folds[1..])
  }

  function LogicalLines(folds: seq<Fold>): seq<Line> {
    if folds == [] then [] else [Joined(folds[0].pieces)] + LogicalLines(folds[1..])
  }

  // ---------------------------------------------------------------- reading them is alike

  /** Equal but for a pending line that belongs to no entry. */
  predicate Same(p: Progress, q: Progress) {
    p == q || (p.current.None? && q.current.None? && p.finished == q.finished)
  }

  predicate Alike(r: Result<Progress>, s: Result<Progress>) {
    if r.Err? then s == r else s.Ok? && Same(r.value, s.value)
  }

  lemma LineAlike(c: Base64, p: Progress, q: Progress, line: Line)
    requires Same(p, q)
    ensures Alike(ReadLine(c, p, line), ReadLine(c, q, line))
  {
    hide ReadPair, ReadDn, StartsEntry;
  }

  lemma {:induction false} ReadLinesConcat(c: Base64, p: Progress, a: seq<Line>, b: seq<Line>)
    ensures var r := ReadLines(c, p, a);
            ReadLines(c, p, a + b) == if r.Err? then r else ReadLines(c, r.value, b)
    decreases |a|
  {
    hide ReadLine;
    if a == [] {
      assert a + b == b;
    } else {
      assert (a + b)[1..] == a[1..] + b;
      var q := ReadLine(c, p, a[0]);
      if q.Ok? { ReadLinesConcat(c, q.value, a[1..], b); }
    }
  }

  lemma OneLine(c: Base64, p: Progress, line: Line)
    ensures ReadLines(c, p, [line]) == ReadLine(c, p, line)
  {
    hide ReadLine;
    assert [line][1..] == [];
  }

  lemma SpaceLine(c: Base64, p: Progress, piece: Line)
    ensures ReadLine(c, p, [SPACE] + piece) == Ok(p.(pending := p.pending + piece))
  {
    assert ([SPACE] + piece)[1..] == piece;
  }

  lemma NoLines(c: Base64, p: Progress)
    ensures ReadLines(c, p, []) == Ok(p)
  {
  }

  /** Continuations extend the pending line. */
  lemma {:induction false} ContinuedRead(c: Base64, p: Progress, pieces: seq<Line>)
    ensures ReadLines(c, p, Continued(pieces)) == Ok(p.(pending := p.pending + Joined(pieces)))
    decreases |pieces|
  {
    hide ReadLine, ReadLines, Joined, Continued;
    if pieces == [] {
      NoPieces(p.pending);
      NoLines(c, p);
    } else {
      var next := p.(pending := p.pending + pieces[0]);
      PiecesStep(pieces, p.pending);
      SpaceLine(c, p, pieces[0]);
      ReadLinesStep(c, p, next, Continued(pieces));
      ContinuedRead(c, next, pieces[1..]);
    }
  }

  lemma NoPieces(before: Line)
    ensures Continued([]) == [] && before + Joined([]) == before
  {
  }

  lemma PiecesStep(pieces: seq<Line>, before: Line)
    requires pieces != []
    ensures Continued(pieces) != [] && Continued(pieces)[0] == [SPACE] + pieces[0]
    ensures Continued(pieces)[1..] == Continued(pieces[1..])
    ensures (before + pieces[0]) + Joined(pieces[1..]) == before + Joined(pieces)
  {
    assert (before + pieces[0]) + Joined(pieces[1..]) == before + (pieces[0] + Joined(pieces[1..]));
  }

  /** Comments do no more than settle the pending line. */
  lemma {:induction false} CommentsRead(c: Base64, p: Progress, comments: seq<Line>)
    requires AreComments(comments) && comments != []
    ensures ReadLines(c, p, comments) == Flush(c, p)
    decreases |comments|
  {
    hide ReadPair;
    var q := Flush(c, p);
    assert ReadLine(c, p, comments[0]) == q;
    if q.Ok? && |comments| > 1 { CommentsRead(c, q.value, comments[1..]); }
  }

  /** Settling twice is settling once, and a line that is no continuation settles first itself. */
  lemma SettledLine(c: Base64, p: Progress, line: Line)
    requires line == [] || line[0] != SPACE
    ensures var q := Flush(c, p);
            if q.Err? then ReadLine(c, p, line) == q else ReadLine(c, q.value, line) == ReadLine(c, p, line)
    ensures Flush(c, p).Ok? ==> Flush(c, Flush(c, p).value) == Flush(c, p)
  {
    hide ReadPair, ReadDn, StartsEntry;
  }

  lemma FirstPiece(first: Line, line: Line)
    requires first <= line && !StartsEntry(line)
    ensures !StartsEntry(first)
  {
    if |first| >= 3 {
      assert forall k :: 0 <= k < 3 ==> LowerAll(first)[k] == LowerAll(line)[k];
      assert LowerAll(first)[..3] == LowerAll(line)[..3];
    }
  }

  /** A broken line is read like the whole one. */
  lemma PiecesAlike(c: Base64, p: Progress, pieces: seq<Line>)
    requires |pieces| > 1 && pieces[0] != [] && pieces[0][0] != HASH && !StartsEntry(Joined(pieces))
    ensures Alike(ReadLines(c, p, [pieces[0]] + Continued(pieces[1..])), ReadLine(c, p, Joined(pieces)))
  {
    hide ReadPair, ReadDn, StartsEntry, ReadLines;
    var first, line := pieces[0], Joined(pieces);
    assert first <= line && line[0] == first[0] && line[1..] == first[1..] + Joined(pieces[1..]);
    FirstPiece(first, line);
    ReadLinesConcat(c, p, [first], Continued(pieces[1..]));
    OneLine(c, p, first);
    var r := ReadLine(c, p, first);
    if r.Ok? {
      ContinuedRead(c, r.value, pieces[1..]);
      assert p.pending + first[1..] + Joined(pieces[1..]) == p.pending + line[1..];
    }
  }

  lemma OnePiece(pieces: seq<Line>)
    requires |pieces| == 1
    ensures Joined(pieces) == pieces[0] && [pieces[0]] + Continued(pieces[1..]) == [pieces[0]]
  {
    assert pieces[1..] == [];
  }

  /** So is a line with its comments. */
  lemma FoldAlike(c: Base64, p: Progress, f: Fold)
    requires FoldOk(f)
    ensures Alike(ReadLines(c, p, Physical(f)), ReadLine(c, p, Joined(f.pieces)))
  {
    hide ReadLine, ReadLines, Flush, StartsEntry, Joined, Continued;
    var body := [f.pieces[0]] + Continued(f.pieces[1..]);
    forall q: Progress
      ensures Alike(ReadLines(c, q, body), ReadLine(c, q, Joined(f.pieces)))
    {
      if |f.pieces| == 1 {
        OnePiece(f.pieces);
        OneLine(c, q, f.pieces[0]);
      } else {
        PiecesAlike(c, q, f.pieces);
      }
    }
    assert Physical(f) == f.comments + body;
    if f.comments == [] {
      assert Physical(f) == body;
    } else {
      ReadLinesConcat(c, p, f.comments, body);
      CommentsRead(c, p, f.comments);
      SettledLine(c, p, Joined(f.pieces));
    }
  }

  lemma {:induction false} FoldsAlike(c: Base64, p: Progress, q: Progress, folds: seq<Fold>)
    requires AllFoldOk(folds) && Same(p, q)
    ensures Alike(ReadLines(c, p, PhysicalLines(folds)), ReadLines(c, q, LogicalLines(folds)))
    decreases |folds|
  {
    hide ReadLine, Physical, Joined, StartsEntry;
    if folds != [] {
      var line := Joined(folds[0].pieces);
      FoldAlike(c, p, folds[0]);
      LineAlike(c, p, q, line);
      ReadLinesConcat(c, p, Physical(folds[0]), PhysicalLines(folds[1..]));
      assert LogicalLines(folds)[0] == line && LogicalLines(folds)[1..] == LogicalLines(folds[1..]);
      var r, s := ReadLines(c, p, Physical(folds[0])), ReadLine(c, q, line);
      if r.Ok? { FoldsAlike(c, r.value, s.value, folds[1..]); }
    }
  }

  // -------------------------------------------------------------------------- whole texts

  /** What Parse makes of lines. */
  function ParseLines(c: Base64, lines: seq<Line>): Result<seq<Entry>> {
    var p :- ReadLines(c, START, lines);
    var q :- Flush(c, p);
    var r :- Finish(q);
    Ok(r.finished)
  }

  lemma ParseScannable(c: Base64, lines: seq<Line>)
    requires AllScannable(lines)
    ensures Parse(c, Text(lines)) == ParseLines(c, lines)
  {
    hide ReadLines, Flush, Finish, SplitLines, Scanned, Text;
    SplitText(lines);
  }

  lemma EndAlike(c: Base64, p: Progress, q: Progress)
    requires Same(p, q)
    ensures Flush(c, p).Err? ==> Flush(c, q) == Flush(c, p)
    ensures Flush(c, p).Ok? ==> Flush(c, q).Ok? && Flush(c, q).value == Flush(c, p).value
  {
    hide ReadPair;
  }

  lemma LinesAlike(c: Base64, folds: seq<Fold>, trailing: seq<Line>)
    requires AllFoldOk(folds) && AreComments(trailing)
    ensures ParseLines(c, PhysicalLines(folds) + trailing) == ParseLines(c, LogicalLines(folds))
  {
    hide ReadLines, Flush, PhysicalLines, LogicalLines, AllFoldOk;
    FoldsAlike(c, START, START, folds);
    ReadLinesConcat(c, START, PhysicalLines(folds), trailing);
    var r, s := ReadLines(c, START, PhysicalLines(folds)), ReadLines(c, START, LogicalLines(folds));
    if r.Ok? {
      EndAlike(c, r.value, s.value);
      if trailing == [] {
        assert PhysicalLines(folds) + trailing == PhysicalLines(folds);
      } else {
        CommentsRead(c, r.value, trailing);
        SettledLine(c, r.value, []);
      }
    }
  }

  /** Folding is invisible: any text, well-formed or not, with its lines broken in any way (DN lines and
      comments excepted) and comments between them, is read, or refused, like the text unfolded. */
  lemma FoldingInvisible(c: Base64, folds: seq<Fold>, trailing: seq<Line>)
    requires AllFoldOk(folds) && AreComments(trailing)
    requires AllScannable(PhysicalLines(folds) + trailing) && AllScannable(LogicalLines(folds))
    ensures Parse(c, Text(PhysicalLines(folds) + trailing)) == Parse(c, Text(LogicalLines(folds)))
  {
    hide Parse, ParseLines, PhysicalLines, LogicalLines, AllScannable, AllFoldOk, AreComments;
    ParseScannable(c, PhysicalLines(folds) + trailing);
    ParseScannable(c, LogicalLines(folds));
    LinesAlike(c, folds, trailing);
  }

  /** So the round trip holds for every folded text of the entries, with values of any length: only the
      pieces must be short enough for the scanner. */
  lemma FoldedRoundTrip(c: Base64, items: seq<Item>, folds: seq<Fold>, trailing: seq<Line>)
    requires Inverse(c) && Writable(items) && ItemsNamed(items)
    requires AllFoldOk(folds) && AreComments(trailing) && LogicalLines(folds) == FileLines(c, items)
    requires AllScannable(PhysicalLines(folds) + trailing)
    ensures Parse(c, Text(PhysicalLines(folds) + trailing)) == Ok(StoredOf(items))
    ensures Parse(c, Text(PhysicalLines(folds) + trailing)) == Ok(EntriesOf(items)) <==> AllValuesOk(items)
  {
    hide Parse, Text, ReadLines, FileLines, PhysicalLines, LogicalLines, AllFoldOk, AreComments, AllScannable, Inverse,
         ItemsNamed, Writable, AllValuesOk;
    ParseScannable(c, PhysicalLines(folds) + trailing);
    LinesAlike(c, folds, trailing);
    FileLinesBack(c, [], items);
    assert [] + StoredOf(items) == StoredOf(items);
    StoredOfExactly(items);
  }

  // ------------------------------------------------------------------ what may not be folded

  lemma EntryStart(line: Line)
    requires StartsEntry(line)
    ensures |line| >= 3 && line[0] != SPACE && line[0] != HASH
  {
    assert LowerAll(line)[..3][0] == LowerAll(line)[0];
  }

  lemma StartExtends(line: Line, piece: Line)
    requires StartsEntry(line)
    ensures StartsEntry(line + piece)
  {
    assert forall k :: 0 <= k < 3 ==> LowerAll(line + piece)[k] == LowerAll(line)[k];
    assert LowerAll(line + piece)[..3] == LowerAll(line)[..3];
  }

  /** A pending line shows when the entry ends: it is an error, or a value more. */
  lemma PendingShows(c: Base64, done: seq<Entry>, e: Entry, piece: Line)
    requires e.dn != []
    ensures var r := ReadLine(c, Progress(done, Some(e), piece), []);
            && (piece == [] ==> r == Ok(Progress(done + [e], None, [])))
            && (piece != [] && r.Ok? ==> |r.value.finished| == |done| + 1 &&
                                         r.value.finished[|done|].attributes != e.attributes)
  {
    hide ReadPair;
    var r := ReadPair(c, piece);
    if piece != [] && r.Ok? {
      var e' := AddValue(e, r.value.name, r.value.value);
      assert r.value.name in e.attributes ==>
               |e'.attributes[r.value.name]| == |e.attributes[r.value.name]| + 1;
    }
  }

  lemma ThreeLines(c: Base64, p: Progress, a: Line, b: Line)
    ensures var r := ReadLine(c, p, a);
            var t := if r.Err? then r else ReadLine(c, r.value, b);
            && ReadLines(c, p, [a, b]) == t
            && ReadLines(c, p, [a, b, []]) == if t.Err? then t else ReadLine(c, t.value, [])
  {
    hide ReadLine, ReadLines;
    ReadLinesConcat(c, p, [a], [b]);
    ReadLinesConcat(c, p, [a, b], [[]]);
    assert [a] + [b] == [a, b] && [a, b] + [[]] == [a, b, []];
    OneLine(c, p, a);
    var r := ReadLine(c, p, a);
    if r.Ok? {
      OneLine(c, r.value, b);
      var t := ReadLine(c, r.value, b);
      if t.Ok? { OneLine(c, t.value, []); }
    }
  }

  /** A folded DN is cut at the fold and its continuation taken for an attribute: where the whole line would
      be read, the fold is invisible exactly if nothing follows it. */
  lemma FoldedDn(c: Base64, p: Progress, line: Line, piece: Line)
    requires StartsEntry(line) && ReadLines(c, p, [line + piece, []]).Ok?
    ensures ReadLines(c, p, [line, [SPACE] + piece, []]) == ReadLines(c, p, [line + piece, []]) <==> piece == []
  {
    hide ReadPair, ReadDn, StartsEntry, ReadLines;
    EntryStart(line);
    StartExtends(line, piece);
    EntryStart(line + piece);
    ThreeLines(c, p, line, [SPACE] + piece);
    ThreeLines(c, p, line + piece, []);
    assert ([SPACE] + piece)[1..] == piece && [] + piece == piece;
    var q := Flush(c, p);
    var dn := ReadDn(c, line);
    if piece == [] { assert line + piece == line; }
    if dn.Ok? {
      DnRead(c, line);
      PendingShows(c, q.value.finished, Entry(dn.value, map[]), piece);
    }
  }

  lemma DnRead(c: Base64, line: Line)
    requires |line| >= 3 && ReadDn(c, line).Ok?
    ensures ReadDn(c, line).value != []
  {
  }

  /** Inside an entry the continuation of a comment is taken for an attribute. */
  lemma FoldedComment(c: Base64, done: seq<Entry>, e: Entry, text: Line, piece: Line)
    requires e.dn != []
    ensures var p := Progress(done, Some(e), []);
            ReadLines(c, p, [[HASH] + text, [SPACE] + piece, []]) == ReadLines(c, p, [[HASH] + text + piece, []])
            <==> piece == []
  {
    hide ReadPair, ReadDn, StartsEntry, ReadLines;
    var p := Progress(done, Some(e), []);
    ThreeLines(c, p, [HASH] + text, [SPACE] + piece);
    ThreeLines(c, p, [HASH] + text + piece, []);
    assert ([SPACE] + piece)[1..] == piece && [] + piece == piece;
    PendingShows(c, done, e, piece);
  }

  // -------------------------------------------------------------------- lines too long

  lemma {:induction false} ScannedShort(raw: seq<Line>)
    ensures |Scanned(raw)| == |raw| <==> forall k :: 0 <= k < |raw| ==> |raw[k]| <= MAX_LINE
    decreases |raw|
  {
    hide DropReturn;
    if raw != [] && |raw[0]| <= MAX_LINE {
      ScannedShort(raw[1..]);
      assert forall k :: 1 <= k < |raw| ==> raw[k] == raw[1..][k - 1];
      assert forall k :: 0 <= k < |raw| - 1 ==> raw[1..][k] == raw[k + 1];
    }
  }

  /** A text with a line that is too long is refused, whatever else is in it. */
  lemma LongLineRefused(c: Base64, text: Line, k: nat)
    requires k < |SplitLines(text)| && |SplitLines(text)[k]| > MAX_LINE
    ensures Parse(c, text).Err?
  {
    hide ReadLines, Flush, Finish, SplitLines, Scanned;
    ScannedShort(SplitLines(text));
  }

  // ------------------------------------------------------------------ what may be written

  /** SAFE-STRING of RFC 2849. */
  predicate SafeString(v: Line) {
    && (v != [] ==> v[0] != SPACE && v[0] != COLON && v[0] != LESS)
    && forall k :: 0 <= k < |v| ==> 0 < v[k] <= 127 && v[k] != NEWLINE && v[k] != RETURN
  }

  /** A value is written as it is exactly when it is a SAFE-STRING without control characters. */
  lemma WrittenPlain(v: Line)
    ensures !NeedsBase64(v) <==> SafeString(v) && forall k :: 0 <= k < |v| ==> 0x20 <= v[k] != 127
  {
    if !NeedsBase64(v) { assert forall k :: 0 <= k < |v| ==> Plain(v[k]); }
  }

  // ------------------------------------------------------------------------- other forms

  /** Lines ended by a carriage return and a line break. */
  function WithReturns(lines: seq<Line>): (r: seq<Line>)
    ensures |r| == |lines| && forall k :: 0 <= k < |lines| ==> r[k] == lines[k] + [RETURN]
  {
    if lines == [] then [] else [lines[0] + [RETURN]] + WithReturns(lines[1..])
  }

  lemma {:induction false} SplitReturns(lines: seq<Line>)
    requires forall k :: 0 <= k < |lines| ==> NEWLINE !in lines[k] && |lines[k]| < MAX_LINE
    ensures SplitLines(Text(WithReturns(lines))) == WithReturns(lines) && Scanned(WithReturns(lines)) == lines
    decreases |lines|
  {
    hide Find;
    if lines != [] {
      var first := lines[0] + [RETURN];
      var s := Text(WithReturns(lines));
      var n := |first|;
      assert WithReturns(lines)[1..] == WithReturns(lines[1..]);
      assert s[..n] == first && s[n] == NEWLINE && s[n + 1..] == Text(WithReturns(lines[1..]));
      FindFirst(NEWLINE, s, n);
      SplitReturns(lines[1..]);
      assert first[..n - 1] == lines[0];
      assert [lines[0]] + lines[1..] == lines;
    }
  }

  /** Either kind of line end will do. */
  lemma ReturnsInvisible(c: Base64, lines: seq<Line>)
    requires AllScannable(lines) && forall k :: 0 <= k < |lines| ==> |lines[k]| < MAX_LINE
    ensures Parse(c, Text(WithReturns(lines))) == Parse(c, Text(lines))
  {
    hide ReadLines, Flush, Finish, SplitLines, Scanned, Text;
    SplitText(lines);
    assert forall k :: 0 <= k < |lines| ==> Scannable(lines[k]);
    SplitReturns(lines);
  }

  /** Trimming takes the blanks off both ends and nothing else. */
  lemma TrimExactly(s: Line) returns (before: Line, after: Line)
    ensures s == before + Trim(s) + after
    ensures (forall k :: 0 <= k < |before| ==> Blank(before[k])) && forall k :: 0 <= k < |after| ==> Blank(after[k])
    ensures Trim(s) != [] ==> !Blank(Trim(s)[0]) && !Blank(Trim(s)[|Trim(s)| - 1])
  {
    before := LeftBlanks(s);
    after := RightBlanks(TrimLeft(s));
  }

  lemma {:induction false} LeftBlanks(s: Line) returns (before: Line)
    ensures s == before + TrimLeft(s) && forall k :: 0 <= k < |before| ==> Blank(before[k])
    ensures TrimLeft(s) != [] ==> !Blank(TrimLeft(s)[0])
    decreases |s|
  {
    before := [];
    if s != [] && Blank(s[0]) {
      var more := LeftBlanks(s[1..]);
      before := [s[0]] + more;
    }
  }

  lemma {:induction false} RightBlanks(s: Line) returns (after: Line)
    ensures s == TrimRight(s) + after && forall k :: 0 <= k < |after| ==> Blank(after[k])
    ensures TrimRight(s) != [] ==> !Blank(TrimRight(s)[|TrimRight(s)| - 1]) && TrimRight(s)[0] == s[0]
    decreases |s|
  {
    after := [];
    if s != [] && Blank(s[|s| - 1]) {
      var more := RightBlanks(s[..|s| - 1]);
      after := more + [s[|s| - 1]];
    }
  }

  /** Any value line, whatever its text: the name is lowered, a second colon announces base64, and without
      a colon there is no value. */
  lemma AnyValueLine(c: Base64, name: Name, rest: Line)
    requires COLON !in name
    ensures ReadPair(c, name) == Err(InvalidLdif)
    ensures (rest == [] || rest[0] != COLON) ==>
              ReadPair(c, name + [COLON] + rest) == Ok(Pair(LowerAll(name), Trim(rest)))
    ensures var r := ReadPair(c, name + [COLON, COLON] + rest);
            match c.decode(Trim(rest))
            case None => r == Err(InvalidBase64)
            case Some(v) => r == Ok(Pair(LowerAll(name), v))
  {
    hide Trim, LowerAll, Find;
    var plain, coded := name + [COLON] + rest, name + [COLON, COLON] + rest;
    assert plain[..|name|] == name && plain[|name| + 1..] == rest;
    assert coded[..|name|] == name && coded[|name| + 1..] == [COLON] + rest && ([COLON] + rest)[1..] == rest;
    FindFirst(COLON, plain, |name|);
    FindFirst(COLON, coded, |name|);
  }

  lemma AnyDnStarts(head: Name, rest: Line)
    requires |head| == 2 && LowerAll(head) == DN_NAME
    ensures StartsEntry(head + [COLON] + rest)
  {
    var line := head + [COLON] + rest;
    assert forall k :: 0 <= k < 2 ==> LowerAll(line)[k] == LowerAll(head)[k];
    assert LowerAll(line)[..3] == DN_NAME + [COLON];
  }

  /** A DN in plain text, behind "dn" in any case. */
  lemma AnyPlainDn(c: Base64, head: Name, rest: Line)
    requires |head| == 2 && (rest == [] || rest[0] != COLON)
    ensures ReadDn(c, head + [COLON] + rest) == if Trim(rest) == [] then Err(MissingDn) else Ok(Trim(rest))
  {
    hide Trim;
    var line := head + [COLON] + rest;
    assert line[3..] == rest;
    if rest != [] { assert line[2..4][1] == rest[0]; }
  }

  /** Base64 is decoded behind "dn" and "DN" only; behind "Dn" and "dN" the text with its colon is the DN. */
  lemma AnyCodedDn(c: Base64, head: Name, rest: Line)
    requires |head| == 2
    ensures var r := ReadDn(c, head + [COLON, COLON] + rest);
            if head != DN_NAME && head != [68, 78] then r == Ok(Trim([COLON] + rest))
            else
              match c.decode(Trim(rest))
              case None => r == if Trim(rest) == [] then Err(MissingDn) else Err(InvalidBase64)
              case Some(v) => r == if Trim(rest) == [] || v == [] then Err(MissingDn) else Ok(v)
  {
    hide Trim;
    var line := head + [COLON, COLON] + rest;
    assert line[..2] == head && line[2..4] == [COLON, COLON] && line[3..] == [COLON] + rest && line[4..] == rest;
    ColonStays(rest);
  }

  lemma ColonStays(rest: Line)
    ensures Trim([COLON] + rest) != []
  {
    TrimRightStart([COLON] + rest);
  }
}
