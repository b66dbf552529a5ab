/** The stream around the blocks: a writer that cuts its input into 64 KB blocks with an eight-byte
    header each, and a reader that puts them together again. */
module LzStream {
  import opened Bytes
  import opened LzBlock

  const BLOCK_SIZE := 64 * 1024

  // ------------------------------------------------------------------- framing

  datatype Block = Block(text: seq<Byte>, packed: seq<Byte>)

  ghost predicate Good(b: Block) {
    0 < |b.text| <= BLOCK_SIZE && |b.packed| < 0x1_0000_0000 && Decode(b.packed, []) == b.text
  }

  ghost predicate AllGood(bs: seq<Block>) {
    forall k :: 0 <= k < |bs| ==> Good(bs[k])
  }

  lemma GoodBlock(b: Block)
    requires 0 < |b.text| <= BLOCK_SIZE && Decode(b.packed, []) == b.text
    requires |b.packed| <= |b.text| + |b.text| / 255 + 16
    ensures Good(b)
  {
  }

  function Frame(b: Block): seq<Byte> {
    LittleEndian(4, |b.text|) + LittleEndian(4, |b.packed|) + b.packed
  }

  const END_MARKER: seq<Byte> := [0, 0, 0, 0, 0, 0, 0, 0]

  function Frames(bs: seq<Block>): seq<Byte> {
    if bs == [] then [] else Frame(bs[0]) + Frames(bs[1..])
  }

  function Texts(bs: seq<Block>): seq<Byte> {
    if bs == [] then [] else bs[0].text + Texts(bs[1..])
  }

  lemma {:induction false} FramesSnoc(bs: seq<Block>, b: Block)
    ensures Frames(bs + [b]) == Frames(bs) + Frame(b)
  {
    hide Frame;
    var all := bs + [b];
    if bs == [] {
      assert all[1..] == [];
    } else {
      assert all[0] == bs[0] && all[1..] == bs[1..] + [b];
      FramesSnoc(bs[1..], b);
    }
  }

  lemma {:induction false} TextsSnoc(bs: seq<Block>, b: Block)
    ensures Texts(bs + [b]) == Texts(bs) + b.text
  {
    var all := bs + [b];
    if bs == [] {
      assert all[1..] == [];
    } else {
      assert all[0] == bs[0] && all[1..] == bs[1..] + [b];
      TextsSnoc(bs[1..], b);
    }
  }

  // ----------------------------------------------------------- what a reader sees

  datatype Status = Ok | Eof | UnexpectedEof

  /** io.ReadFull distinguishes nothing at all from too little. */
  function Short(available: seq<Byte>): Status {
    if available == [] then Eof else UnexpectedEof
  }

  /** readBlock: the next block's text and what is left of the source. */
  function NextBlock(src: seq<Byte>): (r: (Status, seq<Byte>, seq<Byte>))
    ensures |r.2| <= |src| && (r.0.Ok? ==> |r.2| < |src|)
    ensures r.0.UnexpectedEof? ==> r.2 == []
  {
    if |src| < 8 then (Short(src), [], [])
    else
      var originalSize := FromLittleEndian(src[..4]);
      var compressedSize := FromLittleEndian(src[4..8]);
      var body := src[8..];
      if originalSize == 0 && compressedSize == 0 then (Eof, [], body)
      else if compressedSize > |body| then (Short(body), [], [])
      else (Ok, Decode(body[..compressedSize], []), body[compressedSize..])
  }

  /** All the text a reader can get from a source. */
  function StreamText(src: seq<Byte>): seq<Byte>
    decreases |src|
  {
    var (status, text, rest) := NextBlock(src);
    if status.Ok? then text + StreamText(rest) else []
  }

  lemma NextGood(b: Block, rest: seq<Byte>)
    requires Good(b)
    ensures NextBlock(Frame(b) + rest) == (Ok, b.text, rest)
  {
    var src := Frame(b) + rest;
    Widths();
    FieldFits(4, |b.text|);
    FieldFits(4, |b.packed|);
    assert src[..4] == LittleEndian(4, |b.text|);
    assert src[4..8] == LittleEndian(4, |b.packed|);
    assert src[8..] == b.packed + rest;
    assert src[8..][..|b.packed|] == b.packed && src[8..][|b.packed|..] == rest;
  }

  lemma NextEnd(rest: seq<Byte>)
    ensures NextBlock(END_MARKER + rest).0 == Eof
  {
    var src := END_MARKER + rest;
    assert src[..4] == [0, 0, 0, 0] && src[4..8] == [0, 0, 0, 0];
    var z: seq<Byte> := [0, 0, 0, 0];
    assert z[1..] == [0, 0, 0] && z[1..][1..] == [0, 0] && z[1..][1..][1..] == [0];
    assert FromLittleEndian(z) == 0;
  }

  /** A closed stream reads back as the concatenation of its blocks' texts. */
  lemma {:induction false} StreamRoundTrip(bs: seq<Block>, after: seq<Byte>)
    requires AllGood(bs)
    ensures StreamText(Frames(bs) + END_MARKER + after) == Texts(bs)
    decreases |bs|
  {
    if bs == [] {
      assert Frames(bs) + END_MARKER + after == END_MARKER + after;
      NextEnd(after);
    } else {
      var rest := Frames(bs[1..]) + END_MARKER + after;
      assert Frames(bs) + END_MARKER + after == Frame(bs[0]) + rest;
      NextGood(bs[0], rest);
      StreamRoundTrip(bs[1..], after);
    }
  }

  // ------------------------------------------------------------------ the writer

  class CompressWriter {
    const hash: seq<Byte> -> nat
    const buffer: array<Byte>
    const hashTable: array<nat>
    var out: seq<Byte>          // what the underlying writer has received
    var bufferPos: nat
    var written: nat
    var totalInput: nat
    var closed: bool
    ghost var blocks: seq<Block>
    ghost var input: seq<Byte>  // everything accepted by Write

    ghost predicate Valid()
      reads this, buffer, hashTable
    {
      && buffer.Length == BLOCK_SIZE && hashTable.Length == HASH_TABLE_SIZE
      && (forall d :: hash(d) < HASH_TABLE_SIZE)
      && (forall h :: 0 <= h < HASH_TABLE_SIZE ==> hashTable[h] == 0)
      && bufferPos <= BLOCK_SIZE && (closed ==> bufferPos == 0)
      && AllGood(blocks)
      && out == Frames(blocks) + (if closed then END_MARKER else [])
      && input == Texts(blocks) + buffer[..bufferPos]
      && written == |out| && totalInput == |input|
    }

    constructor (hash: seq<Byte> -> nat)
      requires forall d :: hash(d) < HASH_TABLE_SIZE
      ensures Valid() && fresh(buffer) && fresh(hashTable)
      ensures input == [] && !closed
    {
      this.hash := hash;
      buffer := new Byte[BLOCK_SIZE](i => 0);
      hashTable := new nat[HASH_TABLE_SIZE](i => 0);
      out, bufferPos, written, totalInput, closed := [], 0, 0, 0, false;
      blocks, input := [], [];
    }

    method FlushBuffer()
      requires Valid() && !closed
      modifies this, hashTable
      ensures Valid() && !closed && bufferPos == 0 && input == old(input)
    {
      hide Decode, LittleEndian, Frames, Texts, Good;
      if bufferPos == 0 {
        return;
      }
      var compressed := Compress(buffer[..bufferPos], hashTable, hash);
      ghost var b := Block(buffer[..bufferPos], compressed);
      GoodBlock(b);
      FramesSnoc(blocks, b);
      TextsSnoc(blocks, b);
      var header := LittleEndian(4, bufferPos) + LittleEndian(4, |compressed|);
      assert (out + header) + compressed == out + Frame(b);
      out := out + header;
      written := written + 8;
      out := out + compressed;
      written := written + |compressed|;
      blocks := blocks + [b];
      bufferPos := 0;
      assert buffer[..0] == [];
      for i := 0 to HASH_TABLE_SIZE
        modifies hashTable
        invariant forall h :: 0 <= h < i ==> hashTable[h] == 0
      {
        hashTable[i] := 0;
      }
    }

    /** Accepts all of p, or nothing once closed. */
    method Write(p: seq<Byte>) returns (n: nat, ok: bool)
      requires Valid()
      modifies this, buffer, hashTable
      ensures Valid() && closed == old(closed) && ok == !closed
      ensures n == if ok then |p| else 0
      ensures input == if ok then old(input) + p else old(input)
    {
      hide Frames, Texts, AllGood;
      n := 0;
      if closed {
        return n, false;
      }
      var rest := p;
      while rest != []
        invariant Valid() && !closed
        invariant n + |rest| == |p| && rest == p[n..] && input == old(input) + p[..n]
        decreases |rest|
      {
        var space := BLOCK_SIZE - bufferPos;
        if space == 0 {
          FlushBuffer();
          space := BLOCK_SIZE;
        }
        var toCopy := |rest|;
        if toCopy > space {
          toCopy := space;
        }
        Fill(rest[..toCopy]);
        DropTake(p, n, toCopy);
        assert p[..n] + p[n..n + toCopy] == p[..n + toCopy];
        rest := rest[toCopy..];
        n := n + toCopy;
      }
      ok := true;
    }

    /** copy(cw.buffer[cw.bufferPos:], chunk) */
    method Fill(chunk: seq<Byte>)
      requires Valid() && !closed && bufferPos + |chunk| <= BLOCK_SIZE
      modifies this, buffer
      ensures Valid() && !closed && input == old(input) + chunk
    {
      hide Frames, Texts, AllGood;
      CopyInto(buffer, bufferPos, chunk);
      bufferPos := bufferPos + |chunk|;
      totalInput := totalInput + |chunk|;
      input := input + chunk;
    }

    method Close()
      requires Valid()
      modifies this, hashTable
      ensures Valid() && closed && input == old(input)
      ensures StreamText(out) == input
    {
      hide Frames, Texts, AllGood, StreamText;
      if !closed {
        FlushBuffer();
        closed := true;
        out := out + END_MARKER;
        written := written + 8;
      }
      StreamRoundTrip(blocks, []);
      assert Frames(blocks) + END_MARKER + [] == out && buffer[..0] == [];
    }
  }

  // ------------------------------------------------------------------ the reader

  class DecompressReader {
    var src: seq<Byte>     // what the underlying reader still has
    var buffer: seq<Byte>
    var bufferPos: nat
    var totalRead: nat
    var eof: bool

    ghost predicate Valid()
      reads this
    {
      bufferPos <= |buffer| && (eof ==> bufferPos == |buffer|)
    }

    /** The text not yet handed out. */
    ghost function Pending(): seq<Byte>
      requires Valid()
      reads this
    {
      buffer[bufferPos..] + (if eof then [] else StreamText(src))
    }

    constructor (src: seq<Byte>)
      ensures Valid() && Pending() == StreamText(src)
    {
      this.src := src;
      buffer, bufferPos, totalRead, eof := [], 0, 0, false;
    }

    method ReadBlock() returns (err: Status)
      requires Valid() && bufferPos == |buffer| && !eof
      modifies this
      ensures Valid() && !eof
      ensures (err, src) == (NextBlock(old(src)).0, NextBlock(old(src)).2)
      ensures err.Ok? ==> Pending() == old(Pending()) && |src| < |old(src)|
      ensures !err.Ok? ==> old(Pending()) == [] && bufferPos == |buffer|
    {
      if |src| < 8 {
        err := if src == [] then Eof else UnexpectedEof;
        src := [];
        return;
      }
      var originalSize := FromLittleEndian(src[..4]);
      var compressedSize := FromLittleEndian(src[4..8]);
      src := src[8..];
      if originalSize == 0 && compressedSize == 0 {
        return Eof;
      }
      if compressedSize > |src| {
        err := if src == [] then Eof else UnexpectedEof;
        src := [];
        return;
      }
      buffer := Decompress(src[..compressedSize]);
      src := src[compressedSize..];
      bufferPos := 0;
      totalRead := totalRead + |buffer|;
      err := Ok;
    }

    /** Fills p from the front with the next pending bytes; falls short only when nothing is left. */
    method Read(p: array<Byte>) returns (n: nat, err: Status)
      requires Valid()
      modifies this, p
      ensures Valid() && n <= p.Length
      ensures p[..n] + Pending() == old(Pending())
      ensures n < p.Length ==> Pending() == []
      ensures err.Eof? ==> n == 0 && Pending() == []
    {
      n, err := 0, Ok;
      if eof && bufferPos >= |buffer| {
        return 0, Eof;
      }
      while n < p.Length
        invariant Valid() && n <= p.Length
        invariant p[..n] + Pending() == old(Pending())
        invariant !eof && err.Ok?
        decreases |src|, p.Length - n
      {
        if bufferPos >= |buffer| {
          err := ReadBlock();
          if !err.Ok? {
            assert p[..n] == old(Pending());
            if err.Eof? {
              eof := true;
              if n > 0 {
                err := Ok;
              }
            }
            return;
          }
        }
        n := Take(p, n);
      }
    }

    /** copy(p, dr.buffer[...]) from position n on. */
    method Take(p: array<Byte>, n: nat) returns (m: nat)
      requires Valid() && n <= p.Length
      modifies this`bufferPos, p
      ensures Valid() && n <= m <= p.Length
      ensures p[..m] + Pending() == old(p[..n] + Pending())
      ensures m < p.Length ==> bufferPos == |buffer|
      ensures old(bufferPos) < |buffer| && n < p.Length ==> m > n
    {
      hide StreamText;
      var toCopy := p.Length - n;
      if toCopy > |buffer| - bufferPos {
        toCopy := |buffer| - bufferPos;
      }
      ghost var was := p[..n];
      CopyInto(p, n, buffer[bufferPos..bufferPos + toCopy]);
      assert buffer[bufferPos..] == buffer[bufferPos..bufferPos + toCopy] + buffer[bufferPos + toCopy..];
      bufferPos := bufferPos + toCopy;
      m := n + toCopy;
    }
  }

  /** Go's copy(p[at:], chunk) for a chunk that fits. */
  method CopyInto(p: array<Byte>, at: nat, chunk: seq<Byte>)
    requires at + |chunk| <= p.Length
    modifies p
    ensures p[..at + |chunk|] == old(p[..at]) + chunk
  {
    for i := 0 to |chunk|
      invariant p[..at + i] == old(p[..at]) + chunk[..i]
    {
      p[at + i] := chunk[i];
      assert p[..at + i + 1] == p[..at + i] + [chunk[i]];
      assert chunk[..i + 1] == chunk[..i] + [chunk[i]];
    }
    assert chunk[..|chunk|] == chunk;
  }

  // ---------------------------------------------------------------- the round trip

  function Join(chunks: seq<seq<Byte>>): seq<Byte> {
    if chunks == [] then [] else Join(chunks[..|chunks| - 1]) + chunks[|chunks| - 1]
  }

  function Sum(sizes: seq<nat>): nat {
    if sizes == [] then 0 else Sum(sizes[..|sizes| - 1]) + sizes[|sizes| - 1]
  }

  function Prefix(s: seq<Byte>, n: nat): seq<Byte> {
    if n <= |s| then s[..n] else s
  }

  /** Whatever the chunks written and the sizes read, what comes out is what went in, up to as much
      as was asked for. */
  method Transfer(chunks: seq<seq<Byte>>, sizes: seq<nat>, hash: seq<Byte> -> nat) returns (got: seq<Byte>)
    requires forall d :: hash(d) < HASH_TABLE_SIZE
    ensures got == Prefix(Join(chunks), Sum(sizes))
  {
    var stream := WriteAll(chunks, hash);
    got := ReadAll(stream, sizes);
  }

  /** In particular with the program's own hash function. */
  method Backup(chunks: seq<seq<Byte>>, sizes: seq<nat>) returns (got: seq<Byte>)
    ensures got == Prefix(Join(chunks), Sum(sizes))
  {
    got := Transfer(chunks, sizes, Hash4);
  }

  method WriteAll(chunks: seq<seq<Byte>>, hash: seq<Byte> -> nat) returns (stream: seq<Byte>)
    requires forall d :: hash(d) < HASH_TABLE_SIZE
    ensures StreamText(stream) == Join(chunks)
  {
    hide Frames, Texts, AllGood, StreamText;
    var w := new CompressWriter(hash);
    for i := 0 to |chunks|
      invariant w.Valid() && !w.closed && w.input == Join(chunks[..i])
      invariant fresh(w) && fresh(w.buffer) && fresh(w.hashTable)
    {
      var _, _ := w.Write(chunks[i]);
      assert chunks[..i + 1][..i] == chunks[..i];
    }
    assert chunks[..|chunks|] == chunks;
    w.Close();
    stream := w.out;
  }

  /** One Read into a fresh buffer of the given size. */
  method ReadOnce(r: DecompressReader, size: nat) returns (chunk: seq<Byte>)
    requires r.Valid()
    modifies r
    ensures r.Valid() && chunk + r.Pending() == old(r.Pending())
    ensures |chunk| <= size && (|chunk| < size ==> r.Pending() == [])
  {
    hide StreamText;
    var p := new Byte[size](k => 0);
    var n, _ := r.Read(p);
    chunk := p[..n];
  }

  lemma PrefixReached(all: seq<Byte>, got: seq<Byte>, pending: seq<Byte>, n: nat)
    requires got + pending == all && |got| <= n && (|got| < n ==> pending == [])
    ensures got == Prefix(all, n)
  {
    assert all[..|got|] == got;
  }

  lemma SumSnoc(sizes: seq<nat>, i: nat)
    requires i < |sizes|
    ensures Sum(sizes[..i + 1]) == Sum(sizes[..i]) + sizes[i]
  {
    assert sizes[..i + 1][..i] == sizes[..i];
  }

  lemma SumNone(sizes: seq<nat>)
    ensures Sum(sizes[..0]) == 0
  {
  }

  lemma Regroup(got: seq<Byte>, chunk: seq<Byte>, left: seq<Byte>)
    ensures got + (chunk + left) == got + chunk + left
  {
  }

  method ReadAll(stream: seq<Byte>, sizes: seq<nat>) returns (got: seq<Byte>)
    ensures got == Prefix(StreamText(stream), Sum(sizes))
  {
    hide StreamText, Prefix, Sum;
    var r := new DecompressReader(stream);
    got := [];
    SumNone(sizes);
    for i := 0 to |sizes|
      invariant r.Valid() && fresh(r) && got + r.Pending() == StreamText(stream)
      invariant |got| <= Sum(sizes[..i]) && (|got| < Sum(sizes[..i]) ==> r.Pending() == [])
    {
      SumSnoc(sizes, i);
      var chunk := ReadOnce(r, sizes[i]);
      Regroup(got, chunk, r.Pending());
      got := got + chunk;
    }
    assert sizes[..|sizes|] == sizes;
    PrefixReached(StreamText(stream), got, r.Pending(), Sum(sizes));
  }
}
