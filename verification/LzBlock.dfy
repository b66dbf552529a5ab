/** The block format of internal/backup/compress.go: a compressed block is a run of sequences, each
    some literal bytes followed by a copy of earlier output; the last may be literals alone. */
module LzBlock {
  import opened Bytes

  const MIN_MATCH := 4
  const MAX_MATCH := 255 + MIN_MATCH
  const MAX_OFFSET := 65535
  const HASH_TABLE_SIZE := 16384

  // ------------------------------------------------------------------ lengths

  /** What follows a nibble of 15: a run of 255s and a closing smaller byte. */
  function ExtraLength(n: nat): seq<Byte> {
    if n >= 255 then [255] + ExtraLength(n - 255) else [n]
  }

  function Nibble(n: nat): (r: nat)
    ensures r <= 15
  {
    if n >= 15 then 15 else n
  }

  function LengthTail(n: nat): seq<Byte> {
    if n >= 15 then ExtraLength(n - 15) else []
  }

  /** The decoder's loop: adds bytes until one is not 255 or the input ends. */
  function ReadExtra(acc: nat, s: seq<Byte>): (r: (nat, seq<Byte>))
    ensures |r.1| <= |s|
    decreases |s|
  {
    if s == [] then (acc, [])
    else if s[0] != 255 then (acc + s[0], s[1..])
    else ReadExtra(acc + 255, s[1..])
  }

  function ReadLength(nibble: nat, s: seq<Byte>): (r: (nat, seq<Byte>))
    ensures |r.1| <= |s|
  {
    if nibble == 15 then ReadExtra(15, s) else (nibble, s)
  }

  lemma {:induction false} ExtraRoundTrip(acc: nat, n: nat, rest: seq<Byte>)
    ensures ReadExtra(acc, ExtraLength(n) + rest) == (acc + n, rest)
    decreases n
  {
    var s := ExtraLength(n) + rest;
    if n >= 255 {
      assert s[1..] == ExtraLength(n - 255) + rest;
      ExtraRoundTrip(acc + 255, n - 255, rest);
    } else {
      assert s[1..] == rest;
    }
  }

  lemma LengthRoundTrip(n: nat, rest: seq<Byte>)
    ensures ReadLength(Nibble(n), LengthTail(n) + rest) == (n, rest)
  {
    if n >= 15 {
      ExtraRoundTrip(15, n - 15, rest);
    } else {
      assert LengthTail(n) + rest == rest;
    }
  }

  lemma {:induction false} ExtraLengthSize(n: nat)
    ensures |ExtraLength(n)| == n / 255 + 1
  {
    if n >= 255 { ExtraLengthSize(n - 255); }
  }

  // ----------------------------------------------------------------- sequences

  /** Literals, then a copy of `length` bytes from `offset` back. */
  datatype Sequence = Sequence(literals: seq<Byte>, offset: nat, length: nat)

  predicate Legal(q: Sequence) {
    1 <= q.offset <= MAX_OFFSET && MIN_MATCH <= q.length <= MAX_MATCH
  }

  function Encode(q: Sequence): seq<Byte>
    requires Legal(q)
  {
    [16 * Nibble(|q.literals|) + Nibble(q.length - MIN_MATCH)]
      + LengthTail(|q.literals|) + q.literals
      + [q.offset % 256, q.offset / 256]
      + LengthTail(q.length - MIN_MATCH)
  }

  function EncodeLiterals(literals: seq<Byte>): seq<Byte> {
    if literals == [] then []
    else [16 * Nibble(|literals|)] + LengthTail(|literals|) + literals
  }

  /** Copies byte by byte, so a copy may run into what it has just written. */
  function CopyMatch(dst: seq<Byte>, offset: nat, n: nat): (r: seq<Byte>)
    requires 1 <= offset <= |dst|
    ensures |r| == |dst| + n && dst <= r
    decreases n
  {
    if n == 0 then dst else CopyMatch(dst + [dst[|dst| - offset]], offset, n - 1)
  }

  function ReadOffset(s: seq<Byte>): nat
    requires |s| >= 2
  {
    s[0] as nat + 256 * (s[1] as nat)
  }

  /** The decoder, on what is left of the block and what it has written so far. Malformed input
      makes it stop early or skip a copy, never fail. */
  function Decode(src: seq<Byte>, dst: seq<Byte>): seq<Byte>
    decreases |src|
  {
    if src == [] then dst
    else
      var (literals, rest) := ReadLength(src[0] / 16, src[1..]);
      if literals > |rest| then dst
      else DecodeMatch(src[0] % 16, rest[literals..], dst + rest[..literals])
  }

  /** The second half of a sequence: offset, match length, copy; then on to the next sequence. */
  function DecodeMatch(nibble: nat, src: seq<Byte>, dst: seq<Byte>): seq<Byte>
    decreases |src|
  {
    if |src| < 2 then dst
    else
      var (extra, rest) := ReadLength(nibble, src[2..]);
      Decode(rest, if 0 < ReadOffset(src) <= |dst|
                   then CopyMatch(dst, ReadOffset(src), extra + MIN_MATCH) else dst)
  }

  // ------------------------------------------------------- decoding one sequence

  lemma DecodeSequence(q: Sequence, rest: seq<Byte>, dst: seq<Byte>)
    requires Legal(q) && q.offset <= |dst + q.literals|
    ensures Decode(Encode(q) + rest, dst) == Decode(rest, CopyMatch(dst + q.literals, q.offset, q.length))
  {
    hide LengthTail, ReadLength, CopyMatch;
    var src := Encode(q) + rest;
    var n, m := |q.literals|, q.length - MIN_MATCH;
    var tail2 := [q.offset % 256, q.offset / 256] + (LengthTail(m) + rest);
    var tail1 := q.literals + tail2;
    assert src[0] / 16 == Nibble(n) && src[0] % 16 == Nibble(m);
    assert src[1..] == LengthTail(n) + tail1;
    LengthRoundTrip(n, tail1);
    assert tail1[..n] == q.literals && tail1[n..] == tail2;
    assert Decode(src, dst) == DecodeMatch(Nibble(m), tail2, dst + q.literals);
    assert tail2[2..] == LengthTail(m) + rest && ReadOffset(tail2) == q.offset;
    LengthRoundTrip(m, rest);
  }

  lemma DecodeLiterals(literals: seq<Byte>, dst: seq<Byte>)
    ensures Decode(EncodeLiterals(literals), dst) == dst + literals
  {
    hide LengthTail, ReadLength, CopyMatch;
    if literals != [] {
      var src := EncodeLiterals(literals);
      var n := |literals|;
      assert src[0] / 16 == Nibble(n);
      assert src[1..] == LengthTail(n) + literals;
      LengthRoundTrip(n, literals);
      assert ReadLength(src[0] / 16, src[1..]) == (n, literals);
      assert literals[..n] == literals && literals[n..] == [];
    } else {
      assert dst + literals == dst;
    }
  }

  // ------------------------------------------------------------ the whole block

  /** What the sequences stand for. */
  ghost predicate Expands(qs: seq<Sequence>, text: seq<Byte>)
    decreases |qs|
  {
    if qs == [] then text == []
    else
      var q := qs[|qs| - 1];
      exists before: seq<Byte> ::
        && Expands(qs[..|qs| - 1], before)
        && Legal(q) && q.offset <= |before + q.literals|
        && text == CopyMatch(before + q.literals, q.offset, q.length)
  }

  ghost predicate AllLegal(qs: seq<Sequence>) {
    forall k :: 0 <= k < |qs| ==> Legal(qs[k])
  }

  ghost function EncodeAll(qs: seq<Sequence>): seq<Byte>
    requires AllLegal(qs)
  {
    if qs == [] then [] else EncodeAll(qs[..|qs| - 1]) + Encode(qs[|qs| - 1])
  }

  lemma {:induction false} DecodeAll(qs: seq<Sequence>, text: seq<Byte>, rest: seq<Byte>)
    requires AllLegal(qs) && Expands(qs, text)
    ensures Decode(EncodeAll(qs) + rest, []) == Decode(rest, text)
    decreases |qs|
  {
    hide Decode, CopyMatch, Encode;
    if qs == [] {
      assert EncodeAll(qs) + rest == rest;
    } else {
      var q := qs[|qs| - 1];
      var before: seq<Byte> :|
        && Expands(qs[..|qs| - 1], before)
        && Legal(q) && q.offset <= |before + q.literals|
        && text == CopyMatch(before + q.literals, q.offset, q.length);
      assert EncodeAll(qs) + rest == EncodeAll(qs[..|qs| - 1]) + (Encode(q) + rest);
      DecodeAll(qs[..|qs| - 1], before, Encode(q) + rest);
      DecodeSequence(q, rest, before);
    }
  }

  /** The n bytes at `at` repeat the ones at `earlier`. */
  ghost predicate Repeats(src: seq<Byte>, earlier: nat, at: nat, n: nat) {
    && earlier < at && at + n <= |src|
    && forall k :: at <= k < at + n ==> src[k] == src[k - at + earlier]
  }

  /** A copy of bytes that repeat earlier ones continues the text. */
  lemma {:induction false} CopyContinues(src: seq<Byte>, at: nat, offset: nat, n: nat)
    requires 1 <= offset <= at && Repeats(src, at - offset, at, n)
    ensures CopyMatch(src[..at], offset, n) == src[..at + n]
    decreases n
  {
    if n > 0 {
      assert src[at] == src[at - offset];
      assert src[..at] + [src[at]] == src[..at + 1];
      CopyContinues(src, at + 1, offset, n - 1);
    }
  }

  /** One more sequence: the literals since `from`, and a match found at `at`. */
  lemma {:induction false} ExpandsNext(qs: seq<Sequence>, src: seq<Byte>, from: nat, at: nat, matchPos: nat, n: nat)
    requires from <= at <= |src| && AllLegal(qs) && Expands(qs, src[..from])
    requires Repeats(src, matchPos, at, n)
    requires Legal(Sequence(src[from..at], at - matchPos, n))
    ensures var qs' := qs + [Sequence(src[from..at], at - matchPos, n)];
            && AllLegal(qs') && Expands(qs', src[..at + n])
            && EncodeAll(qs') == EncodeAll(qs) + Encode(Sequence(src[from..at], at - matchPos, n))
  {
    hide Encode, CopyMatch, Expands, EncodeAll;
    var q := Sequence(src[from..at], at - matchPos, n);
    assert src[..from] + q.literals == src[..at];
    CopyContinues(src, at, q.offset, n);
    ExpandsSnoc(qs, src[..from], q);
  }

  lemma {:induction false} ExpandsSnoc(qs: seq<Sequence>, before: seq<Byte>, q: Sequence)
    requires AllLegal(qs) && Expands(qs, before) && Legal(q) && q.offset <= |before + q.literals|
    ensures AllLegal(qs + [q]) && Expands(qs + [q], CopyMatch(before + q.literals, q.offset, q.length))
    ensures EncodeAll(qs + [q]) == EncodeAll(qs) + Encode(q)
  {
    hide CopyMatch;
    var all := qs + [q];
    assert all[..|all| - 1] == qs && all[|all| - 1] == q;
    assert Expands(all[..|all| - 1], before);
  }

  // ------------------------------------------------------------------- the size

  /** A sequence never costs more than its bytes plus one byte per 255 literals. */
  lemma SequenceSize(q: Sequence)
    requires Legal(q)
    ensures |Encode(q)| <= |q.literals| + q.length + |q.literals| / 255
  {
    if |q.literals| >= 15 { ExtraLengthSize(|q.literals| - 15); }
    if q.length - MIN_MATCH >= 15 { ExtraLengthSize(q.length - MIN_MATCH - 15); }
  }

  lemma LiteralsSize(literals: seq<Byte>)
    ensures |EncodeLiterals(literals)| <= |literals| + |literals| / 255 + 2
  {
    if |literals| >= 15 { ExtraLengthSize(|literals| - 15); }
  }

  /** Closing the block with the remaining literals, if any. */
  lemma BlockDone(qs: seq<Sequence>, src: seq<Byte>, from: nat, dst: seq<Byte>)
    requires from <= |src| && AllLegal(qs) && Expands(qs, src[..from])
    requires |EncodeAll(qs)| <= from + from / 255
    requires dst == if from < |src| then EncodeAll(qs) + EncodeLiterals(src[from..]) else EncodeAll(qs)
    ensures Decode(dst, []) == src
    ensures |dst| <= |src| + |src| / 255 + 16
  {
    hide Decode, Expands, EncodeAll, EncodeLiterals;
    var rest := src[from..];
    if from == |src| { NoLiterals(); }
    assert dst == EncodeAll(qs) + EncodeLiterals(rest);
    LiteralsSize(rest);
    DecodeAll(qs, src[..from], EncodeLiterals(rest));
    DecodeLiterals(rest, src[..from]);
    assert src[..from] + rest == src;
  }

  lemma NoLiterals()
    ensures EncodeLiterals([]) == []
  {
  }

  lemma EmptyBlock()
    ensures AllLegal([]) && Expands([], []) && EncodeAll([]) == [] && Decode([], []) == []
  {
  }

  // ------------------------------------------------------------- the compressor

  method FindMatchLength(src: seq<Byte>, matchPos: nat, srcPos: nat) returns (length: nat)
    requires matchPos < srcPos < |src|
    ensures length <= MAX_MATCH && Repeats(src, matchPos, srcPos, length)
    ensures length == MAX_MATCH || srcPos + length == |src| || src[matchPos + length] != src[srcPos + length]
  {
    var maxLen := |src| - srcPos;
    if maxLen > MAX_MATCH {
      maxLen := MAX_MATCH;
    }
    length := 0;
    while length < maxLen && src[matchPos + length] == src[srcPos + length]
      invariant length <= maxLen && Repeats(src, matchPos, srcPos, length)
    {
      length := length + 1;
    }
  }

  method AppendExtra(dst: seq<Byte>, n: nat) returns (r: seq<Byte>)
    ensures r == dst + ExtraLength(n)
  {
    r := dst;
    var remaining := n;
    while remaining >= 255
      invariant dst + ExtraLength(n) == r + ExtraLength(remaining)
    {
      r := r + [255];
      remaining := remaining - 255;
    }
    r := r + [remaining];
  }

  method EncodeLiteralsAndMatch(dst: seq<Byte>, literals: seq<Byte>, offset: nat, matchLen: nat)
    returns (r: seq<Byte>)
    requires Legal(Sequence(literals, offset, matchLen))
    ensures r == dst + Encode(Sequence(literals, offset, matchLen))
  {
    var matchLenEncoded := matchLen - MIN_MATCH;
    var token := 16 * (if |literals| >= 15 then 15 else |literals|)
                 + (if matchLenEncoded >= 15 then 15 else matchLenEncoded);
    r := dst + [token];
    if |literals| >= 15 {
      r := AppendExtra(r, |literals| - 15);
    }
    r := r + literals;
    r := r + [offset % 256, offset / 256];
    if matchLenEncoded >= 15 {
      r := AppendExtra(r, matchLenEncoded - 15);
    }
  }

  method AppendLiterals(dst: seq<Byte>, literals: seq<Byte>) returns (r: seq<Byte>)
    ensures r == dst + EncodeLiterals(literals)
  {
    if literals == [] {
      return dst;
    }
    var token: Byte := 16 * (if |literals| >= 15 then 15 else |literals|);
    r := dst + [token];
    if |literals| >= 15 {
      r := AppendExtra(r, |literals| - 15);
    }
    assert r == dst + ([token] + LengthTail(|literals|));
    r := r + literals;
    assert r == dst + ([token] + LengthTail(|literals|) + literals);
  }

  /** The multiplicative hash of compress.go, one of the hash functions the results below are for. */
  function Hash4(data: seq<Byte>): (h: nat)
    ensures h < HASH_TABLE_SIZE
  {
    if |data| < 4 then 0
    else
      var v: nat := FromLittleEndian(data[..4]);
      (v * 2654435761) % 0x1_0000_0000 / 0x4_0000
  }

  /** The hash looks at four bytes. */
  ghost predicate ReadsFour(hash: seq<Byte> -> nat) {
    forall d, d' :: |d| >= 4 && |d'| >= 4 && d[..4] == d'[..4] ==> hash(d) == hash(d')
  }

  /** One byte, over and over. */
  ghost predicate Constant(src: seq<Byte>) {
    forall k :: 0 <= k < |src| ==> src[k] == src[0]
  }

  lemma ConstantHash(src: seq<Byte>, hash: seq<Byte> -> nat, k: nat)
    requires Constant(src) && ReadsFour(hash) && k + 4 <= |src|
    ensures hash(src[k..]) == hash(src)
  {
    assert src[k..][..4] == src[..4];
  }

  /** How far the compressor of n equal bytes is: `last` is the position its table holds. Position 0 is never
      matched, position 2 is matched with 1, and then match follows match. */
  predicate RunProgress(n: nat, last: nat, srcPos: nat, literalStart: nat, size: nat) {
    if srcPos <= 2 then literalStart == 0 && size == 0 && (srcPos > 0 ==> last == srcPos - 1)
    else
      && literalStart == srcPos <= n && 64 * size <= srcPos + 384 + (if srcPos == n then 256 else 0)
      && (srcPos < n ==> 0 < last < srcPos && srcPos - last <= MAX_MATCH)
  }

  lemma RunMatch(n: nat, last: nat, srcPos: nat, literalStart: nat, size: nat, q: Sequence)
    requires RunProgress(n, last, srcPos, literalStart, size) && 2 <= srcPos < n && Legal(q)
    requires |q.literals| == srcPos - literalStart && (q.length == MAX_MATCH || srcPos + q.length == n)
    requires srcPos + q.length <= n
    ensures RunProgress(n, srcPos, srcPos + q.length, srcPos + q.length, size + |Encode(q)|)
  {
    if q.length - MIN_MATCH >= 15 { ExtraLengthSize(q.length - MIN_MATCH - 15); }
  }

  /** A match, with the literals before it, put into the block. */
  method EmitMatch(dst: seq<Byte>, src: seq<Byte>, literalStart: nat, srcPos: nat, matchPos: nat, matchLen: nat,
                   ghost qs: seq<Sequence>, ghost run: bool)
    returns (r: seq<Byte>, ghost rs: seq<Sequence>)
    requires literalStart <= srcPos < |src| && matchPos < srcPos && srcPos - matchPos <= MAX_OFFSET
    requires Repeats(src, matchPos, srcPos, matchLen) && MIN_MATCH <= matchLen <= MAX_MATCH
    requires AllLegal(qs) && Expands(qs, src[..literalStart]) && dst == EncodeAll(qs)
    requires |dst| <= literalStart + literalStart / 255
    requires run ==> RunProgress(|src|, matchPos, srcPos, literalStart, |dst|) && srcPos >= 2
    requires run ==> matchLen == MAX_MATCH || srcPos + matchLen == |src|
    ensures var to := srcPos + matchLen;
            && to <= |src| && AllLegal(rs) && Expands(rs, src[..to]) && r == EncodeAll(rs)
            && |r| <= to + to / 255 && (run ==> RunProgress(|src|, srcPos, to, to, |r|))
  {
    hide Expands, EncodeAll, Encode, RunProgress, Legal, AllLegal;
    ghost var q := Sequence(src[literalStart..srcPos], srcPos - matchPos, matchLen);
    FoundLegal(src, matchPos, srcPos, matchLen, q);
    SequenceFits(q, |dst|, literalStart);
    ExpandsNext(qs, src, literalStart, srcPos, matchPos, matchLen);
    if run { RunMatch(|src|, matchPos, srcPos, literalStart, |dst|, q); }
    rs := qs + [q];
    r := EncodeLiteralsAndMatch(dst, src[literalStart..srcPos], srcPos - matchPos, matchLen);
  }

  /** Whatever the hash function, the block decodes to the input and keeps the reserved size; and a block of
      equal bytes shrinks to a sixty-fourth, whatever hash of four bytes it is. */
  method Compress(src: seq<Byte>, hashTable: array<nat>, hash: seq<Byte> -> nat) returns (dst: seq<Byte>)
    requires hashTable.Length == HASH_TABLE_SIZE
    requires forall d :: hash(d) < HASH_TABLE_SIZE
    requires forall h :: 0 <= h < HASH_TABLE_SIZE ==> hashTable[h] == 0
    modifies hashTable
    ensures Decode(dst, []) == src
    ensures |dst| <= |src| + |src| / 255 + 16
    ensures Constant(src) && ReadsFour(hash) ==> |dst| <= |src| / 64 + 20
  {
    hide Decode, Expands, EncodeAll, Encode, EncodeLiterals, RunProgress, Constant, ReadsFour, Repeats, Legal, AllLegal;
    EmptyBlock();
    RunStarts(|src|);
    dst := [];
    if |src| == 0 {
      return;
    }
    ghost var run := Constant(src) && ReadsFour(hash);
    ghost var h0 := hash(src);
    var srcPos, literalStart := 0, 0;
    ghost var qs: seq<Sequence> := [];
    assert src[..0] == [];
    while srcPos < |src| - MIN_MATCH
      invariant 0 <= literalStart <= srcPos <= |src|
      invariant forall h :: 0 <= h < HASH_TABLE_SIZE ==> hashTable[h] == 0 || hashTable[h] < srcPos
      invariant AllLegal(qs) && Expands(qs, src[..literalStart]) && dst == EncodeAll(qs)
      invariant |dst| <= literalStart + literalStart / 255
      invariant run ==> RunProgress(|src|, hashTable[h0], srcPos, literalStart, |dst|)
    {
      if run {
        ConstantHash(src, hash, srcPos);
        RunHolds(|src|, hashTable[h0], srcPos, literalStart, |dst|);
      }
      var h := hash(src[srcPos..]);
      var matchPos := hashTable[h];
      hashTable[h] := srcPos;
      if matchPos > 0 && srcPos - matchPos <= MAX_OFFSET {
        var matchLen := FindMatchLength(src, matchPos, srcPos);
        if run { FoundInRun(src, matchPos, srcPos, matchLen); }
        if matchLen >= MIN_MATCH {
          dst, qs := EmitMatch(dst, src, literalStart, srcPos, matchPos, matchLen, qs, run);
          srcPos := srcPos + matchLen;
          literalStart := srcPos;
          continue;
        }
      }
      srcPos := srcPos + 1;
    }
    if run {
      RunEnds(|src|, hashTable[h0], srcPos, literalStart, |dst|);
      ShortLiterals(src[literalStart..]);
    }
    if literalStart < |src| {
      dst := AppendLiterals(dst, src[literalStart..]);
    }
    BlockDone(qs, src, literalStart, dst);
  }

  /** The size bound goes on with one more sequence. */
  lemma SequenceFits(q: Sequence, size: nat, from: nat)
    requires Legal(q) && size <= from + from / 255
    ensures var to := from + |q.literals| + q.length; size + |Encode(q)| <= to + to / 255
  {
    hide Encode;
    SequenceSize(q);
  }

  lemma FoundLegal(src: seq<Byte>, matchPos: nat, srcPos: nat, length: nat, q: Sequence)
    requires matchPos < srcPos < |src| && srcPos - matchPos <= MAX_OFFSET && MIN_MATCH <= length <= MAX_MATCH
    requires q.offset == srcPos - matchPos && q.length == length
    ensures Legal(q)
  {
  }

  /** In a run a match goes on to its greatest length or to the end. */
  lemma FoundInRun(src: seq<Byte>, matchPos: nat, srcPos: nat, length: nat)
    requires Constant(src) && matchPos < srcPos && srcPos + MIN_MATCH < |src| && Repeats(src, matchPos, srcPos, length)
    requires length == MAX_MATCH || srcPos + length == |src| || src[matchPos + length] != src[srcPos + length]
    ensures length >= MIN_MATCH && (length == MAX_MATCH || srcPos + length == |src|)
  {
  }

  lemma RunStarts(n: nat)
    ensures RunProgress(n, 0, 0, 0, 0)
  {
  }

  /** In the loop, positions 0 and 1 find nothing, and every later one finds an earlier one in reach. */
  lemma RunHolds(n: nat, last: nat, srcPos: nat, literalStart: nat, size: nat)
    requires RunProgress(n, last, srcPos, literalStart, size) && srcPos < n
    ensures srcPos < 2 ==> RunProgress(n, srcPos, srcPos + 1, literalStart, size) && (srcPos == 1 ==> last == 0)
    ensures srcPos >= 2 ==> 0 < last < srcPos && srcPos - last <= MAX_MATCH
  {
  }

  lemma RunEnds(n: nat, last: nat, srcPos: nat, literalStart: nat, size: nat)
    requires RunProgress(n, last, srcPos, literalStart, size) && n <= srcPos + MIN_MATCH
    ensures n - literalStart <= 6 && 64 * size <= n + 640
  {
  }

  lemma ShortLiterals(literals: seq<Byte>)
    requires |literals| <= 6
    ensures |EncodeLiterals(literals)| <= 7
  {
  }

  // -------------------------------------------------------------------- damaged blocks

  lemma {:induction false} ExtraCut(acc: nat, n: nat, k: nat)
    requires k < |ExtraLength(n)|
    ensures ReadExtra(acc, ExtraLength(n)[..k]).0 >= acc && ReadExtra(acc, ExtraLength(n)[..k]).1 == []
    decreases n
  {
    if k > 0 {
      var s := ExtraLength(n)[..k];
      assert s[1..] == ExtraLength(n - 255)[..k - 1];
      ExtraCut(acc + 255, n - 255, k - 1);
    }
  }

  /** Literals of which some are missing are left out altogether. */
  lemma {:induction false} CutLiterals(literals: seq<Byte>, k: nat, dst: seq<Byte>)
    requires 0 < k < |EncodeLiterals(literals)|
    ensures Decode(EncodeLiterals(literals)[..k], dst) == dst
  {
    hide LengthTail, ReadLength, Decode, Nibble, EncodeLiterals;
    var src := EncodeLiterals(literals)[..k];
    var tail := LengthTail(|literals|);
    LiteralsShape(literals, k);
    if k - 1 < |tail| {
      assert src[1..] == tail[..k - 1];
      TailCut(|literals|, k - 1);
    } else {
      var part := literals[..k - 1 - |tail|];
      assert src[1..] == tail + part;
      LengthRoundTrip(|literals|, part);
    }
    DecodeShort(src, dst);
  }

  lemma {:induction false} LiteralsShape(literals: seq<Byte>, k: nat)
    requires 0 < k <= |EncodeLiterals(literals)|
    ensures var src := EncodeLiterals(literals)[..k];
            var tail := LengthTail(|literals|);
            && src[0] / 16 == Nibble(|literals|) && |EncodeLiterals(literals)| == 1 + |tail| + |literals|
            && src[1..] == (tail + literals)[..k - 1]
  {
    hide LengthTail, Nibble;
    var rest := LengthTail(|literals|) + literals;
    assert EncodeLiterals(literals) == [16 * Nibble(|literals|)] + rest;
    FirstNibble(Nibble(|literals|));
  }

  lemma FirstNibble(n: nat)
    requires n <= 15
    ensures (16 * n) / 16 == n
  {
  }

  lemma TailCut(n: nat, k: nat)
    requires k < |LengthTail(n)|
    ensures var r := ReadLength(Nibble(n), LengthTail(n)[..k]); r.0 > 0 && r.1 == []
  {
    ExtraCut(15, n - 15, k);
  }

  lemma DecodeShort(src: seq<Byte>, dst: seq<Byte>)
    requires src != [] && var r := ReadLength(src[0] / 16, src[1..]); r.0 > |r.1|
    ensures Decode(src, dst) == dst
  {
    hide ReadLength, DecodeMatch;
  }

  /** A copy from nowhere is passed over. */
  lemma {:induction false} BadOffset(q: Sequence, rest: seq<Byte>, dst: seq<Byte>)
    requires Legal(q) && q.offset > |dst + q.literals|
    ensures Decode(Encode(q) + rest, dst) == Decode(rest, dst + q.literals)
  {
    hide LengthTail, ReadLength, CopyMatch;
    var n, m := |q.literals|, q.length - MIN_MATCH;
    var tail, close := LengthTail(n), LengthTail(m) + rest;
    var offset := [q.offset % 256, q.offset / 256];
    var s := Encode(q) + rest;
    assert s[0] / 16 == Nibble(n) && s[0] % 16 == Nibble(m);
    assert s[1..] == tail + (q.literals + (offset + close));
    LengthRoundTrip(n, q.literals + (offset + close));
    assert (q.literals + (offset + close))[..n] == q.literals && (q.literals + (offset + close))[n..] == offset + close;
    assert (offset + close)[2..] == close;
    LengthRoundTrip(m, rest);
  }

  // ----------------------------------------------------------- the decompressor

  /** A length from its nibble and, after a nibble of 15, the bytes that extend it. */
  method ReadLengthAt(src: seq<Byte>, start: nat, nibble: nat) returns (length: nat, srcPos: nat)
    requires start <= |src|
    ensures start <= srcPos <= |src|
    ensures (length, src[srcPos..]) == ReadLength(nibble, src[start..])
  {
    length, srcPos := nibble, start;
    if nibble == 15 {
      while srcPos < |src|
        invariant start <= srcPos <= |src|
        invariant ReadExtra(15, src[start..]) == ReadExtra(length, src[srcPos..])
      {
        var extra := src[srcPos];
        assert src[srcPos..][1..] == src[srcPos + 1..];
        srcPos := srcPos + 1;
        length := length + extra;
        if extra != 255 {
          return;
        }
      }
    }
  }

  /** The byte-by-byte copy, which may read what it has just appended. */
  method AppendMatch(dst: seq<Byte>, offset: nat, matchLen: nat) returns (r: seq<Byte>)
    requires 0 < offset <= |dst|
    ensures r == CopyMatch(dst, offset, matchLen)
  {
    var matchStart := |dst| - offset;
    r := dst;
    for i := 0 to matchLen
      invariant |r| == |dst| + i
      invariant CopyMatch(dst, offset, matchLen) == CopyMatch(r, offset, matchLen - i)
    {
      r := r + [r[matchStart + i]];
    }
  }

  /** The second half of a sequence: offset, match length and copy, or the early stop. */
  method DecompressMatch(src: seq<Byte>, start: nat, nibble: nat, written: seq<Byte>)
    returns (srcPos: nat, dst: seq<Byte>, done: bool)
    requires start <= |src| && nibble < 16
    ensures done ==> dst == DecodeMatch(nibble, src[start..], written)
    ensures !done ==> start < srcPos <= |src| && DecodeMatch(nibble, src[start..], written) == Decode(src[srcPos..], dst)
  {
    hide ReadLength, CopyMatch, Decode;
    srcPos, dst, done := start, written, true;
    if srcPos + 2 > |src| {
      return;
    }
    DropTake(src, srcPos, 2);
    var offset: nat := src[srcPos] as nat + 256 * (src[srcPos + 1] as nat);
    var extra, pos2 := ReadLengthAt(src, srcPos + 2, nibble);
    srcPos, done := pos2, false;
    var matchLen := extra + MIN_MATCH;
    if offset > 0 && offset <= |dst| {
      dst := AppendMatch(dst, offset, matchLen);
    }
  }

  /** The body of the decoder's loop: one sequence, or the early stop. */
  method DecompressOne(src: seq<Byte>, start: nat, written: seq<Byte>)
    returns (srcPos: nat, dst: seq<Byte>, done: bool)
    requires start < |src|
    ensures done ==> dst == Decode(src[start..], written)
    ensures !done ==> start < srcPos <= |src| && Decode(src[start..], written) == Decode(src[srcPos..], dst)
  {
    hide ReadLength, DecodeMatch;
    dst, done := written, true;
    var token: nat := src[start];
    DropTake(src, start, 1);
    var literalLen, pos1 := ReadLengthAt(src, start + 1, token / 16);
    srcPos := pos1;
    if srcPos + literalLen > |src| {
      return;
    }
    DropTake(src, srcPos, literalLen);
    assert Decode(src[start..], written) ==
           DecodeMatch(token % 16, src[srcPos + literalLen..], written + src[srcPos..srcPos + literalLen]);
    dst := dst + src[srcPos..srcPos + literalLen];
    srcPos, dst, done := DecompressMatch(src, srcPos + literalLen, token % 16, dst);
  }

  method Decompress(src: seq<Byte>) returns (dst: seq<Byte>)
    ensures dst == Decode(src, [])
  {
    dst := [];
    var srcPos: nat, done := 0, false;
    assert src[0..] == src;
    while srcPos < |src| && !done
      invariant srcPos <= |src| || done
      invariant Decode(src, []) == if done then dst else Decode(src[srcPos..], dst)
      decreases !done, |src| - srcPos
    {
      srcPos, dst, done := DecompressOne(src, srcPos, dst);
    }
  }

  lemma DropTake(s: seq<Byte>, i: nat, n: nat)
    requires i + n <= |s|
    ensures s[i..][..n] == s[i..i + n] && s[i..][n..] == s[i + n..]
  {
  }
}
