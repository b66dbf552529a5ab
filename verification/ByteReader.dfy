/** Length-prefixed little-endian encodings, as encoding/binary writes them and a bytes.Reader reads
    them back. */
module ByteReader {
  import opened Bytes

  /** A value read and the bytes after it; every failure is "log corrupted" to the callers. */
  datatype Read<+T> = Got(value: T, rest: seq<Byte>) | Corrupted {
    predicate IsFailure() { Corrupted? }
    function PropagateFailure<U>(): Read<U> requires Corrupted? { Corrupted }
    function Extract(): (T, seq<Byte>) requires Got? { (value, rest) }
  }

  /** io.ReadFull of n bytes. */
  function Take(n: nat, s: seq<Byte>): (r: Read<seq<Byte>>)
    ensures r.Got? ==> |r.value| == n && |r.rest| == |s| - n
  {
    if n > |s| then Corrupted else Got(s[..n], s[n..])
  }

  /** binary.Read of an n-byte unsigned integer. */
  function Field(n: nat, s: seq<Byte>): (r: Read<nat>)
    ensures r.Got? ==> |r.rest| == |s| - n
  {
    var (b, rest) :- Take(n, s);
    Got(FromLittleEndian(b), rest)
  }

  /** A length in n bytes, then the bytes themselves; a longer length is cut to its low bytes. */
  function Blob(n: nat, x: seq<Byte>): seq<Byte> { LittleEndian(n, |x|) + x }

  function ReadBlob(n: nat, s: seq<Byte>): (r: Read<seq<Byte>>)
    ensures r.Got? ==> |r.rest| + |r.value| + n == |s|
  {
    var (length, rest) :- Field(n, s);
    Take(length, rest)
  }

  lemma FieldBack(n: nat, v: nat, rest: seq<Byte>)
    requires v < Pow256(n)
    ensures Field(n, LittleEndian(n, v) + rest) == Got(v, rest)
  {
    FieldFits(n, v);
    var s := LittleEndian(n, v) + rest;
    assert s[..n] == LittleEndian(n, v) && s[n..] == rest;
  }

  lemma BlobBack(n: nat, x: seq<Byte>, rest: seq<Byte>)
    requires |x| < Pow256(n)
    ensures ReadBlob(n, Blob(n, x) + rest) == Got(x, rest)
  {
    hide Field;
    assert Blob(n, x) + rest == LittleEndian(n, |x|) + (x + rest);
    FieldBack(n, |x|, x + rest);
    assert (x + rest)[..|x|] == x && (x + rest)[|x|..] == rest;
  }

  lemma {:induction false} FieldBounded(s: seq<Byte>)
    ensures FromLittleEndian(s) < Pow256(|s|)
  {
    if s != [] { FieldBounded(s[1..]); }
  }

  /** Nothing longer than its length field allows can be read. */
  lemma BlobBounded(n: nat, s: seq<Byte>)
    ensures var r := ReadBlob(n, s); r.Got? ==> |r.value| < Pow256(n)
  {
    if n <= |s| { FieldBounded(s[..n]); }
  }

  /** bytes.Reader: a position in a fixed buffer. */
  class Reader {
    const data: seq<Byte>
    var position: nat

    ghost predicate Valid()
      reads this
    {
      position <= |data|
    }

    ghost function Unread(): seq<Byte>
      requires Valid()
      reads this
    {
      data[position..]
    }

    constructor (bytes: seq<Byte>)
      ensures Valid() && data == bytes && position == 0
    {
      data, position := bytes, 0;
    }

    /** A short read consumes what there is. */
    method ReadFull(n: nat) returns (r: Read<seq<Byte>>)
      requires Valid()
      modifies this`position
      ensures Valid()
      ensures r == Take(n, old(Unread()))
      ensures Unread() == if r.Got? then r.rest else []
    {
      if |data| - position < n {
        position := |data|;
        return Corrupted;
      }
      r := Got(data[position..position + n], data[position + n..]);
      assert data[position..][..n] == r.value && data[position..][n..] == r.rest;
      position := position + n;
    }

    method ReadField(n: nat) returns (r: Read<nat>)
      requires Valid()
      modifies this`position
      ensures Valid()
      ensures r == Field(n, old(Unread()))
      ensures Unread() == if r.Got? then r.rest else []
    {
      var b := ReadFull(n);
      if b.Corrupted? {
        return Corrupted;
      }
      r := Got(FromLittleEndian(b.value), b.rest);
    }

    /** readString and readBytes. */
    method ReadPrefixed(n: nat) returns (r: Read<seq<Byte>>)
      requires Valid()
      modifies this`position
      ensures Valid()
      ensures r == ReadBlob(n, old(Unread()))
      ensures Unread() == if r.Got? then r.rest else []
    {
      var length := ReadField(n);
      if length.Corrupted? {
        return Corrupted;
      }
      r := ReadFull(length.value);
    }
  }
}
