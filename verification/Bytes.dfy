/** Bytes, ASCII letters, and little-endian fields as encoding/binary writes them. */
module Bytes {
  type Byte = x: int | 0 <= x < 256

  ghost function Pow256(n: nat): (r: nat)
    ensures r >= 1
  {
    if n == 0 then 1 else 256 * Pow256(n - 1)
  }

  /** The low n bytes of v, least significant first; higher bytes are cut off. */
  function LittleEndian(n: nat, v: nat): (r: seq<Byte>)
    ensures |r| == n
  {
    if n == 0 then [] else [v % 256] + LittleEndian(n - 1, v / 256)
  }

  function FromLittleEndian(s: seq<Byte>): nat {
    if s == [] then 0 else s[0] + 256 * FromLittleEndian(s[1..])
  }

  /** A value that fits the field is read back. */
  lemma {:induction false} FieldFits(n: nat, v: nat)
    requires v < Pow256(n)
    ensures FromLittleEndian(LittleEndian(n, v)) == v
  {
    if n > 0 {
      FieldFits(n - 1, v / 256);
      assert LittleEndian(n, v)[1..] == LittleEndian(n - 1, v / 256);
    }
  }

  lemma Widths()
    ensures Pow256(1) == 0x100 && Pow256(2) == 0x1_0000 && Pow256(4) == 0x1_0000_0000
    ensures Pow256(8) == 0x1_0000_0000_0000_0000
  {
    assert Pow256(3) == 0x100_0000 && Pow256(5) == 0x100_0000_0000;
    assert Pow256(6) == 0x1_0000_0000_0000 && Pow256(7) == 0x100_0000_0000_0000;
  }

  /** ASCII letters in lower case. */
  function Lower(b: Byte): Byte { if 65 <= b <= 90 then b + 32 else b }

  function LowerAll(s: seq<Byte>): (r: seq<Byte>)
    ensures |r| == |s|
    ensures forall k :: 0 <= k < |s| ==> r[k] == Lower(s[k])
  {
    if s == [] then [] else [Lower(s[0])] + LowerAll(s[1..])
  }
}
