/** The encoder of internal/ber: an octet buffer that grows at the end. The length of a constructed
    element is written once its content is known, by moving the content in place. */
module BerEncoder {
  import opened Bytes
  import opened BerFormat

  // ------------------------------------------------------- patching in a length

  /** Go's copy(buf[to:], buf[from:until]), which copes with overlap. */
  function CopyWithin(buf: seq<Byte>, to: nat, from: nat, until: nat): (r: seq<Byte>)
    requires from <= until <= |buf| && to + (until - from) <= |buf|
    ensures |r| == |buf|
  {
    buf[..to] + buf[from..until] + buf[to + (until - from)..]
  }

  /** fixupLength on a buffer with four octets reserved at pos. */
  function Fixup(buf: seq<Byte>, pos: nat): seq<Byte>
    requires pos + 4 <= |buf|
  {
    var n := |buf| - pos - 4;
    if n <= 127 then
      CopyWithin(buf[pos := n], pos + 1, pos + 4, |buf|)[..|buf| - 3]
    else if n <= 0xFF then
      CopyWithin(buf[pos := 0x81][pos + 1 := n], pos + 2, pos + 4, |buf|)[..|buf| - 2]
    else if n <= 0xFFFF then
      CopyWithin(buf[pos := 0x82][pos + 1 := n / 0x100][pos + 2 := n % 0x100], pos + 3, pos + 4, |buf|)[..|buf| - 1]
    else if n <= 0xFF_FFFF then
      buf[pos := 0x83][pos + 1 := n / 0x1_0000][pos + 2 := n / 0x100 % 0x100][pos + 3 := n % 0x100]
    else
      var grown := buf[pos := 0x84] + [0];
      CopyWithin(grown, pos + 5, pos + 4, |grown| - 1)
        [pos + 1 := n / 0x100_0000 % 0x100][pos + 2 := n / 0x1_0000 % 0x100]
        [pos + 3 := n / 0x100 % 0x100][pos + 4 := n % 0x100]
  }

  const RESERVED: seq<Byte> := [0, 0, 0, 0]

  /** The length octets that end up before content of n octets. */
  function Patched(n: nat): seq<Byte> {
    if n <= 127 then [n]
    else if n <= 0xFF then [0x81, n]
    else if n <= 0xFFFF then [0x82, n / 0x100, n % 0x100]
    else if n <= 0xFF_FFFF then [0x83, n / 0x1_0000, n / 0x100 % 0x100, n % 0x100]
    else [0x84, n / 0x100_0000 % 0x100, n / 0x1_0000 % 0x100, n / 0x100 % 0x100, n % 0x100]
  }

  lemma FixupShort(before: seq<Byte>, content: seq<Byte>)
    requires |content| <= 127
    ensures Fixup(before + RESERVED + content, |before|) == before + Patched(|content|) + content
  {
    assert Fixup(before + RESERVED + content, |before|) == before + [|content|] + content;
  }

  lemma FixupSmall(before: seq<Byte>, content: seq<Byte>)
    requires 127 < |content| <= 0xFF
    ensures Fixup(before + RESERVED + content, |before|) == before + Patched(|content|) + content
  {
    assert Fixup(before + RESERVED + content, |before|) == before + [0x81, |content|] + content;
  }

  lemma FixupLarge(before: seq<Byte>, content: seq<Byte>)
    requires |content| > 0xFF
    ensures Fixup(before + RESERVED + content, |before|) == before + Patched(|content|) + content
  {
    var n := |content|;
    var buf := before + RESERVED + content;
    if n <= 0xFFFF { assert Fixup(buf, |before|) == before + [0x82, n / 0x100, n % 0x100] + content; }
  }

  /** Whatever the size, the reserved octets give way to length octets, and everything before and
      after them is kept. */
  lemma FixupKeeps(before: seq<Byte>, content: seq<Byte>)
    ensures Fixup(before + RESERVED + content, |before|) == before + Patched(|content|) + content
  {
    hide Fixup, Patched;
    if |content| <= 127 { FixupShort(before, content); }
    else if |content| <= 0xFF { FixupSmall(before, content); }
    else { FixupLarge(before, content); }
  }

  lemma ManyDigits(n: nat)
    requires n >= 0x1_0000_0000
    ensures |BigEndian(n)| >= 5
  {
    var a := n / 256;
    var b := a / 256;
    var c := b / 256;
    SomeDigits(c / 256);
    assert |BigEndian(b)| >= 3;
  }

  /** The deferred length is the minimal length encoding exactly when the content is below 2^32
      octets; beyond that the high part of the length is lost. */
  lemma PatchedExactly(n: nat)
    requires |BigEndian(n)| <= 127
    ensures Patched(n) == LengthBytes(n) <==> n < 0x1_0000_0000
  {
    hide BigEndian;
    if n >= 0x1_0000_0000 { ManyDigits(n); }
    else if n > 0xFF_FFFF { FourDigits(n); }
    else if n > 0xFFFF { ThreeDigits(n); }
    else if n > 0xFF { TwoDigits(n); }
    else if n > 127 { OneDigit(n); }
  }

  // ------------------------------------------------------------ open elements

  /** A constructed element still being written: its tag octets and its content so far. */
  datatype Frame = Frame(tag: seq<Byte>, body: seq<Byte>)

  /** The output so far: finished octets, then the open elements from the outermost in. */
  datatype Output = Output(done: seq<Byte>, open: seq<Frame>)

  /** What the buffer holds for it: each open element has its length reserved. */
  function Layout(done: seq<Byte>, open: seq<Frame>): seq<Byte> {
    if open == [] then done
    else
      var f := open[|open| - 1];
      Layout(done, open[..|open| - 1]) + f.tag + RESERVED + f.body
  }

  /** Octets go to the innermost open element. */
  function Put(out: Output, octets: seq<Byte>): Output {
    if out.open == [] then Output(out.done + octets, [])
    else
      var n := |out.open| - 1;
      out.(open := out.open[n := Frame(out.open[n].tag, out.open[n].body + octets)])
  }

  function Opened(out: Output, tag: seq<Byte>): Output {
    out.(open := out.open + [Frame(tag, [])])
  }

  /** The innermost element becomes content of the one around it. */
  function Closed(out: Output): Output
    requires out.open != []
  {
    var f := out.open[|out.open| - 1];
    Put(out.(open := out.open[..|out.open| - 1]), f.tag + Patched(|f.body|) + f.body)
  }

  lemma LayoutPut(out: Output, octets: seq<Byte>)
    ensures Layout(Put(out, octets).done, Put(out, octets).open) == Layout(out.done, out.open) + octets
  {
    if out.open != [] {
      assert Put(out, octets).open[..|out.open| - 1] == out.open[..|out.open| - 1];
    }
  }

  lemma LayoutOpened(out: Output, tag: seq<Byte>)
    ensures Layout(out.done, Opened(out, tag).open) == Layout(out.done, out.open) + tag + RESERVED
  {
    assert Opened(out, tag).open[..|out.open|] == out.open;
  }

  /** pos is where the length of the innermost open element goes. */
  ghost predicate Innermost(out: Output, pos: nat) {
    var n := |out.open| - 1;
    out.open != [] && pos == |Layout(out.done, out.open[..n])| + |out.open[n].tag|
  }

  /** Patching the innermost length in the buffer closes the innermost element. */
  lemma LayoutClosed(out: Output)
    requires out.open != []
    ensures var n := |out.open| - 1;
            var pos := |Layout(out.done, out.open[..n])| + |out.open[n].tag|;
            && pos + 4 <= |Layout(out.done, out.open)|
            && Fixup(Layout(out.done, out.open), pos) == Layout(Closed(out).done, Closed(out).open)
  {
    hide Fixup, Patched;
    var n := |out.open| - 1;
    var f := out.open[n];
    var outer := out.(open := out.open[..n]);
    var base := Layout(out.done, outer.open);
    var whole := Layout(out.done, out.open);
    assert whole == base + f.tag + RESERVED + f.body;
    assert |base + f.tag| == |base| + |f.tag|;
    FixupKeeps(base + f.tag, f.body);
    LayoutPut(outer, f.tag + Patched(|f.body|) + f.body);
    assert base + f.tag + Patched(|f.body|) + f.body == base + (f.tag + Patched(|f.body|) + f.body);
  }

  /** A constructed element as Begin, its content and End leave it. */
  function Wrap(t: Tag, content: seq<Byte>): seq<Byte>
    requires ValidClass(t.class_)
  {
    TagBytes(t) + Patched(|content|) + content
  }

  /** Below 2^32 octets of content there is no telling it from an element with a direct length. */
  lemma WrapIsElement(t: Tag, content: seq<Byte>)
    requires ValidClass(t.class_) && |content| < 0x1_0000_0000
    ensures |BigEndian(|content|)| <= 127 && Wrap(t, content) == Element(t, content)
  {
    SmallLength(|content|);
    PatchedExactly(|content|);
  }

  /** Opening an element and filling it leaves the elements around it, and the place of its length,
      where they were. */
  lemma OpenedShape(out: Output, tag: seq<Byte>, content: seq<Byte>)
    ensures var full := Put(Opened(out, tag), content);
            && full.done == out.done && |full.open| == |out.open| + 1
            && full.open[..|out.open|] == out.open && full.open[|out.open|] == Frame(tag, content)
  {
    assert [] + content == content;
  }

  /** Closing a filled element puts the whole element into the one around it. */
  lemma ClosedWrap(out: Output, t: Tag, content: seq<Byte>)
    requires ValidClass(t.class_)
    ensures Put(Opened(out, TagBytes(t)), content).open != []
    ensures Closed(Put(Opened(out, TagBytes(t)), content)) == Put(out, Wrap(t, content))
  {
    hide TagBytes, Patched;
    OpenedShape(out, TagBytes(t), content);
  }

  class Encoder {
    var buf: seq<Byte>
    ghost var out: Output

    ghost predicate Valid()
      reads this
    {
      buf == Layout(out.done, out.open)
    }

    constructor ()
      ensures Valid() && out == Output([], [])
    {
      buf, out := [], Output([], []);
    }

    method WriteRaw(octets: seq<Byte>)
      requires Valid()
      modifies this
      ensures Valid() && out == Put(old(out), octets)
    {
      LayoutPut(out, octets);
      buf := buf + octets;
      out := Put(out, octets);
    }

    /** WriteTag: rejects a class that is not one of the four and a negative number. */
    method WriteTag(class_: int, constructed: bool, number: int) returns (ok: bool)
      requires Valid()
      modifies this
      ensures Valid()
      ensures ok <==> class_ in {0, 0x40, 0x80, 0xC0} && number >= 0
      ensures ok ==> out == Put(old(out), TagBytes(Tag(class_, constructed, number)))
      ensures !ok ==> out == old(out) && buf == old(buf)
    {
      if class_ != 0 && class_ != 0x40 && class_ != 0x80 && class_ != 0xC0 {
        return false;
      }
      if number < 0 {
        return false;
      }
      var octets := EncodeTag(Tag(class_, constructed, number));
      WriteRaw(octets);
      ok := true;
    }

    method WriteLength(length: int) returns (ok: bool)
      requires Valid()
      modifies this
      ensures Valid()
      ensures ok <==> length >= 0 && |BigEndian(length)| <= 127
      ensures ok ==> out == Put(old(out), LengthBytes(length))
      ensures !ok ==> out == old(out) && buf == old(buf)
    {
      if length < 0 {
        return false;
      }
      var octets;
      ok, octets := EncodeLength(length);
      if ok {
        WriteRaw(octets);
      }
    }

    /** BeginSequence, BeginSet, WriteContextTag, WriteApplicationTag: the tag, then four octets
        reserved at the position returned. */
    method Begin(t: Tag) returns (pos: nat)
      requires Valid() && ValidClass(t.class_)
      modifies this
      ensures Valid() && out == Opened(old(out), TagBytes(t))
      ensures pos == |Layout(out.done, old(out.open))| + |TagBytes(t)|
    {
      var tag := EncodeTag(t);
      LayoutOpened(out, tag);
      buf := buf + tag;
      pos := |buf|;
      buf := buf + RESERVED;
      out := Opened(out, tag);
    }

    /** EndSequence, EndSet, EndContextTag, EndApplicationTag. A position with no room for the reserved
        octets is refused; the innermost element's position closes that element; at any other position the
        buffer is patched all the same, and holds no elements anyone can speak for. */
    method End(pos: nat) returns (ok: bool)
      requires Valid()
      modifies this
      ensures ok <==> pos + 4 <= |old(buf)|
      ensures buf == if ok then Fixup(old(buf), pos) else old(buf)
      ensures Innermost(old(out), pos) ==> ok && Valid() && out == Closed(old(out))
      ensures !Innermost(old(out), pos) ==> out == old(out)
    {
      hide Fixup, Patched;
      if Innermost(out, pos) { LayoutClosed(out); }
      if |buf| < pos + 4 {
        return false;
      }
      buf := Fixup(buf, pos);
      if Innermost(out, pos) { out := Closed(out); }
      ok := true;
    }

    /** A primitive element: WriteInteger, WriteOctetString, WriteBoolean. */
    method WriteElement(t: Tag, content: seq<Byte>) returns (ok: bool)
      requires Valid() && ValidClass(t.class_)
      modifies this
      ensures Valid()
      ensures ok <==> |BigEndian(|content|)| <= 127
      ensures ok ==> out == Put(old(out), Element(t, content))
    {
      hide TagBytes, LengthBytes, BigEndian, ValidClass;
      var tag := EncodeTag(t);
      WriteRaw(tag);
      ok := WriteLength(|content|);
      if ok {
        WriteRaw(content);
        PutTwice(old(out), tag, LengthBytes(|content|));
        PutTwice(old(out), tag + LengthBytes(|content|), content);
      }
    }
  }

  lemma PutTwice(out: Output, a: seq<Byte>, b: seq<Byte>)
    ensures Put(Put(out, a), b) == Put(out, a + b)
  {
    if out.open == [] {
      assert out.done + a + b == out.done + (a + b);
    } else {
      var body := out.open[|out.open| - 1].body;
      assert body + a + b == body + (a + b);
    }
  }

  // --------------------------------------------------------------- the primitives

  /** The number whose low seven-bit groups are listed, with `high` above them. */
  ghost function Combine(groups: seq<Byte>, high: nat): nat {
    if groups == [] then high else groups[0] + 128 * Combine(groups[1..], high)
  }

  lemma {:induction false} SnocCombine(groups: seq<Byte>, b: Byte, high: nat)
    ensures Combine(groups + [b], high) == Combine(groups, b + 128 * high)
  {
    if groups == [] {
      assert (groups + [b])[1..] == [];
    } else {
      assert (groups + [b])[1..] == groups[1..] + [b];
      SnocCombine(groups[1..], b, high);
    }
  }

  lemma {:induction false} CombinePositive(groups: seq<Byte>)
    requires groups != [] && groups[|groups| - 1] > 0
    ensures Combine(groups, 0) > 0
  {
    if |groups| > 1 { CombinePositive(groups[1..]); }
  }

  ghost predicate Groups(groups: seq<Byte>) {
    && groups != [] && groups[|groups| - 1] > 0
    && forall k :: 0 <= k < |groups| ==> groups[k] < 128
  }

  /** One more group below those already written. */
  lemma NextGroup(groups: seq<Byte>, i: nat)
    requires Groups(groups) && i < |groups|
    ensures var above := Combine(groups[i + 1..], 0);
            Combine(groups[i..], 0) == groups[i] + 128 * above && (i + 1 < |groups| ==> above > 0)
  {
    assert groups[i..][0] == groups[i] && groups[i..][1..] == groups[i + 1..];
    if i + 1 < |groups| { CombinePositive(groups[i + 1..]); }
  }

  /** writeBase128: groups collected least significant first, then written in reverse. */
  method EncodeBase128(number: nat) returns (r: seq<Byte>)
    ensures r == Base128(number)
  {
    if number == 0 {
      return [0];
    }
    var groups: seq<Byte> := [];
    var v := number;
    while v > 0
      invariant number == Combine(groups, v)
      invariant groups == [] ==> v > 0
      invariant v == 0 ==> Groups(groups)
      invariant forall k :: 0 <= k < |groups| ==> groups[k] < 128
    {
      SnocCombine(groups, v % 128, v / 128);
      groups := groups + [v % 128];
      v := v / 128;
    }
    r := WriteGroups(groups);
  }

  /** The groups in reverse, all but the last with the continuation bit. */
  method WriteGroups(groups: seq<Byte>) returns (r: seq<Byte>)
    requires Groups(groups)
    ensures r == Base128(Combine(groups, 0))
  {
    r := [];
    var i := |groups|;
    while i > 0
      invariant 0 <= i <= |groups|
      invariant i == |groups| ==> r == []
      invariant 0 < i < |groups| ==> r == Continued(Combine(groups[i..], 0))
      invariant i == 0 ==> r == Base128(Combine(groups[0..], 0))
    {
      i := i - 1;
      NextGroup(groups, i);
      assert i + 1 == |groups| ==> Combine(groups[i + 1..], 0) == 0;
      r := r + [if i > 0 then 128 + groups[i] else groups[i]];
    }
    assert groups[0..] == groups;
  }

  method EncodeTag(t: Tag) returns (r: seq<Byte>)
    requires ValidClass(t.class_)
    ensures r == TagBytes(t)
  {
    if t.number <= 30 {
      return [t.class_ + Flag(t.constructed) + t.number];
    }
    var groups := EncodeBase128(t.number);
    r := [t.class_ + Flag(t.constructed) + 0x1F] + groups;
  }

  /** v >> (8 * i), for negative v too. */
  function Shift(v: int, i: nat): int {
    if i == 0 then v else Shift(v, i - 1) / 256
  }

  lemma {:induction false} ShiftZero(v: nat, i: nat, j: nat)
    requires i <= j && Shift(v, i) == 0
    ensures Shift(v, j) == 0
    decreases j - i
  {
    if i < j { ShiftZero(v, i + 1, j); }
  }

  lemma {:induction false} ShiftNat(v: nat, i: nat)
    ensures Shift(v, i) >= 0
  {
    if i > 0 { ShiftNat(v, i - 1); }
  }

  /** WriteLength: count the octets, then write them from the most significant. */
  method EncodeLength(length: nat) returns (ok: bool, r: seq<Byte>)
    ensures ok <==> |BigEndian(length)| <= 127
    ensures ok ==> r == LengthBytes(length)
  {
    if length <= 127 {
      assert length > 0 ==> BigEndian(length) == [length] by { if length > 0 { OneDigit(length); } }
      return true, [length];
    }
    var numBytes, temp := 0, length;
    while temp > 0
      invariant 0 <= numBytes && temp == Shift(length, numBytes) && temp >= 0
      invariant numBytes == 0 ==> temp > 0
      invariant numBytes > 0 ==> Shift(length, numBytes - 1) > 0
      invariant |BigEndian(length)| == numBytes + |BigEndian(temp)|
    {
      numBytes := numBytes + 1;
      temp := temp / 256;
    }
    if numBytes > 127 {
      return false, [];
    }
    r := [0x80 + numBytes];
    var i := numBytes;
    while i > 0
      invariant 0 <= i <= numBytes && Shift(length, i) >= 0
      invariant r == [0x80 + numBytes] + BigEndian(Shift(length, i))
    {
      i := i - 1;
      ShiftNat(length, i);
      var shifted: nat := Shift(length, i);
      assert shifted > 0 by { if shifted == 0 { ShiftZero(length, i, numBytes - 1); } }
      assert BigEndian(shifted) == BigEndian(shifted / 256) + [shifted % 256];
      r := r + [shifted % 256];
    }
    ok := true;
  }

  // --------------------------------------------------------------------- integers

  /** An int64 has nothing but its sign beyond 63 bits. */
  lemma ShiftSign(v: int)
    requires MIN_INT64 <= v <= MAX_INT64
    ensures Shift(v, 8) == if v < 0 then -1 else 0
    ensures -128 <= Shift(v, 7) < 128
    ensures v < 0 ==> Shift(v, 7) < 0
  {
    var v1 := v / 256;
    var v2 := v1 / 256;
    var v3 := v2 / 256;
    var v4 := v3 / 256;
    var v5 := v4 / 256;
    var v6 := v5 / 256;
    var v7 := v6 / 256;
    assert Shift(v, 1) == v1 && Shift(v, 2) == v2;
    assert Shift(v, 3) == v3 && Shift(v, 4) == v4;
    assert Shift(v, 5) == v5 && Shift(v, 6) == v6;
    assert Shift(v, 7) == v7;
  }

  const ALL_ONES: Byte := 0xFF

  /** Negative numbers: leading 0xFF octets are dropped while the next octet still carries the sign. */
  method EncodeNegative(v: int) returns (r: seq<Byte>)
    requires MIN_INT64 <= v < 0
    ensures r == IntegerBytes(v)
  {
    ShiftSign(v);
    r := [];
    var i := 8;
    while i > 0
      invariant 0 <= i <= 8
      invariant r == [] ==> Shift(v, i) == -1 && (i > 0 ==> -128 <= Shift(v, i - 1) < 0)
      invariant r != [] ==> r == IntegerBytes(Shift(v, i)) && (i > 0 ==> Shift(v, i - 1) < -128)
    {
      i := i - 1;
      var octet: Byte := Shift(v, i) % 256;
      if r != [] || octet != ALL_ONES || (i > 0 && Shift(v, i - 1) % 256 < 0x80) {
        r := r + [octet];
      }
    }
    if r == [] {
      r := [ALL_ONES];
    }
    assert r[0] >= 0x80;   // so the last test never fires
    if r[0] < 0x80 {
      r := [ALL_ONES] + r;
    }
  }

  /** Positive numbers: leading zero octets are dropped, one is put back if the sign bit is taken. */
  method EncodePositive(v: int) returns (r: seq<Byte>)
    requires 0 < v <= MAX_INT64
    ensures r == IntegerBytes(v)
  {
    ShiftSign(v);
    r := [];
    var i := 8;
    while i > 0
      invariant 0 <= i <= 8 && Shift(v, i) >= 0
      invariant r == BigEndian(Shift(v, i))
    {
      i := i - 1;
      ShiftNat(v, i);
      var octet: Byte := Shift(v, i) % 256;
      if r != [] || octet != 0 {
        r := r + [octet];
      }
    }
    PositiveDigits(v);
    if r != [] && r[0] >= 0x80 {
      r := [0] + r;
    }
  }

  lemma {:induction false} PositiveDigits(v: nat)
    requires v > 0
    ensures BigEndian(v) != []
    ensures IntegerBytes(v) == if BigEndian(v)[0] >= 0x80 then [0] + BigEndian(v) else BigEndian(v)
    decreases v
  {
    if v >= 256 { PositiveDigits(v / 256); }
    else { OneDigit(v); assert v >= 128 ==> IntegerBytes(v / 256) == [0]; }
  }

  /** encodeInteger: the minimal two's complement octets of any int64. */
  method EncodeInteger(v: int) returns (r: seq<Byte>)
    requires MIN_INT64 <= v <= MAX_INT64
    ensures r == IntegerBytes(v)
  {
    if v == 0 {
      r := [0];
    } else if v < 0 {
      r := EncodeNegative(v);
    } else {
      r := EncodePositive(v);
    }
  }
}
