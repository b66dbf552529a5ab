/** BER octets: what tags, lengths and integers look like (ITU-T X.690 sections 8.1.2, 8.1.3 and
    8.3) and how the decoder of internal/ber reads them, on the octets still unread. */
module BerFormat {
  import opened Bytes

  const CLASS_UNIVERSAL: Byte := 0x00
  const CLASS_APPLICATION: Byte := 0x40
  const CLASS_CONTEXT: Byte := 0x80
  const CLASS_PRIVATE: Byte := 0xC0
  const TAG_BOOLEAN: nat := 0x01
  const TAG_INTEGER: nat := 0x02
  const TAG_OCTET_STRING: nat := 0x04
  const TAG_SEQUENCE: nat := 0x10

  /** The decoder refuses to shift an accumulator beyond this. */
  const ACCUMULATOR_LIMIT: nat := 0x100_0000

  predicate ValidClass(c: Byte) {
    c == CLASS_UNIVERSAL || c == CLASS_APPLICATION || c == CLASS_CONTEXT || c == CLASS_PRIVATE
  }

  datatype Tag = Tag(class_: Byte, constructed: bool, number: nat)

  /** Why octets are refused; the last line is for the messages built on BER. */
  datatype Error =
    | UnexpectedEof | TagOverflow | IndefiniteLength | LengthOverflow | TagMismatch
    | BadBoolean | BadInteger | Unsupported
    | EmptyMessage | BadMessageId | BadOperation | MissingOperation | BadControls | BadFilter

  /** A value read and the octets after it. */
  datatype Parsed<+T> = Ok(value: T, rest: seq<Byte>) | Err(error: Error) {
    predicate IsFailure() { Err? }
    function PropagateFailure<U>(): Parsed<U> requires Err? { Err(error) }
    function Extract(): (T, seq<Byte>) requires Ok? { (value, rest) }
  }

  // ------------------------------------------------------------------ tag numbers

  /** Seven-bit groups, most significant first, all with the continuation bit. */
  function Continued(n: nat): seq<Byte> {
    if n < 128 then [128 + n] else Continued(n / 128) + [128 + n % 128]
  }

  function Base128(n: nat): seq<Byte> {
    if n < 128 then [n] else Continued(n / 128) + [n % 128]
  }

  function Flag(constructed: bool): Byte { if constructed then 0x20 else 0 }

  function TagBytes(t: Tag): seq<Byte>
    requires ValidClass(t.class_)
  {
    if t.number <= 30 then [t.class_ + Flag(t.constructed) + t.number]
    else [t.class_ + Flag(t.constructed) + 0x1F] + Base128(t.number)
  }

  function ReadBase128(acc: nat, s: seq<Byte>): (r: Parsed<nat>)
    ensures r.Ok? ==> |r.rest| < |s| && r.rest == s[|s| - |r.rest|..]
    decreases |s|
  {
    if s == [] then Err(UnexpectedEof)
    else if acc > ACCUMULATOR_LIMIT then Err(TagOverflow)
    else if s[0] < 128 then Ok(128 * acc + s[0], s[1..])
    else ReadBase128(128 * acc + (s[0] - 128), s[1..])
  }

  function ReadTag(s: seq<Byte>): (r: Parsed<Tag>)
    ensures r.Ok? ==> |r.rest| < |s| && r.rest == s[|s| - |r.rest|..] && ValidClass(r.value.class_)
  {
    if s == [] then Err(UnexpectedEof)
    else
      var class_: Byte := s[0] / 0x40 * 0x40;
      var constructed := s[0] / 0x20 % 2 == 1;
      var number: nat := s[0] % 0x20;
      if number != 0x1F then Ok(Tag(class_, constructed, number), s[1..])
      else
        var (n, rest) :- ReadBase128(0, s[1..]);
        Ok(Tag(class_, constructed, n), rest)
  }

  /** Reading the continued groups of n leaves n in the accumulator, unless a group before the last
      already passed the limit. */
  lemma {:induction false} ReadContinued(n: nat, rest: seq<Byte>)
    requires rest != []
    ensures ReadBase128(0, Continued(n) + rest) ==
            if n / 128 <= ACCUMULATOR_LIMIT then ReadBase128(n, rest) else Err(TagOverflow)
  {
    if n < 128 {
      var s := Continued(n) + rest;
      assert s[1..] == rest;
    } else {
      var last := [128 + n % 128];
      assert Continued(n) + rest == Continued(n / 128) + (last + rest);
      ReadContinued(n / 128, last + rest);
      assert (last + rest)[1..] == rest;
    }
  }

  lemma ReadBase128Back(n: nat, rest: seq<Byte>)
    ensures ReadBase128(0, Base128(n) + rest) ==
            if n / 128 <= ACCUMULATOR_LIMIT then Ok(n, rest) else Err(TagOverflow)
  {
    if n < 128 {
      assert (Base128(n) + rest)[1..] == rest;
    } else {
      var last := [n % 128];
      assert Base128(n) + rest == Continued(n / 128) + (last + rest);
      ReadContinued(n / 128, last + rest);
      assert (last + rest)[1..] == rest;
    }
  }

  /** The first octet of a tag splits back into its three fields. */
  lemma FirstOctet(c: Byte, constructed: bool, low: nat)
    requires ValidClass(c) && low < 0x20
    ensures var b := c + Flag(constructed) + low;
            && b < 256 && b / 0x40 * 0x40 == c && (b / 0x20 % 2 == 1) == constructed && b % 0x20 == low
  {
  }

  /** A tag is read back exactly when its number, shifted right by 7, is at most 2^24. */
  lemma TagRoundTrip(t: Tag, rest: seq<Byte>)
    requires ValidClass(t.class_)
    ensures ReadTag(TagBytes(t) + rest) ==
            if t.number / 128 <= ACCUMULATOR_LIMIT then Ok(t, rest) else Err(TagOverflow)
  {
    hide ReadBase128, Base128, ValidClass;
    var s := TagBytes(t) + rest;
    FirstOctet(t.class_, t.constructed, if t.number <= 30 then t.number else 0x1F);
    if t.number <= 30 {
      assert s[1..] == rest;
    } else {
      assert s[1..] == Base128(t.number) + rest;
      ReadBase128Back(t.number, rest);
    }
  }

  // ---------------------------------------------------------------------- lengths

  /** The base-256 digits of n, most significant first; none for 0. */
  function BigEndian(n: nat): seq<Byte> {
    if n == 0 then [] else BigEndian(n / 256) + [n % 256]
  }

  function LengthBytes(n: nat): seq<Byte>
    requires |BigEndian(n)| <= 127
  {
    if n <= 127 then [n] else [0x80 + |BigEndian(n)|] + BigEndian(n)
  }

  function ReadDigits(acc: nat, count: nat, s: seq<Byte>): (r: Parsed<nat>)
    requires count <= |s|
    ensures r.Ok? ==> r.rest == s[count..]
    decreases count
  {
    if count == 0 then Ok(acc, s)
    else if acc > ACCUMULATOR_LIMIT then Err(LengthOverflow)
    else ReadDigits(256 * acc + s[0], count - 1, s[1..])
  }

  function ReadLength(s: seq<Byte>): (r: Parsed<nat>)
    ensures r.Ok? ==> |r.rest| < |s| && r.rest == s[|s| - |r.rest|..]
  {
    if s == [] then Err(UnexpectedEof)
    else if s[0] < 0x80 then Ok(s[0], s[1..])
    else
      var count := s[0] - 0x80;
      if count == 0 then Err(IndefiniteLength)
      else if count > |s| - 1 then Err(UnexpectedEof)
      else ReadDigits(0, count, s[1..])
  }

  lemma {:induction false} ReadDigitsBack(n: nat, more: nat, rest: seq<Byte>)
    requires 0 < more <= |rest|
    ensures ReadDigits(0, |BigEndian(n)| + more, BigEndian(n) + rest) ==
            if n == 0 || n / 256 <= ACCUMULATOR_LIMIT then ReadDigits(n, more, rest) else Err(LengthOverflow)
    decreases n
  {
    hide ReadDigits;
    if n == 0 {
      assert BigEndian(n) + rest == rest;
    } else {
      var high, last := n / 256, [n % 256];
      assert BigEndian(n) + rest == BigEndian(high) + (last + rest);
      ReadDigitsBack(high, more + 1, last + rest);
      ReadDigitsStep(high, n % 256, more, rest);
      assert 256 * high + n % 256 == n && high / 256 <= high;
    }
  }

  lemma ReadDigitsStep(acc: nat, b: Byte, more: nat, rest: seq<Byte>)
    requires more <= |rest|
    ensures ReadDigits(acc, more + 1, [b] + rest) ==
            if acc > ACCUMULATOR_LIMIT then Err(LengthOverflow) else ReadDigits(256 * acc + b, more, rest)
  {
    assert ([b] + rest)[1..] == rest;
  }

  lemma DigitsBack(n: nat, rest: seq<Byte>)
    requires n > 0
    ensures ReadDigits(0, |BigEndian(n)|, BigEndian(n) + rest) ==
            if n / 256 <= ACCUMULATOR_LIMIT then Ok(n, rest) else Err(LengthOverflow)
  {
    var last := [n % 256];
    assert BigEndian(n) + rest == BigEndian(n / 256) + (last + rest);
    ReadDigitsBack(n / 256, 1, last + rest);
    assert (last + rest)[1..] == rest;
  }

  /** A length is read back exactly when it, shifted right by 8, is at most 2^24. */
  lemma LengthRoundTrip(n: nat, rest: seq<Byte>)
    requires |BigEndian(n)| <= 127
    ensures ReadLength(LengthBytes(n) + rest) ==
            if n / 256 <= ACCUMULATOR_LIMIT then Ok(n, rest) else Err(LengthOverflow)
  {
    hide ReadDigits, BigEndian;
    var s := LengthBytes(n) + rest;
    if n <= 127 {
      assert s[1..] == rest;
    } else {
      assert s[1..] == BigEndian(n) + rest;
      SomeDigits(n);
      DigitsBack(n, rest);
    }
  }

  lemma SomeDigits(n: nat)
    requires n > 0
    ensures |BigEndian(n)| > 0
  {
  }

  lemma OneDigit(n: nat)
    requires 0 < n <= 0xFF
    ensures BigEndian(n) == [n]
  {
    assert BigEndian(n / 256) == [];
  }

  lemma TwoDigits(n: nat)
    requires 0xFF < n <= 0xFFFF
    ensures BigEndian(n) == [n / 0x100, n % 0x100]
  {
    OneDigit(n / 256);
  }

  lemma ThreeDigits(n: nat)
    requires 0xFFFF < n <= 0xFF_FFFF
    ensures BigEndian(n) == [n / 0x1_0000, n / 0x100 % 0x100, n % 0x100]
  {
    TwoDigits(n / 256);
    assert n / 0x100 / 0x100 == n / 0x1_0000;
  }

  lemma FourDigits(n: nat)
    requires 0xFF_FFFF < n < 0x1_0000_0000
    ensures BigEndian(n) == [n / 0x100_0000, n / 0x1_0000 % 0x100, n / 0x100 % 0x100, n % 0x100]
  {
    ThreeDigits(n / 256);
    assert n / 0x100 / 0x1_0000 == n / 0x100_0000 && n / 0x100 / 0x100 == n / 0x1_0000;
  }

  /** A length below 2^32 takes at most four octets. */
  lemma SmallLength(n: nat)
    requires n < 0x1_0000_0000
    ensures |BigEndian(n)| <= 4
  {
    if n > 0xFF_FFFF { FourDigits(n); }
    else if n > 0xFFFF { ThreeDigits(n); }
    else if n > 0xFF { TwoDigits(n); }
    else if n > 0 { OneDigit(n); }
  }

  // --------------------------------------------------------------------- integers

  const MIN_INT64 := -0x8000_0000_0000_0000
  const MAX_INT64 := 0x7FFF_FFFF_FFFF_FFFF

  /** Two's complement in the fewest octets. */
  function IntegerBytes(v: int): (r: seq<Byte>)
    ensures |r| >= 1 && (v < 0 <==> r[0] >= 128)
    decreases if v < 0 then -v else v
  {
    if -128 <= v < 128 then [v % 256] else IntegerBytes(v / 256) + [v % 256]
  }

  function FromDigits(acc: int, s: seq<Byte>): int
    decreases |s|
  {
    if s == [] then acc else FromDigits(256 * acc + s[0], s[1..])
  }

  /** decodeInteger: start from all ones when the first octet has its top bit set. */
  function DecodeInteger(s: seq<Byte>): int
    requires s != []
  {
    FromDigits(if s[0] >= 128 then -1 else 0, s)
  }

  lemma {:induction false} FromDigitsSnoc(acc: int, s: seq<Byte>, b: Byte)
    ensures FromDigits(acc, s + [b]) == 256 * FromDigits(acc, s) + b
    decreases |s|
  {
    if s == [] {
      assert (s + [b])[1..] == [];
    } else {
      assert (s + [b])[1..] == s[1..] + [b];
      FromDigitsSnoc(256 * acc + s[0], s[1..], b);
    }
  }

  /** Every integer decodes back from its octets. */
  lemma {:induction false} IntegerRoundTrip(v: int)
    ensures DecodeInteger(IntegerBytes(v)) == v
    decreases if v < 0 then -v else v
  {
    var s := IntegerBytes(v);
    if -128 <= v < 128 {
      var acc := if v < 0 then -1 else 0;
      assert s[1..] == [] && 256 * acc + v % 256 == v;
      assert FromDigits(acc, s) == FromDigits(256 * acc + s[0], s[1..]);
    } else {
      var high := IntegerBytes(v / 256);
      IntegerRoundTrip(v / 256);
      FromDigitsSnoc(if v < 0 then -1 else 0, high, v % 256);
    }
  }

  /** The octets are minimal: the first nine bits are not all alike (X.690 section 8.3.2). */
  lemma {:induction false} IntegerMinimal(v: int)
    ensures var s := IntegerBytes(v);
            |s| > 1 ==> !(s[0] == 0 && s[1] < 128) && !(s[0] == 255 && s[1] >= 128)
    decreases if v < 0 then -v else v
  {
    if !(-128 <= v < 128) {
      IntegerMinimal(v / 256);
    }
  }

  /** Within k octets lie exactly the integers of 8k bits. */
  ghost predicate Fits(v: int, k: nat)
    requires k >= 1
    decreases k
  {
    if k == 1 then -128 <= v < 128 else Fits(v / 256, k - 1)
  }

  lemma {:induction false} FitsLength(v: int, k: nat)
    requires k >= 1 && Fits(v, k)
    ensures |IntegerBytes(v)| <= k
    decreases k
  {
    if k > 1 && !(-128 <= v < 128) { FitsLength(v / 256, k - 1); }
  }

  lemma Int64Length(v: int)
    requires MIN_INT64 <= v <= MAX_INT64
    ensures |IntegerBytes(v)| <= 8
  {
    var v1 := v / 256;
    var v2 := v1 / 256;
    var v3 := v2 / 256;
    var v4 := v3 / 256;
    var v5 := v4 / 256;
    var v6 := v5 / 256;
    var v7 := v6 / 256;
    assert Fits(v7, 1);
    assert Fits(v6, 2) && Fits(v5, 3);
    assert Fits(v4, 4) && Fits(v3, 5);
    assert Fits(v2, 6) && Fits(v1, 7);
    FitsLength(v, 8);
  }

  // --------------------------------------------------------------------- elements

  /** A tag, a length and as many octets. */
  function Element(t: Tag, content: seq<Byte>): seq<Byte>
    requires ValidClass(t.class_) && |BigEndian(|content|)| <= 127
  {
    TagBytes(t) + LengthBytes(|content|) + content
  }

  predicate Encodable(t: Tag, n: nat) {
    ValidClass(t.class_) && t.number / 128 <= ACCUMULATOR_LIMIT && n < 0x1_0000_0000
  }
}
