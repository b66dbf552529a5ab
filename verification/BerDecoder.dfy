/** The decoder of internal/ber: a read position over a fixed buffer. Each read is stated as a
    function of the unread octets; the class moves its position exactly as that function says. */
module BerDecoder {
  import opened Bytes
  import opened BerFormat

  // ------------------------------------------------- what each read does to the octets

  function TakeOctets(n: nat, s: seq<Byte>): (r: Parsed<seq<Byte>>) {
    if n > |s| then Err(UnexpectedEof) else Ok(s[..n], s[n..])
  }

  function ReadBooleanFrom(s: seq<Byte>): (r: Parsed<bool>)
    ensures r.Ok? ==> |r.rest| + 3 <= |s|
  {
    var (t, s1) :- ReadTag(s);
    if t != Tag(CLASS_UNIVERSAL, false, TAG_BOOLEAN) then Err(TagMismatch)
    else
      var (n, s2) :- ReadLength(s1);
      if n != 1 then Err(BadBoolean)
      else if s2 == [] then Err(UnexpectedEof)
      else Ok(s2[0] != 0, s2[1..])
  }

  function ReadIntegerFrom(s: seq<Byte>): (r: Parsed<int>)
    ensures r.Ok? ==> |r.rest| + 3 <= |s| && r.rest == s[|s| - |r.rest|..]
  {
    var (t, s1) :- ReadTag(s);
    if t != Tag(CLASS_UNIVERSAL, false, TAG_INTEGER) then Err(TagMismatch)
    else
      var (n, s2) :- ReadLength(s1);
      if n == 0 || n > 8 then Err(BadInteger)
      else if n > |s2| then Err(UnexpectedEof)
      else Ok(DecodeInteger(s2[..n]), s2[n..])
  }

  function ReadOctetStringFrom(s: seq<Byte>): (r: Parsed<seq<Byte>>)
    ensures r.Ok? ==> |r.rest| + |r.value| + 2 <= |s|
  {
    var (t, s1) :- ReadTag(s);
    if t.class_ != CLASS_UNIVERSAL || t.number != TAG_OCTET_STRING then Err(TagMismatch)
    else if t.constructed then Err(Unsupported)
    else
      var (n, s2) :- ReadLength(s1);
      TakeOctets(n, s2)
  }

  /** ReadTaggedValue: any context-specific element. */
  function ReadTaggedFrom(s: seq<Byte>): (r: Parsed<(Tag, seq<Byte>)>)
    ensures r.Ok? ==> |r.rest| + |r.value.1| + 2 <= |s|
  {
    var (t, s1) :- ReadTag(s);
    if t.class_ != CLASS_CONTEXT then Err(TagMismatch)
    else
      var (n, s2) :- ReadLength(s1);
      var (v, s3) :- TakeOctets(n, s2);
      Ok((t, v), s3)
  }

  /** Which header an Expect function insists on. */
  datatype Expected = SequenceTag | ContextTag(number: nat)

  predicate Meets(t: Tag, e: Expected) {
    match e
    case SequenceTag => t == Tag(CLASS_UNIVERSAL, true, TAG_SEQUENCE)
    case ContextTag(number) => t.class_ == CLASS_CONTEXT && t.number == number
  }

  /** ExpectSequence, ExpectContextTag: the content length, with the content all present and unread. */
  function ExpectFrom(e: Expected, s: seq<Byte>): (r: Parsed<nat>)
    ensures r.Ok? ==> r.value <= |r.rest| && |r.rest| + 2 <= |s| && r.rest == s[|s| - |r.rest|..]
  {
    var (t, s1) :- ReadTag(s);
    if !Meets(t, e) then Err(TagMismatch)
    else
      var (n, s2) :- ReadLength(s1);
      if n > |s2| then Err(UnexpectedEof) else Ok(n, s2)
  }

  /** ReadSequenceContents. */
  function SequenceFrom(s: seq<Byte>): (r: Parsed<seq<Byte>>)
    ensures r.Ok? ==> |r.rest| + |r.value| + 2 <= |s|
  {
    var (n, s1) :- ExpectFrom(SequenceTag, s);
    Ok(s1[..n], s1[n..])
  }

  /** The next tag is context-specific with this number. */
  predicate NextIsContext(number: nat, s: seq<Byte>) {
    var p := ReadTag(s);
    p.Ok? && p.value.class_ == CLASS_CONTEXT && p.value.number == number
  }

  predicate NextIsUniversal(number: nat, s: seq<Byte>) {
    var p := ReadTag(s);
    p.Ok? && p.value.class_ == CLASS_UNIVERSAL && p.value.number == number
  }

  /** Elements of a list already read, in front of those still to come. */
  ghost function Joined<T>(done: seq<T>, p: Parsed<seq<T>>): Parsed<seq<T>> {
    if p.Err? then p else Ok(done + p.value, p.rest)
  }

  lemma JoinedNone<T>(p: Parsed<seq<T>>)
    ensures Joined([], p) == p
  {
    if p.Ok? { assert [] + p.value == p.value; }
  }

  lemma JoinedMore<T>(done: seq<T>, x: T, p: Parsed<seq<T>>)
    ensures Joined(done + [x], p) == Joined(done, if p.Err? then p else Ok([x] + p.value, p.rest))
  {
    if p.Ok? { assert done + [x] + p.value == done + ([x] + p.value); }
  }

  // -------------------------------------------------------------------- the decoder

  datatype Result<+T> = Success(value: T) | Failure(error: Error)

  /** The result of a read, without the position it leaves. */
  function Outcome<T>(p: Parsed<T>): Result<T> {
    if p.Ok? then Success(p.value) else Failure(p.error)
  }

  /** One octet of a long tag number. */
  lemma Base128Step(acc: nat, s: seq<Byte>)
    ensures ReadBase128(acc, s) ==
            if s == [] then Err(UnexpectedEof)
            else if acc > ACCUMULATOR_LIMIT then Err(TagOverflow)
            else if s[0] < 0x80 then Ok(128 * acc + s[0] % 128, s[1..])
            else ReadBase128(128 * acc + s[0] % 128, s[1..])
  {
  }

  class Decoder {
    const data: seq<Byte>
    var offset: nat

    ghost predicate Valid()
      reads this
    {
      offset <= |data|
    }

    ghost function Unread(): seq<Byte>
      requires Valid()
      reads this
    {
      data[offset..]
    }

    /** A read from position before did what p says of the octets that were unread; even a failed read stays inside the
        buffer and does not move back. */
    ghost predicate Did<T>(before: nat, p: Parsed<T>, r: Result<T>)
      reads this
    {
      && Valid() && before <= offset
      && r == Outcome(p)
      && (p.Ok? ==> Unread() == p.rest)
    }

    constructor (octets: seq<Byte>)
      ensures Valid() && data == octets && offset == 0
    {
      data, offset := octets, 0;
    }

    method Remaining() returns (n: nat)
      requires Valid()
      ensures n == |Unread()|
    {
      n := |data| - offset;
    }

    method ReadBase128() returns (r: Result<nat>)
      requires Valid()
      modifies this`offset
      ensures Did(old(offset), BerFormat.ReadBase128(0, old(Unread())), r)
    {
      hide BerFormat.ReadBase128;
      ghost var goal := BerFormat.ReadBase128(0, Unread());
      var acc: nat := 0;
      while true
        invariant Valid() && old(offset) <= offset
        invariant goal == BerFormat.ReadBase128(acc, Unread())
        decreases |data| - offset
      {
        ghost var s := Unread();
        Base128Step(acc, s);
        if offset >= |data| {
          return Failure(UnexpectedEof);
        }
        var b := data[offset];
        offset := offset + 1;
        assert s[0] == b && s[1..] == Unread();
        if acc > ACCUMULATOR_LIMIT {
          return Failure(TagOverflow);
        }
        acc := 128 * acc + b % 128;
        if b < 0x80 {
          return Success(acc);
        }
      }
    }

    method ReadTag() returns (r: Result<Tag>)
      requires Valid()
      modifies this`offset
      ensures Did(old(offset), BerFormat.ReadTag(old(Unread())), r)
    {
      hide BerFormat.ReadBase128;
      if offset >= |data| {
        return Failure(UnexpectedEof);
      }
      var first := data[offset];
      assert Unread()[0] == first && Unread()[1..] == data[offset + 1..];
      offset := offset + 1;
      var class_: Byte := first / 0x40 * 0x40;
      var constructed := first / 0x20 % 2 == 1;
      var number: nat := first % 0x20;
      if number == 0x1F {
        var long := ReadBase128();
        if long.Failure? {
          return Failure(long.error);
        }
        number := long.value;
      }
      r := Success(Tag(class_, constructed, number));
    }

    method ReadLength() returns (r: Result<nat>)
      requires Valid()
      modifies this`offset
      ensures Did(old(offset), BerFormat.ReadLength(old(Unread())), r)
    {
      if offset >= |data| {
        return Failure(UnexpectedEof);
      }
      var first := data[offset];
      assert Unread()[0] == first && Unread()[1..] == data[offset + 1..];
      offset := offset + 1;
      if first < 0x80 {
        return Success(first);
      }
      var numBytes: nat := first - 0x80;
      if numBytes == 0 {
        return Failure(IndefiniteLength);
      }
      if offset + numBytes > |data| {
        return Failure(UnexpectedEof);
      }
      r := ReadDigits(numBytes);
    }

    method ReadDigits(count: nat) returns (r: Result<nat>)
      requires Valid() && count <= |Unread()|
      modifies this`offset
      ensures Did(old(offset), BerFormat.ReadDigits(0, count, old(Unread())), r)
    {
      var length := 0;
      var i := 0;
      while i < count
        invariant Valid() && old(offset) <= offset && length >= 0
        invariant 0 <= i <= count && count - i <= |Unread()|
        invariant BerFormat.ReadDigits(0, count, old(Unread())) == BerFormat.ReadDigits(length, count - i, Unread())
      {
        if length > ACCUMULATOR_LIMIT {
          return Failure(LengthOverflow);
        }
        assert Unread()[0] == data[offset] && Unread()[1..] == data[offset + 1..];
        length := 256 * length + data[offset];
        offset := offset + 1;
        i := i + 1;
      }
      r := Success(length);
    }

    /** PeekTag: the position is put back. */
    method PeekTag() returns (r: Result<Tag>)
      requires Valid()
      modifies this`offset
      ensures offset == old(offset) && r == Outcome(BerFormat.ReadTag(Unread()))
    {
      var saved := offset;
      r := ReadTag();
      offset := saved;
    }

    method Take(n: nat) returns (r: Result<seq<Byte>>)
      requires Valid()
      modifies this`offset
      ensures Did(old(offset), TakeOctets(n, old(Unread())), r)
    {
      if offset + n > |data| {
        return Failure(UnexpectedEof);
      }
      r := Success(data[offset..offset + n]);
      assert Unread()[..n] == r.value && Unread()[n..] == data[offset + n..];
      offset := offset + n;
    }

    method ReadBoolean() returns (r: Result<bool>)
      requires Valid()
      modifies this`offset
      ensures Did(old(offset), ReadBooleanFrom(old(Unread())), r)
    {
      hide BerFormat.ReadTag, BerFormat.ReadLength;
      var tag := ReadTag();
      if tag.Failure? {
        return Failure(tag.error);
      }
      if tag.value != Tag(CLASS_UNIVERSAL, false, TAG_BOOLEAN) {
        return Failure(TagMismatch);
      }
      var length := ReadLength();
      if length.Failure? {
        return Failure(length.error);
      }
      if length.value != 1 {
        return Failure(BadBoolean);
      }
      if offset >= |data| {
        return Failure(UnexpectedEof);
      }
      assert Unread()[0] == data[offset] && Unread()[1..] == data[offset + 1..];
      r := Success(data[offset] != 0);
      offset := offset + 1;
    }

    method ReadInteger() returns (r: Result<int>)
      requires Valid()
      modifies this`offset
      ensures Did(old(offset), ReadIntegerFrom(old(Unread())), r)
    {
      hide BerFormat.ReadTag, BerFormat.ReadLength;
      var tag := ReadTag();
      if tag.Failure? {
        return Failure(tag.error);
      }
      if tag.value != Tag(CLASS_UNIVERSAL, false, TAG_INTEGER) {
        return Failure(TagMismatch);
      }
      var length := ReadLength();
      if length.Failure? {
        return Failure(length.error);
      }
      if length.value == 0 || length.value > 8 {
        return Failure(BadInteger);
      }
      if offset + length.value > |data| {
        return Failure(UnexpectedEof);
      }
      var v := DecodeOctets(length.value);
      r := Success(v);
    }

    /** decodeInteger: sign extension, then one octet at a time. */
    method DecodeOctets(length: nat) returns (v: int)
      requires Valid() && 0 < length <= |Unread()|
      modifies this`offset
      ensures Valid() && offset == old(offset) + length
      ensures v == DecodeInteger(old(Unread())[..length])
    {
      ghost var octets := Unread()[..length];
      var first := data[offset];
      assert octets[0] == first;
      offset := offset + 1;
      v := if first >= 0x80 then -1 else 0;
      v := 256 * v + first;
      var i := 1;
      while i < length
        invariant 1 <= i <= length && offset == old(offset) + i && Valid()
        invariant DecodeInteger(octets) == FromDigits(v, octets[i..])
      {
        assert octets[i..][0] == data[offset] && octets[i..][1..] == octets[i + 1..];
        v := 256 * v + data[offset];
        offset := offset + 1;
        i := i + 1;
      }
    }

    method ReadOctetString() returns (r: Result<seq<Byte>>)
      requires Valid()
      modifies this`offset
      ensures Did(old(offset), ReadOctetStringFrom(old(Unread())), r)
    {
      hide BerFormat.ReadTag, BerFormat.ReadLength;
      var tag := ReadTag();
      if tag.Failure? {
        return Failure(tag.error);
      }
      if tag.value.class_ != CLASS_UNIVERSAL || tag.value.number != TAG_OCTET_STRING {
        return Failure(TagMismatch);
      }
      if tag.value.constructed {
        return Failure(Unsupported);
      }
      var length := ReadLength();
      if length.Failure? {
        return Failure(length.error);
      }
      r := Take(length.value);
    }

    method ReadTaggedValue() returns (r: Result<(Tag, seq<Byte>)>)
      requires Valid()
      modifies this`offset
      ensures Did(old(offset), ReadTaggedFrom(old(Unread())), r)
    {
      hide BerFormat.ReadTag, BerFormat.ReadLength;
      var tag := ReadTag();
      if tag.Failure? {
        return Failure(tag.error);
      }
      if tag.value.class_ != CLASS_CONTEXT {
        return Failure(TagMismatch);
      }
      var length := ReadLength();
      if length.Failure? {
        return Failure(length.error);
      }
      var value := Take(length.value);
      if value.Failure? {
        return Failure(value.error);
      }
      r := Success((tag.value, value.value));
    }

    /** ExpectSequence, ExpectContextTag. */
    method Expect(e: Expected) returns (r: Result<nat>)
      requires Valid()
      modifies this`offset
      ensures Did(old(offset), ExpectFrom(e, old(Unread())), r)
    {
      hide BerFormat.ReadTag, BerFormat.ReadLength;
      var tag := ReadTag();
      if tag.Failure? {
        return Failure(tag.error);
      }
      if !Meets(tag.value, e) {
        return Failure(TagMismatch);
      }
      var length := ReadLength();
      if length.Failure? {
        return Failure(length.error);
      }
      if offset + length.value > |data| {
        return Failure(UnexpectedEof);
      }
      r := length;
    }

    /** ReadSequenceContents, with the content in place of the sub-decoder over it. */
    method ReadSequenceContents() returns (r: Result<seq<Byte>>)
      requires Valid()
      modifies this`offset
      ensures Did(old(offset), SequenceFrom(old(Unread())), r)
    {
      hide ExpectFrom;
      var length := Expect(SequenceTag);
      if length.Failure? {
        return Failure(length.error);
      }
      r := Take(length.value);
    }

    method IsContextTag(number: nat) returns (r: bool)
      requires Valid()
      modifies this`offset
      ensures offset == old(offset) && r == NextIsContext(number, Unread())
    {
      var tag := PeekTag();
      r := tag.Success? && tag.value.class_ == CLASS_CONTEXT && tag.value.number == number;
    }
  }

  // ------------------------------------------------------- what the encoder wrote

  lemma IntegerElementRoundTrip(v: int, rest: seq<Byte>)
    requires MIN_INT64 <= v <= MAX_INT64
    ensures |IntegerBytes(v)| <= 8 && |BigEndian(|IntegerBytes(v)|)| <= 127
    ensures ReadIntegerFrom(Element(Tag(CLASS_UNIVERSAL, false, TAG_INTEGER), IntegerBytes(v)) + rest) == Ok(v, rest)
  {
    hide DecodeInteger, IntegerBytes, BigEndian, BerFormat.ReadTag, BerFormat.ReadLength, TagBytes, LengthBytes;
    Int64Length(v);
    IntegerRoundTrip(v);
    ElementHeader(Tag(CLASS_UNIVERSAL, false, TAG_INTEGER), IntegerBytes(v), rest);
  }

  /** Tag and length of a written element are read back, leaving its content. */
  lemma ElementHeader(t: Tag, content: seq<Byte>, rest: seq<Byte>)
    requires Encodable(t, |content|)
    ensures |BigEndian(|content|)| <= 127
    ensures var p := BerFormat.ReadTag(Element(t, content) + rest);
            && p.Ok? && p.value == t
            && BerFormat.ReadLength(p.rest) == Ok(|content|, content + rest)
    ensures (content + rest)[..|content|] == content && (content + rest)[|content|..] == rest
  {
    hide BigEndian, BerFormat.ReadTag, BerFormat.ReadLength, TagBytes, LengthBytes;
    SmallLength(|content|);
    var after := LengthBytes(|content|) + (content + rest);
    assert Element(t, content) + rest == TagBytes(t) + after;
    TagRoundTrip(t, after);
    LengthRoundTrip(|content|, content + rest);
  }
}
