/** The LDAP message envelope (RFC 4511 sections 4.1.1 and 4.1.11): the octets of a message, and how
    internal/ldap/message.go reads arbitrary octets as one. */
module LdapMessage {
  import opened Bytes
  import opened BerFormat
  import opened BerEncoder
  import opened BerDecoder

  const MAX_MESSAGE_ID := 0x7FFF_FFFF

  const INTEGER_TAG := Tag(CLASS_UNIVERSAL, false, TAG_INTEGER)
  const BOOLEAN_TAG := Tag(CLASS_UNIVERSAL, false, TAG_BOOLEAN)
  const OCTETS_TAG := Tag(CLASS_UNIVERSAL, false, TAG_OCTET_STRING)
  const SEQUENCE_TAG := Tag(CLASS_UNIVERSAL, true, TAG_SEQUENCE)
  const CONTROLS_TAG := Tag(CLASS_CONTEXT, true, 0)

  /** An absent control value and an empty one are the same on the wire and here. */
  datatype Control = Control(oid: seq<Byte>, critical: bool, value: seq<Byte>)

  datatype Operation = NoOperation | Operation(tag: nat, data: seq<Byte>)

  datatype Message = Message(id: int, op: Operation, controls: seq<Control>)

  // ------------------------------------------------------------------- encoding

  /** isConstructedOperation: unbind, delete and abandon requests are primitive. */
  predicate IsConstructed(tag: nat) { tag != 2 && tag != 10 && tag != 16 }

  function OperationTag(tag: nat): Tag { Tag(CLASS_APPLICATION, IsConstructed(tag), tag) }

  function ControlContent(c: Control): seq<Byte> {
    Wrap(OCTETS_TAG, c.oid)
    + (if c.critical then Wrap(BOOLEAN_TAG, [0xFF]) else [])
    + (if c.value != [] then Wrap(OCTETS_TAG, c.value) else [])
  }

  function ControlBytes(c: Control): seq<Byte> { Wrap(SEQUENCE_TAG, ControlContent(c)) }

  function ControlsContent(cs: seq<Control>): seq<Byte> {
    if cs == [] then [] else ControlBytes(cs[0]) + ControlsContent(cs[1..])
  }

  function ControlsBytes(cs: seq<Control>): seq<Byte> {
    if cs == [] then [] else Wrap(CONTROLS_TAG, Wrap(SEQUENCE_TAG, ControlsContent(cs)))
  }

  function MessageContent(m: Message): seq<Byte>
    requires m.op.Operation?
  {
    Wrap(INTEGER_TAG, IntegerBytes(m.id)) + Wrap(OperationTag(m.op.tag), m.op.data) + ControlsBytes(m.controls)
  }

  function MessageBytes(m: Message): seq<Byte>
    requires m.op.Operation?
  {
    Wrap(SEQUENCE_TAG, MessageContent(m))
  }

  // -------------------------------------------------------------------- parsing

  function ParseValue(s: seq<Byte>): Parsed<seq<Byte>> {
    if s != [] && NextIsUniversal(TAG_OCTET_STRING, s) then ReadOctetStringFrom(s) else Ok([], s)
  }

  function ParseCritical(s: seq<Byte>): Parsed<bool> {
    if s != [] && NextIsUniversal(TAG_BOOLEAN, s) then ReadBooleanFrom(s) else Ok(false, s)
  }

  /** What follows the value inside a control is ignored. */
  function ParseControlContent(s: seq<Byte>): Parsed<Control> {
    var (oid, s1) :- ReadOctetStringFrom(s);
    var (critical, s2) :- ParseCritical(s1);
    var (value, s3) :- ParseValue(s2);
    Ok(Control(oid, critical, value), s3)
  }

  function ParseControl(s: seq<Byte>): (r: Parsed<Control>)
    ensures r.Ok? ==> |r.rest| < |s|
  {
    var (content, rest) :- SequenceFrom(s);
    var (c, _) :- ParseControlContent(content);
    Ok(c, rest)
  }

  /** Controls up to the point where only `stop` octets are left; any error is fatal. */
  function ParseWrapped(stop: nat, s: seq<Byte>): Parsed<seq<Control>>
    decreases |s|
  {
    if |s| <= stop || s == [] then Ok([], s)
    else
      var (c, s1) :- ParseControl(s);
      var (cs, s2) :- ParseWrapped(stop, s1);
      Ok([c] + cs, s2)
  }

  /** Controls as long as they can be read. */
  function ParseBare(s: seq<Byte>): seq<Control>
    decreases |s|
  {
    if s == [] then []
    else
      var p := ParseControl(s);
      if p.Err? then [] else [p.value] + ParseBare(p.rest)
  }

  /** Either a SEQUENCE OF Control inside the context tag, or Control elements directly in it: a
      first inner element that is an OCTET STRING tells them apart. */
  function ParseControls(s: seq<Byte>): Parsed<seq<Control>> {
    var (n, s1) :- ExpectFrom(ContextTag(0), s);
    if n == 0 then Ok([], s1)
    else
      var (t, _) :- ReadTag(s1);
      if t.class_ != CLASS_UNIVERSAL || t.number != TAG_SEQUENCE then Err(BadControls)
      else
        var (m, s2) :- ExpectFrom(SequenceTag, s1);
        if s2 != [] && NextIsUniversal(TAG_OCTET_STRING, s2) then
          var (c, s3) :- ParseControl(s1);
          Ok([c] + ParseBare(s3), [])
        else ParseWrapped(|s2| - m, s2)
  }

  /** The operation, and what is left of the octets after it. */
  function ParseOperation(s: seq<Byte>): (r: Parsed<Operation>) {
    var (t, s1) :- ReadTag(s);
    if t.class_ != CLASS_APPLICATION then Err(BadOperation)
    else
      var (n, s2) :- ReadLength(s1);
      var (data, s3) :- TakeOctets(n, s2);
      Ok(Operation(t.number, data), s3)
  }

  /** Controls between the operation and the end of the message, which leaves `after` octets. */
  function ParseTrailer(after: nat, s: seq<Byte>): Parsed<seq<Control>> {
    if |s| <= after then Ok([], s)
    else
      var remaining := s[..|s| - after];
      if NextIsContext(0, remaining) then ParseControls(remaining) else Ok([], s)
  }

  function ParseMessage(data: seq<Byte>): Parsed<Message> {
    if data == [] then Err(EmptyMessage)
    else
      var (n, s1) :- ExpectFrom(SequenceTag, data);
      var (id, s2) :- ReadIntegerFrom(s1);
      if id < 0 || id > MAX_MESSAGE_ID then Err(BadMessageId)
      else
        var (op, s3) :- ParseOperation(s2);
        var (controls, s4) :- ParseTrailer(|s1| - n, s3);
        Ok(Message(id, op, controls), s4)
  }

  // ----------------------------------------------------------------- round trips

  const LIMIT := 0x1_0000_0000

  /** The tag and the length in front of a wrapped element are read back. */
  lemma WrapHeader(t: Tag, content: seq<Byte>, rest: seq<Byte>)
    requires Encodable(t, |content|)
    ensures var p := ReadTag(Wrap(t, content) + rest);
            && p.Ok? && p.value == t
            && ReadLength(p.rest) == Ok(|content|, content + rest)
    ensures (content + rest)[..|content|] == content && (content + rest)[|content|..] == rest
  {
    hide BigEndian, ReadTag, ReadLength, TagBytes, LengthBytes, Element, Wrap;
    WrapIsElement(t, content);
    ElementHeader(t, content, rest);
  }

  lemma WrapSome(t: Tag, content: seq<Byte>)
    requires ValidClass(t.class_)
    ensures |Wrap(t, content)| >= |content| + 2
  {
  }

  lemma OctetsBack(v: seq<Byte>, rest: seq<Byte>)
    requires |v| < LIMIT
    ensures ReadOctetStringFrom(Wrap(OCTETS_TAG, v) + rest) == Ok(v, rest)
    ensures NextIsUniversal(TAG_OCTET_STRING, Wrap(OCTETS_TAG, v) + rest)
  {
    hide ReadTag, ReadLength, Wrap;
    WrapHeader(OCTETS_TAG, v, rest);
  }

  lemma BooleanBack(rest: seq<Byte>)
    ensures ReadBooleanFrom(Wrap(BOOLEAN_TAG, [0xFF]) + rest) == Ok(true, rest)
    ensures NextIsUniversal(TAG_BOOLEAN, Wrap(BOOLEAN_TAG, [0xFF]) + rest)
    ensures !NextIsUniversal(TAG_OCTET_STRING, Wrap(BOOLEAN_TAG, [0xFF]) + rest)
  {
    hide ReadTag, ReadLength, Wrap;
    WrapHeader(BOOLEAN_TAG, [0xFF], rest);
    assert ([0xFF] + rest)[1..] == rest;
  }

  lemma SequenceBack(v: seq<Byte>, rest: seq<Byte>)
    requires |v| < LIMIT
    ensures ExpectFrom(SequenceTag, Wrap(SEQUENCE_TAG, v) + rest) == Ok(|v|, v + rest)
    ensures SequenceFrom(Wrap(SEQUENCE_TAG, v) + rest) == Ok(v, rest)
    ensures NextIsUniversal(TAG_SEQUENCE, Wrap(SEQUENCE_TAG, v) + rest)
    ensures !NextIsUniversal(TAG_OCTET_STRING, Wrap(SEQUENCE_TAG, v) + rest)
  {
    hide ReadTag, ReadLength, Wrap;
    WrapHeader(SEQUENCE_TAG, v, rest);
  }

  lemma IntegerBack(v: int, rest: seq<Byte>)
    requires 0 <= v <= MAX_MESSAGE_ID
    ensures ReadIntegerFrom(Wrap(INTEGER_TAG, IntegerBytes(v)) + rest) == Ok(v, rest)
  {
    hide ReadTag, ReadLength, Wrap, ReadIntegerFrom, Element, IntegerBytes;
    IntegerElementRoundTrip(v, rest);
    WrapIsElement(INTEGER_TAG, IntegerBytes(v));
  }

  lemma NoValue()
    ensures !NextIsUniversal(TAG_OCTET_STRING, []) && !NextIsUniversal(TAG_BOOLEAN, [])
  {
  }

  /** A control comes back, whichever of its optional parts it has. */
  lemma ControlContentBack(c: Control)
    requires |ControlContent(c)| < LIMIT
    ensures var p := ParseControlContent(ControlContent(c)); p.Ok? && p.value == c
  {
    hide ReadTag, ReadLength, Wrap, ReadOctetStringFrom, ReadBooleanFrom, NextIsUniversal;
    var critical: seq<Byte> := if c.critical then Wrap(BOOLEAN_TAG, [0xFF]) else [];
    var value: seq<Byte> := if c.value != [] then Wrap(OCTETS_TAG, c.value) else [];
    WrapSome(OCTETS_TAG, c.oid);
    WrapSome(OCTETS_TAG, c.value);
    WrapSome(BOOLEAN_TAG, [0xFF]);
    assert ControlContent(c) == Wrap(OCTETS_TAG, c.oid) + (critical + value);
    OctetsBack(c.oid, critical + value);
    if c.critical { BooleanBack(value); } else { assert critical + value == value; }
    if c.value != [] {
      OctetsBack(c.value, []);
      assert value + [] == value;
      CriticalAbsent(c.value);
    } else {
      NoValue();
    }
  }

  lemma CriticalAbsent(v: seq<Byte>)
    requires |v| < LIMIT
    ensures !NextIsUniversal(TAG_BOOLEAN, Wrap(OCTETS_TAG, v))
  {
    hide ReadTag, ReadLength, Wrap;
    WrapHeader(OCTETS_TAG, v, []);
    assert Wrap(OCTETS_TAG, v) + [] == Wrap(OCTETS_TAG, v);
  }

  lemma ControlBack(c: Control, rest: seq<Byte>)
    requires |ControlBytes(c)| < LIMIT
    ensures ParseControl(ControlBytes(c) + rest) == Ok(c, rest)
  {
    hide Wrap, ControlContent, ParseControlContent, SequenceFrom;
    WrapSome(SEQUENCE_TAG, ControlContent(c));
    ControlContentBack(c);
    SequenceBack(ControlContent(c), rest);
  }

  lemma {:induction false} WrappedBack(cs: seq<Control>)
    requires |ControlsContent(cs)| < LIMIT
    ensures ParseWrapped(0, ControlsContent(cs)) == Ok(cs, [])
  {
    hide ControlBytes, ParseControl;
    if cs != [] {
      ControlBack(cs[0], ControlsContent(cs[1..]));
      ControlSome(cs[0]);
      WrappedBack(cs[1..]);
      assert [cs[0]] + cs[1..] == cs;
    }
  }

  lemma ControlSome(c: Control)
    ensures |ControlBytes(c)| >= 2
  {
    WrapSome(SEQUENCE_TAG, ControlContent(c));
  }

  lemma {:induction false} BareBack(cs: seq<Control>)
    requires |ControlsContent(cs)| < LIMIT
    ensures ParseBare(ControlsContent(cs)) == cs
  {
    hide ControlBytes, ParseControl;
    if cs != [] {
      ControlBack(cs[0], ControlsContent(cs[1..]));
      ControlSome(cs[0]);
      BareBack(cs[1..]);
      assert [cs[0]] + cs[1..] == cs;
    }
  }

  /** A non-empty list starts with a SEQUENCE, so the wrapper is recognised as one. */
  lemma StartsWithSequence(cs: seq<Control>)
    requires cs != [] && |ControlsContent(cs)| < LIMIT
    ensures ControlsContent(cs) != []
    ensures NextIsUniversal(TAG_SEQUENCE, ControlsContent(cs))
    ensures !NextIsUniversal(TAG_OCTET_STRING, ControlsContent(cs))
  {
    hide Wrap, ControlContent, NextIsUniversal, SequenceFrom, ExpectFrom;
    ControlSome(cs[0]);
    WrapSome(SEQUENCE_TAG, ControlContent(cs[0]));
    SequenceBack(ControlContent(cs[0]), ControlsContent(cs[1..]));
  }

  lemma ContextBack(v: seq<Byte>)
    requires |v| < LIMIT
    ensures NextIsContext(0, Wrap(CONTROLS_TAG, v))
    ensures ExpectFrom(ContextTag(0), Wrap(CONTROLS_TAG, v)) == Ok(|v|, v)
  {
    hide ReadTag, ReadLength, Wrap;
    WrapHeader(CONTROLS_TAG, v, []);
    assert Wrap(CONTROLS_TAG, v) + [] == Wrap(CONTROLS_TAG, v) && v + [] == v;
  }

  /** The encoder's form of controls, a SEQUENCE OF Control inside the tag, is read back. */
  lemma ControlsBack(cs: seq<Control>)
    requires cs != [] && |ControlsBytes(cs)| < LIMIT
    ensures NextIsContext(0, ControlsBytes(cs))
    ensures var p := ParseControls(ControlsBytes(cs)); p.Ok? && p.value == cs
  {
    hide Wrap, ControlsContent, NextIsContext, ExpectFrom, ParseWrapped, ReadTag;
    var content := ControlsContent(cs);
    var wrapped := Wrap(SEQUENCE_TAG, content);
    WrapSome(SEQUENCE_TAG, content);
    WrapSome(CONTROLS_TAG, wrapped);
    ContextBack(wrapped);
    SequenceBack(content, []);
    assert wrapped + [] == wrapped && content + [] == content;
    StartsWithSequence(cs);
    WrappedBack(cs);
  }

  /** So is the form some clients send, the Control elements directly inside the tag. */
  lemma BareControlsBack(cs: seq<Control>)
    requires cs != [] && |ControlsContent(cs)| < LIMIT
    ensures var p := ParseControls(Wrap(CONTROLS_TAG, ControlsContent(cs))); p.Ok? && p.value == cs
  {
    hide Wrap, NextIsContext, ExpectFrom, ParseControl, ReadTag, ControlContent, ReadOctetStringFrom;
    var content := ControlsContent(cs);
    var tail := ControlsContent(cs[1..]);
    ContextBack(content);
    StartsWithSequence(cs);
    ControlSome(cs[0]);
    ControlBack(cs[0], tail);
    BareBack(cs[1..]);
    FirstInner(cs[0], tail);
    assert [cs[0]] + cs[1..] == cs;
  }

  /** Inside the first control lies its OID, an OCTET STRING. */
  lemma FirstInner(c: Control, tail: seq<Byte>)
    requires |ControlBytes(c)| < LIMIT
    ensures var p := ExpectFrom(SequenceTag, ControlBytes(c) + tail);
            p.Ok? && p.rest != [] && NextIsUniversal(TAG_OCTET_STRING, p.rest)
  {
    hide Wrap, ExpectFrom, SequenceFrom, NextIsUniversal, ReadOctetStringFrom;
    var content := ControlContent(c);
    WrapSome(SEQUENCE_TAG, content);
    WrapSome(OCTETS_TAG, c.oid);
    SequenceBack(content, tail);
    var rest := (if c.critical then Wrap(BOOLEAN_TAG, [0xFF]) else [])
    + (if c.value != [] then Wrap(OCTETS_TAG, c.value) else []) + tail;
    assert content + tail == Wrap(OCTETS_TAG, c.oid) + rest;
    OctetsBack(c.oid, rest);
  }

  predicate TagFits(tag: nat) { tag / 128 <= ACCUMULATOR_LIMIT }

  lemma OperationBack(op: Operation, rest: seq<Byte>)
    requires op.Operation? && |op.data| < LIMIT
    ensures ParseOperation(Wrap(OperationTag(op.tag), op.data) + rest) ==
            if TagFits(op.tag) then Ok(op, rest) else Err(TagOverflow)
  {
    hide ReadTag, ReadLength, Wrap, BigEndian, TagBytes, LengthBytes;
    var t := OperationTag(op.tag);
    if TagFits(op.tag) {
      WrapHeader(t, op.data, rest);
    } else {
      WrapIsElement(t, op.data);
      TagRoundTrip(t, LengthBytes(|op.data|) + op.data + rest);
      assert Element(t, op.data) + rest == TagBytes(t) + (LengthBytes(|op.data|) + op.data + rest);
    }
  }

  lemma TrailerBack(cs: seq<Control>, rest: seq<Byte>)
    requires |ControlsBytes(cs)| < LIMIT
    ensures var p := ParseTrailer(|rest|, ControlsBytes(cs) + rest); p.Ok? && p.value == cs
  {
    hide ControlsBytes, ParseControls, NextIsContext;
    if cs == [] {
      NoControls();
      assert ControlsBytes(cs) + rest == rest;
    } else {
      assert (ControlsBytes(cs) + rest)[..|ControlsBytes(cs)|] == ControlsBytes(cs);
      SomeControls(cs);
      ControlsBack(cs);
    }
  }

  lemma NoControls()
    ensures ControlsBytes([]) == []
  {
  }

  lemma SomeControls(cs: seq<Control>)
    requires cs != []
    ensures |ControlsBytes(cs)| > 0
  {
    WrapSome(CONTROLS_TAG, Wrap(SEQUENCE_TAG, ControlsContent(cs)));
  }

  /** The envelope round trip. Any message the encoder accepts, followed by anything, is parsed back
      as itself exactly when its operation tag is within what the decoder reads. */
  lemma MessageRoundTrip(m: Message, rest: seq<Byte>)
    requires 0 <= m.id <= MAX_MESSAGE_ID && m.op.Operation? && |MessageBytes(m)| < LIMIT
    ensures var p := ParseMessage(MessageBytes(m) + rest);
            && (TagFits(m.op.tag) ==> p.Ok? && p.value == m)
            && (!TagFits(m.op.tag) ==> p == Err(TagOverflow))
  {
    hide ReadTag, ReadLength, Wrap, ControlsBytes, IntegerBytes, ExpectFrom, ReadIntegerFrom, ParseOperation,
      ParseTrailer;
    var content := MessageContent(m);
    var id := Wrap(INTEGER_TAG, IntegerBytes(m.id));
    var op := Wrap(OperationTag(m.op.tag), m.op.data);
    var controls := ControlsBytes(m.controls);
    WrapSome(SEQUENCE_TAG, content);
    WrapSome(OperationTag(m.op.tag), m.op.data);
    SequenceBack(content, rest);
    assert content + rest == id + (op + (controls + rest));
    IntegerBack(m.id, op + (controls + rest));
    OperationBack(m.op, controls + rest);
    TrailerBack(m.controls, rest);
  }
}
