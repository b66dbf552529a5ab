/** internal/ldap/message.go as it runs: driving the encoder's open elements and the decoder's
    position. The results are those the envelope's octets call for. */
module LdapCodec {
  import opened Bytes
  import opened BerFormat
  import opened BerEncoder
  import opened BerDecoder
  import opened LdapMessage

  // ------------------------------------------------------------------- encoding
  //
  // Each writer returns, as a ghost, the octets it added to the innermost open element. Below 2^32
  // octets they are the ones the message format calls for.

  /** Close the element opened at pos on output base, now holding content. */
  method EndWrap(e: Encoder, pos: nat, ghost base: Output, t: Tag, ghost content: seq<Byte>)
    requires e.Valid() && ValidClass(t.class_)
    requires e.out == Put(Opened(base, TagBytes(t)), content)
    requires pos == |Layout(base.done, base.open)| + |TagBytes(t)|
    modifies e
    ensures e.Valid() && e.out == Put(base, Wrap(t, content))
  {
    hide TagBytes, Patched, Layout, Opened, Put, Closed, Wrap, ValidClass;
    OpenedShape(base, TagBytes(t), content);
    ClosedWrap(base, t, content);
    var ok := e.End(pos);
  }

  /** WriteInteger, WriteBoolean, WriteOctetString. */
  method WritePrimitive(e: Encoder, t: Tag, content: seq<Byte>) returns (ok: bool, ghost octets: seq<Byte>)
    requires e.Valid() && ValidClass(t.class_)
    modifies e
    ensures e.Valid()
    ensures ok ==> e.out == Put(old(e.out), octets)
    ensures |content| < LIMIT ==> ok && octets == Wrap(t, content)
  {
    hide TagBytes, Patched, Layout, Put, Wrap, Element, BigEndian, ValidClass;
    if |content| < LIMIT { WrapIsElement(t, content); }
    ok := e.WriteElement(t, content);
    octets := if ok then Element(t, content) else [];
  }

  lemma OpenedDone(out: Output, tag: seq<Byte>)
    ensures Opened(out, tag).done == out.done && Put(Opened(out, tag), []) == Opened(out, tag)
  {
    OpenedShape(out, tag, []);
  }

  method EncodeControl(e: Encoder, c: Control) returns (ok: bool, ghost octets: seq<Byte>)
    requires e.Valid()
    modifies e
    ensures e.Valid()
    ensures ok ==> e.out == Put(old(e.out), octets)
    ensures |ControlBytes(c)| < LIMIT ==> ok && octets == ControlBytes(c)
  {
    hide TagBytes, Patched, Layout, Put, Wrap, Element, BigEndian, Opened;
    octets := [];
    ghost var base := e.out;
    OpenedDone(base, TagBytes(SEQUENCE_TAG));
    ControlSizes(c);
    var pos := e.Begin(SEQUENCE_TAG);
    ghost var inner := e.out;
    ghost var oid, critical, value;
    critical, value := [], [];
    ok, oid := WritePrimitive(e, OCTETS_TAG, c.oid);
    if !ok { return; }
    if c.critical {
      ok, critical := WritePrimitive(e, BOOLEAN_TAG, [0xFF]);
      if !ok { return; }
      PutTwice(inner, oid, critical);
    } else {
      assert oid + critical == oid;
    }
    if c.value != [] {
      ok, value := WritePrimitive(e, OCTETS_TAG, c.value);
      if !ok { return; }
      PutTwice(inner, oid + critical, value);
    } else {
      assert oid + critical + value == oid + critical;
    }
    EndWrap(e, pos, base, SEQUENCE_TAG, oid + critical + value);
    octets := Wrap(SEQUENCE_TAG, oid + critical + value);
  }

  lemma ControlSizes(c: Control)
    ensures |c.oid| <= |ControlContent(c)| <= |ControlBytes(c)| && |c.value| <= |ControlContent(c)|
  {
    hide Wrap;
    WrapSome(SEQUENCE_TAG, ControlContent(c));
    WrapSome(OCTETS_TAG, c.oid);
    WrapSome(OCTETS_TAG, c.value);
  }

  lemma {:induction false} ContentSnoc(cs: seq<Control>, k: nat)
    requires k < |cs|
    ensures ControlsContent(cs[..k + 1]) == ControlsContent(cs[..k]) + ControlBytes(cs[k])
  {
    hide ControlBytes;
    if k == 0 {
      assert cs[..1][1..] == [];
    } else {
      assert cs[..k + 1][1..] == cs[1..][..k] && cs[..k][1..] == cs[1..][..k - 1];
      ContentSnoc(cs[1..], k - 1);
    }
  }

  lemma {:induction false} ContentPrefix(cs: seq<Control>, k: nat)
    requires k <= |cs|
    ensures |ControlsContent(cs[..k])| <= |ControlsContent(cs)|
    decreases |cs| - k
  {
    hide ControlBytes;
    if k < |cs| {
      ContentSnoc(cs, k);
      ContentPrefix(cs, k + 1);
    } else {
      assert cs[..k] == cs;
    }
  }

  /** The loop over the controls. */
  method EncodeEach(e: Encoder, cs: seq<Control>) returns (ok: bool, ghost octets: seq<Byte>)
    requires e.Valid()
    modifies e
    ensures e.Valid()
    ensures ok ==> e.out == Put(old(e.out), octets)
    ensures |ControlsContent(cs)| < LIMIT ==> ok && octets == ControlsContent(cs)
  {
    hide TagBytes, Patched, Layout, Put, Wrap, Element, BigEndian, ControlBytes;
    octets := [];
    PutNone(e.out);
    ghost var base := e.out;
    var i := 0;
    while i < |cs|
      invariant 0 <= i <= |cs|
      invariant e.Valid() && e.out == Put(base, octets)
      invariant |ControlsContent(cs)| < LIMIT ==> octets == ControlsContent(cs[..i])
    {
      ContentSnoc(cs, i);
      ContentPrefix(cs, i + 1);
      ghost var more;
      ok, more := EncodeControl(e, cs[i]);
      if !ok { return; }
      PutTwice(base, octets, more);
      octets := octets + more;
      i := i + 1;
    }
    assert cs[..i] == cs;
    ok := true;
  }

  lemma PutNone(out: Output)
    ensures Put(out, []) == out
  {
    if out.open == [] {
      assert out.done + [] == out.done;
    } else {
      var body := out.open[|out.open| - 1].body;
      assert body + [] == body;
    }
  }

  method EncodeControls(e: Encoder, cs: seq<Control>) returns (ok: bool, ghost octets: seq<Byte>)
    requires e.Valid() && cs != []
    modifies e
    ensures e.Valid()
    ensures ok ==> e.out == Put(old(e.out), octets)
    ensures |ControlsBytes(cs)| < LIMIT ==> ok && octets == ControlsBytes(cs)
  {
    hide TagBytes, Patched, Layout, Put, Wrap, Element, BigEndian, Opened, ControlsContent;
    octets := [];
    WrapSome(SEQUENCE_TAG, ControlsContent(cs));
    WrapSome(CONTROLS_TAG, Wrap(SEQUENCE_TAG, ControlsContent(cs)));
    ghost var base := e.out;
    OpenedDone(base, TagBytes(CONTROLS_TAG));
    var contextPos := e.Begin(CONTROLS_TAG);
    ghost var middle := e.out;
    OpenedDone(middle, TagBytes(SEQUENCE_TAG));
    var sequencePos := e.Begin(SEQUENCE_TAG);
    ghost var list;
    ok, list := EncodeEach(e, cs);
    if !ok { return; }
    EndWrap(e, sequencePos, middle, SEQUENCE_TAG, list);
    EndWrap(e, contextPos, base, CONTROLS_TAG, Wrap(SEQUENCE_TAG, list));
    octets := Wrap(CONTROLS_TAG, Wrap(SEQUENCE_TAG, list));
  }

  lemma MessageSizes(m: Message)
    requires m.op.Operation?
    ensures |MessageContent(m)| <= |MessageBytes(m)|
    ensures |ControlsBytes(m.controls)| <= |MessageContent(m)| && |m.op.data| <= |MessageContent(m)|
  {
    hide Wrap, ControlsBytes;
    WrapSome(SEQUENCE_TAG, MessageContent(m));
    WrapSome(OperationTag(m.op.tag), m.op.data);
  }

  /** Message ID and protocol operation. */
  method EncodeHead(e: Encoder, id: int, op: Operation) returns (ok: bool, ghost octets: seq<Byte>)
    requires e.Valid() && 0 <= id <= MAX_MESSAGE_ID && op.Operation?
    modifies e
    ensures e.Valid()
    ensures ok && e.out == Put(old(e.out), octets)
    ensures octets == Wrap(INTEGER_TAG, IntegerBytes(id)) + Wrap(OperationTag(op.tag), op.data)
  {
    hide TagBytes, Patched, Layout, Put, Wrap, Element, BigEndian, Opened, IntegerBytes;
    ghost var start := e.out;
    Int64Length(id);
    var encoded := EncodeInteger(id);
    ok, octets := WritePrimitive(e, INTEGER_TAG, encoded);
    ghost var base := e.out;
    var t := OperationTag(op.tag);
    OpenedDone(base, TagBytes(t));
    var pos := e.Begin(t);
    e.WriteRaw(op.data);
    EndWrap(e, pos, base, t, op.data);
    PutTwice(start, octets, Wrap(t, op.data));
    octets := octets + Wrap(t, op.data);
  }

  /** LDAPMessage.Encode: its two refusals, and otherwise the octets of the message. */
  method Encode(m: Message) returns (r: Result<seq<Byte>>)
    ensures m.id < 0 || m.id > MAX_MESSAGE_ID ==> r == Failure(BadMessageId)
    ensures 0 <= m.id <= MAX_MESSAGE_ID && m.op.NoOperation? ==> r == Failure(MissingOperation)
    ensures 0 <= m.id <= MAX_MESSAGE_ID && m.op.Operation? && |MessageBytes(m)| < LIMIT ==>
              r == Success(MessageBytes(m))
  {
    hide TagBytes, Patched, Layout, Wrap, Element, BigEndian, Opened, IntegerBytes, ControlsBytes;
    if m.id < 0 || m.id > MAX_MESSAGE_ID {
      return Failure(BadMessageId);
    }
    if m.op == NoOperation {
      return Failure(MissingOperation);
    }
    MessageSizes(m);
    var e := new Encoder();
    ghost var base := e.out;
    OpenedDone(base, TagBytes(SEQUENCE_TAG));
    var pos := e.Begin(SEQUENCE_TAG);
    ghost var inner := e.out;
    var ok;
    ghost var head, controls;
    ok, head := EncodeHead(e, m.id, m.op);
    controls := [];
    if |m.controls| > 0 {
      ok, controls := EncodeControls(e, m.controls);
      if !ok {
        return Failure(LengthOverflow);
      }
      PutTwice(inner, head, controls);
    } else {
      NoControls();
      assert head + controls == head;
    }
    EndWrap(e, pos, base, SEQUENCE_TAG, head + controls);
    ClosedLayout(e.out);
    assert [] + Wrap(SEQUENCE_TAG, head + controls) == Wrap(SEQUENCE_TAG, head + controls);
    r := Success(e.buf);
  }

  lemma ClosedLayout(out: Output)
    requires out.open == []
    ensures Layout(out.done, out.open) == out.done
  {
  }

  // ------------------------------------------------------------------- decoding

  method ReadControlContent(content: seq<Byte>) returns (r: Result<Control>)
    ensures r == Outcome(ParseControlContent(content))
  {
    hide ReadTag, ReadOctetStringFrom, ReadBooleanFrom;
    var d := new Decoder(content);
    assert d.Unread() == content;
    var oid := d.ReadOctetString();
    if oid.Failure? {
      return Failure(oid.error);
    }
    var critical := false;
    var left := d.Remaining();
    if left > 0 {
      var tag := d.PeekTag();
      if tag.Success? && tag.value.class_ == CLASS_UNIVERSAL && tag.value.number == TAG_BOOLEAN {
        var flag := d.ReadBoolean();
        if flag.Failure? {
          return Failure(flag.error);
        }
        critical := flag.value;
      }
    }
    var value: seq<Byte> := [];
    left := d.Remaining();
    if left > 0 {
      var tag := d.PeekTag();
      if tag.Success? && tag.value.class_ == CLASS_UNIVERSAL && tag.value.number == TAG_OCTET_STRING {
        var octets := d.ReadOctetString();
        if octets.Failure? {
          return Failure(octets.error);
        }
        value := octets.value;
      }
    }
    r := Success(Control(oid.value, critical, value));
  }

  method ReadControl(d: Decoder) returns (r: Result<Control>)
    requires d.Valid()
    modifies d`offset
    ensures d.Did(old(d.offset), ParseControl(old(d.Unread())), r)
  {
    hide SequenceFrom, ParseControlContent;
    var content := d.ReadSequenceContents();
    if content.Failure? {
      return Failure(content.error);
    }
    r := ReadControlContent(content.value);
  }

  /** The loop over a SEQUENCE OF Control that ends at position end. */
  method ReadWrapped(d: Decoder, end: nat) returns (r: Result<seq<Control>>)
    requires d.Valid() && end <= |d.data|
    modifies d`offset
    ensures d.Did(old(d.offset), ParseWrapped(|d.data| - end, old(d.Unread())), r)
  {
    hide ParseControl;
    ghost var stop := |d.data| - end;
    var controls: seq<Control> := [];
    JoinedNone(ParseWrapped(stop, d.Unread()));
    while d.offset < end && |d.data| - d.offset > 0
      invariant d.Valid() && old(d.offset) <= d.offset
      invariant ParseWrapped(stop, old(d.Unread())) == Joined(controls, ParseWrapped(stop, d.Unread()))
    {
      var c := ReadControl(d);
      if c.Failure? {
        return Failure(c.error);
      }
      JoinedMore(controls, c.value, ParseWrapped(stop, d.Unread()));
      controls := controls + [c.value];
    }
    assert controls + [] == controls;
    r := Success(controls);
  }

  /** The loop over bare controls, which gives up silently at the first that cannot be read. */
  method ReadBare(d: Decoder) returns (r: seq<Control>)
    requires d.Valid()
    modifies d`offset
    ensures d.Valid() && r == ParseBare(old(d.Unread()))
  {
    hide ParseControl;
    r := [];
    while |d.data| - d.offset > 0
      invariant d.Valid() && old(d.offset) <= d.offset
      invariant ParseBare(old(d.Unread())) == r + ParseBare(d.Unread())
    {
      ghost var before := d.Unread();
      var c := ReadControl(d);
      if c.Failure? {
        break;
      }
      assert r + ([c.value] + ParseBare(d.Unread())) == r + [c.value] + ParseBare(d.Unread());
      r := r + [c.value];
    }
  }

  /** parseControls, on a decoder of its own over the octets after the operation. */
  method ReadControls(d: Decoder) returns (r: Result<seq<Control>>)
    requires d.Valid()
    modifies d`offset
    ensures r == Outcome(ParseControls(old(d.Unread())))
  {
    hide ReadTag, ExpectFrom, ParseControl, ParseBare, ParseWrapped;
    var length := d.Expect(ContextTag(0));
    if length.Failure? {
      return Failure(length.error);
    }
    if length.value == 0 {
      return Success([]);
    }
    var tag := d.PeekTag();
    if tag.Failure? {
      return Failure(tag.error);
    }
    if tag.value.class_ != CLASS_UNIVERSAL || tag.value.number != TAG_SEQUENCE {
      return Failure(BadControls);
    }
    var start := d.offset;
    var inner := d.Expect(SequenceTag);
    if inner.Failure? {
      return Failure(inner.error);
    }
    var end := d.offset + inner.value;
    if |d.data| - d.offset > 0 {
      var first := d.PeekTag();
      if first.Success? && first.value.class_ == CLASS_UNIVERSAL && first.value.number == TAG_OCTET_STRING {
        d.offset := start;
        var c := ReadControl(d);
        if c.Failure? {
          return Failure(c.error);
        }
        var others := ReadBare(d);
        return Success([c.value] + others);
      }
    }
    r := ReadWrapped(d, end);
  }

  method ReadOperation(d: Decoder) returns (r: Result<Operation>)
    requires d.Valid()
    modifies d`offset
    ensures d.Did(old(d.offset), ParseOperation(old(d.Unread())), r)
  {
    hide ReadTag, ReadLength;
    var tag := d.ReadTag();
    if tag.Failure? {
      return Failure(tag.error);
    }
    if tag.value.class_ != CLASS_APPLICATION {
      return Failure(BadOperation);
    }
    var length := d.ReadLength();
    if length.Failure? {
      return Failure(length.error);
    }
    var data := d.Take(length.value);
    if data.Failure? {
      return Failure(data.error);
    }
    r := Success(Operation(tag.value.number, data.value));
  }

  /** The controls, if any, between the operation and the end of the message. */
  method ReadTrailer(data: seq<Byte>, from: nat, until: nat) returns (r: Result<seq<Control>>)
    requires from <= |data| && until <= |data|
    ensures r == Outcome(ParseTrailer(|data| - until, data[from..]))
  {
    hide ParseControls, NextIsContext;
    if from >= until {
      return Success([]);
    }
    var remaining := data[from..until];
    assert remaining == data[from..][..until - from];
    var d := new Decoder(remaining);
    assert d.Unread() == remaining;
    var present := d.IsContextTag(0);
    if !present {
      return Success([]);
    }
    r := ReadControls(d);
  }

  /** ParseLDAPMessage, on any octets. */
  method Parse(data: seq<Byte>) returns (r: Result<Message>)
    ensures r == Outcome(ParseMessage(data))
  {
    hide ExpectFrom, ReadIntegerFrom, ParseOperation, ParseTrailer;
    if |data| == 0 {
      return Failure(EmptyMessage);
    }
    var d := new Decoder(data);
    assert d.Unread() == data;
    var length := d.Expect(SequenceTag);
    if length.Failure? {
      return Failure(length.error);
    }
    var contentEnd := d.offset + length.value;
    var id := d.ReadInteger();
    if id.Failure? {
      return Failure(id.error);
    }
    if id.value < 0 || id.value > MAX_MESSAGE_ID {
      return Failure(BadMessageId);
    }
    var op := ReadOperation(d);
    if op.Failure? {
      return Failure(op.error);
    }
    var operationEnd := d.offset;
    var controls := ReadTrailer(data, operationEnd, contentEnd);
    if controls.Failure? {
      return Failure(controls.error);
    }
    r := Success(Message(id.value, op.value, controls.value));
  }

  /** What one server encodes another parses: on every message the encoder accepts whose operation
      tag the decoder can read. */
  method Exchange(m: Message) returns (r: Result<Message>)
    requires 0 <= m.id <= MAX_MESSAGE_ID && m.op.Operation? && |MessageBytes(m)| < LIMIT
    ensures r == if TagFits(m.op.tag) then Success(m) else Failure(TagOverflow)
  {
    hide MessageBytes, ParseMessage;
    var octets := Encode(m);
    MessageRoundTrip(m, []);
    assert MessageBytes(m) + [] == MessageBytes(m);
    r := Parse(octets.value);
  }
}
