/** What the decoders refuse: an element that is cut off anywhere, filters with a tag that is none of the
    ten of RFC 4511 section 4.5.1.7, and messages outside the envelope of section 4.1.1. */
module LdapRefusal {
  import opened Bytes
  import opened BerFormat
  import opened BerEncoder
  import opened BerDecoder
  import opened LdapMessage
  import opened LdapFilter

  // ------------------------------------------------------------------------ cut off

  lemma {:induction false} NeverEnding(acc: nat, s: seq<Byte>)
    requires forall k :: 0 <= k < |s| ==> s[k] >= 128
    ensures ReadBase128(acc, s).Err?
    decreases |s|
  {
    if s != [] && acc <= ACCUMULATOR_LIMIT { NeverEnding(128 * acc + (s[0] - 128), s[1..]); }
  }

  lemma {:induction false} ContinuedBits(n: nat)
    ensures forall k :: 0 <= k < |Continued(n)| ==> Continued(n)[k] >= 128
  {
    if n >= 128 { ContinuedBits(n / 128); }
  }

  /** A tag cut short is not read. */
  lemma TagCut(t: Tag, k: nat)
    requires ValidClass(t.class_) && k < |TagBytes(t)|
    ensures ReadTag(TagBytes(t)[..k]).Err?
  {
    hide ReadBase128, ValidClass;
    if k > 0 {
      var s := TagBytes(t)[..k];
      FirstOctet(t.class_, t.constructed, 0x1F);
      assert s[1..] == Base128(t.number)[..k - 1];
      if t.number >= 128 { ContinuedBits(t.number / 128); }
      NeverEnding(0, s[1..]);
    }
  }

  /** Nor is a length. */
  lemma LengthCut(n: nat, k: nat)
    requires |BigEndian(n)| <= 127 && k < |LengthBytes(n)|
    ensures ReadLength(LengthBytes(n)[..k]).Err?
  {
    hide ReadDigits, BigEndian;
  }

  /** A header is not read, or announces more than is there. */
  ghost predicate Short(s: seq<Byte>) {
    var t := ReadTag(s);
    t.Err? || (var n := ReadLength(t.rest); n.Err? || n.value > |n.rest|)
  }

  /** Every part of an element that leaves out its end is short. */
  lemma ElementCut(t: Tag, content: seq<Byte>, k: nat)
    requires Encodable(t, |content|) && k < |Wrap(t, content)|
    ensures Short(Wrap(t, content)[..k])
  {
    hide TagBytes, LengthBytes, ReadTag, ReadLength, BigEndian, Wrap;
    WrapIsElement(t, content);
    var tag, length := TagBytes(t), LengthBytes(|content|);
    var s := Wrap(t, content)[..k];
    if k < |tag| {
      assert s == tag[..k];
      TagCut(t, k);
    } else {
      var rest := s[|tag|..];
      assert s == tag + rest;
      TagRoundTrip(t, rest);
      var m := k - |tag|;
      if m < |length| {
        assert rest == length[..m];
        LengthCut(|content|, m);
      } else {
        var part := rest[|length|..];
        assert rest == length + part;
        LengthRoundTrip(|content|, part);
      }
    }
  }

  lemma ShortRefused(s: seq<Byte>)
    requires Short(s)
    ensures ReadTaggedFrom(s).Err? && ReadOctetStringFrom(s).Err? && forall e :: ExpectFrom(e, s).Err?
  {
    hide ReadTag, ReadLength;
  }

  /** No message is taken for whole before its last octet has come. */
  lemma MessageCut(m: Message, k: nat)
    requires m.op.Operation? && |MessageBytes(m)| < LIMIT && k < |MessageBytes(m)|
    ensures ParseMessage(MessageBytes(m)[..k]).Err?
  {
    hide Wrap, ExpectFrom, Short, MessageContent;
    WrapSome(SEQUENCE_TAG, MessageContent(m));
    ElementCut(SEQUENCE_TAG, MessageContent(m), k);
    ShortRefused(MessageBytes(m)[..k]);
  }

  /** The element of a filter. */
  lemma FilterIsElement(f: Filter) returns (t: Tag, content: seq<Byte>)
    ensures t.class_ == CLASS_CONTEXT && t.number <= 9 && ValidClass(t.class_)
    ensures FilterBytes(f) == Wrap(t, content)
  {
    hide Wrap;
    match f
    case And(fs) => t, content := Context(0, true), FiltersBytes(fs);
    case Or(fs) => t, content := Context(1, true), FiltersBytes(fs);
    case Not(g) => t, content := Context(2, true), FilterBytes(g);
    case Compare(how, attribute, value) =>
      t, content := Context(ComparisonNumber(how), true), Wrap(OCTETS_TAG, attribute) + Wrap(OCTETS_TAG, value);
    case Contains(attribute, parts) =>
      t, content := Context(4, true), Wrap(OCTETS_TAG, attribute) + Wrap(SEQUENCE_TAG, PartsBytes(parts));
    case Present(attribute) => t, content := Context(7, false), attribute;
    case Extensible(m) => t, content := Context(9, true), RuleBytes(m);
  }

  /** Nor is a filter. */
  lemma FilterCut(f: Filter, k: nat)
    requires |FilterBytes(f)| < LIMIT && k < |FilterBytes(f)|
    ensures ParseFilter(FilterBytes(f)[..k]).Err?
  {
    hide Wrap, ReadTaggedFrom, Short, FilterBytes;
    var t, content := FilterIsElement(f);
    WrapSome(t, content);
    ElementCut(t, content, k);
    ShortRefused(FilterBytes(f)[..k]);
  }

  // ------------------------------------------------------------------- out of bounds

  /** On any octets: a filter that is taken begins with one of the ten tags, constructed except for a
      presence test, and is the filter of that tag. */
  lemma TakenFilters(s: seq<Byte>)
    requires ParseFilter(s).Ok?
    ensures var t := ReadTag(s);
            && t.Ok? && t.value.class_ == CLASS_CONTEXT && t.value.number <= 9
            && (t.value.constructed <==> t.value.number != 7)
            && match ParseFilter(s).value
               case And(_) => t.value.number == 0
               case Or(_) => t.value.number == 1
               case Not(_) => t.value.number == 2
               case Compare(Equality, _, _) => t.value.number == 3
               case Compare(GreaterOrEqual, _, _) => t.value.number == 5
               case Compare(LessOrEqual, _, _) => t.value.number == 6
               case Compare(ApproxMatch, _, _) => t.value.number == 8
               case Contains(_, _) => t.value.number == 4
               case Present(_) => t.value.number == 7
               case Extensible(_) => t.value.number == 9
  {
    hide ReadTag, ReadLength, ParseParts, ParseRule, ParseAll, ReadOctetStringFrom, ExpectFrom;
  }

  /** On any octets: a message that is taken is a universal constructed SEQUENCE, all of it there, has an ID
      from 0 to 2^31 - 1, and its operation's tag is of the application class. */
  lemma TakenMessages(data: seq<Byte>) returns (length: nat, body: seq<Byte>, afterId: seq<Byte>)
    requires ParseMessage(data).Ok?
    ensures ReadTag(data).Ok? && ReadTag(data).value == Tag(CLASS_UNIVERSAL, true, 0x10)
    ensures ReadLength(ReadTag(data).rest) == Ok(length, body) && length <= |body|
    ensures var m := ParseMessage(data).value;
            && ReadIntegerFrom(body) == Ok(m.id, afterId) && 0 <= m.id <= 0x7FFF_FFFF
            && ReadTag(afterId).Ok? && ReadTag(afterId).value.class_ == CLASS_APPLICATION
            && m.op.Operation? && m.op.tag == ReadTag(afterId).value.number
  {
    hide ReadTag, ReadLength, ReadIntegerFrom, ParseTrailer, ExpectFrom, ParseOperation;
    var s := ExpectFrom(SequenceTag, data);
    length, body := s.value, s.rest;
    afterId := ReadIntegerFrom(body).rest;
    SequenceTaken(data);
    OperationTaken(afterId);
  }

  lemma SequenceTaken(s: seq<Byte>)
    requires ExpectFrom(SequenceTag, s).Ok?
    ensures var r := ExpectFrom(SequenceTag, s);
            && ReadTag(s).Ok? && ReadTag(s).value == Tag(CLASS_UNIVERSAL, true, 0x10)
            && ReadLength(ReadTag(s).rest) == Ok(r.value, r.rest) && r.value <= |r.rest|
  {
    hide ReadTag, ReadLength;
  }

  lemma OperationTaken(s: seq<Byte>)
    requires ParseOperation(s).Ok?
    ensures ReadTag(s).Ok? && ReadTag(s).value.class_ == CLASS_APPLICATION
    ensures ParseOperation(s).value.Operation? && ParseOperation(s).value.tag == ReadTag(s).value.number
  {
    hide ReadTag, ReadLength;
  }

  // ------------------------------------------------------------- elements of any content

  /** A BOOLEAN is read exactly when it has one octet, and is true unless that is zero (X.690 section 8.2). */
  lemma AnyBoolean(content: seq<Byte>, rest: seq<Byte>)
    requires |content| < LIMIT
    ensures var r := ReadBooleanFrom(Wrap(BOOLEAN_TAG, content) + rest);
            if |content| == 1 then r == Ok(content[0] != 0, rest) else r == Err(BadBoolean)
  {
    hide ReadTag, ReadLength, Wrap;
    WrapHeader(BOOLEAN_TAG, content, rest);
  }

  /** An INTEGER is read exactly when it has one to eight octets. */
  lemma AnyInteger(content: seq<Byte>, rest: seq<Byte>)
    requires |content| < LIMIT
    ensures var r := ReadIntegerFrom(Wrap(INTEGER_TAG, content) + rest);
            if 1 <= |content| <= 8 then r == Ok(DecodeInteger(content), rest) else r == Err(BadInteger)
  {
    hide ReadTag, ReadLength, Wrap;
    WrapHeader(INTEGER_TAG, content, rest);
  }

  /** An OCTET STRING is read exactly when it is primitive; no other element is taken for one. */
  lemma AnyOctets(t: Tag, content: seq<Byte>, rest: seq<Byte>)
    requires Encodable(t, |content|)
    ensures ReadOctetStringFrom(Wrap(t, content) + rest) ==
            if t == Tag(CLASS_UNIVERSAL, false, 4) then Ok(content, rest)
            else if t == Tag(CLASS_UNIVERSAL, true, 4) then Err(Unsupported) else Err(TagMismatch)
  {
    hide ReadTag, ReadLength, Wrap;
    WrapHeader(t, content, rest);
  }

  /** A length in indefinite form is refused. */
  lemma Indefinite(rest: seq<Byte>)
    ensures ReadLength([0x80] + rest) == Err(IndefiniteLength)
  {
  }

  /** A substring component other than initial, any and final is refused. */
  lemma UnknownPart(parts: Substrings, number: nat, constructed: bool, v: seq<Byte>, rest: seq<Byte>, stop: nat)
    requires 3 <= number <= 30 && |v| < LIMIT && stop <= |rest|
    ensures ParseParts(parts, stop, Wrap(Context(number, constructed), v) + rest) == Err(BadFilter)
  {
    hide ReadTaggedFrom, Wrap;
    TaggedBack(number, constructed, v, rest);
    TaggedSome(Wrap(Context(number, constructed), v) + rest);
  }

  lemma TaggedSome(s: seq<Byte>)
    requires ReadTaggedFrom(s).Ok?
    ensures |ReadTaggedFrom(s).rest| < |s|
  {
  }

  /** In an extensible match the flag is set by any octet but zero, and unknown components are skipped. */
  lemma RuleComponent(m: MatchingRule, number: nat, v: seq<Byte>, rest: seq<Byte>)
    requires number <= 30 && |v| < LIMIT
    ensures var r := ParseRule(m, Wrap(Context(number, false), v) + rest);
            && (number == 4 ==> r == ParseRule(m.(dnAttributes := m.dnAttributes || (v != [] && v[0] != 0)), rest))
            && (number == 0 || number > 4 ==> r == ParseRule(m, rest))
  {
    hide ReadTaggedFrom, Wrap;
    TaggedBack(number, false, v, rest);
    TaggedSome(Wrap(Context(number, false), v) + rest);
  }

  /** An empty controls element has no controls. */
  lemma EmptyControls(rest: seq<Byte>)
    ensures ParseControls(Wrap(CONTROLS_TAG, []) + rest) == Ok([], rest)
  {
    hide ReadTag, ReadLength, Wrap;
    WrapHeader(CONTROLS_TAG, [], rest);
    assert [] + rest == rest;
  }

  /** An operation is written in constructed form, but for UnbindRequest, DelRequest and AbandonRequest. */
  lemma OperationForm(tag: nat)
    requires tag <= 30
    ensures ValidClass(OperationTag(tag).class_)
    ensures TagBytes(OperationTag(tag)) == [0x40 + (if tag in {2, 10, 16} then 0 else 0x20) + tag]
  {
  }
}
