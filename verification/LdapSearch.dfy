/** The filter parser of internal/ldap/search.go as it runs: a decoder for each nested element. */
module LdapSearch {
  import opened Bytes
  import opened BerFormat
  import opened BerDecoder
  import opened LdapFilter

  method ReadParts(d: Decoder, end: nat) returns (r: Result<Substrings>)
    requires d.Valid() && end <= |d.data|
    modifies d`offset
    ensures d.Did(old(d.offset), ParseParts(NO_PARTS, |d.data| - end, old(d.Unread())), r)
  {
    hide ReadTaggedFrom;
    var parts := NO_PARTS;
    while d.offset < end
      invariant d.Valid() && old(d.offset) <= d.offset
      invariant ParseParts(NO_PARTS, |d.data| - end, old(d.Unread())) == ParseParts(parts, |d.data| - end, d.Unread())
    {
      var component := d.ReadTaggedValue();
      if component.Failure? {
        return Failure(component.error);
      }
      var next := AddPart(parts, component.value.0.number, component.value.1);
      if next.None? {
        return Failure(BadFilter);
      }
      parts := next.value;
    }
    r := Success(parts);
  }

  method ReadSubstrings(content: seq<Byte>) returns (r: Result<Filter>)
    ensures r == Outcome(ParseSubstrings(content))
  {
    hide ReadOctetStringFrom, ExpectFrom, ParseParts;
    var d := new Decoder(content);
    assert d.Unread() == content;
    var attribute := d.ReadOctetString();
    if attribute.Failure? {
      return Failure(attribute.error);
    }
    var length := d.Expect(SequenceTag);
    if length.Failure? {
      return Failure(length.error);
    }
    var parts := ReadParts(d, d.offset + length.value);
    if parts.Failure? {
      return Failure(parts.error);
    }
    r := Success(Contains(attribute.value, parts.value));
  }

  method ReadRule(content: seq<Byte>) returns (r: Result<MatchingRule>)
    ensures r == Outcome(ParseRule(NO_RULE, content))
  {
    hide ReadTaggedFrom;
    var d := new Decoder(content);
    assert d.Unread() == content;
    var m := NO_RULE;
    while |d.data| - d.offset > 0
      invariant d.Valid()
      invariant ParseRule(NO_RULE, content) == ParseRule(m, d.Unread())
    {
      var component := d.ReadTaggedValue();
      if component.Failure? {
        return Failure(component.error);
      }
      m := AddRule(m, component.value.0.number, component.value.1);
    }
    r := Success(m);
  }

  method ReadLeaf(t: Tag, content: seq<Byte>) returns (r: Result<Filter>)
    ensures r == Outcome(ParseLeaf(t, content))
  {
    hide ReadOctetStringFrom, ParseSubstrings, ParseRule;
    match t.number
    case 3 | 5 | 6 | 8 =>
      if !t.constructed {
        return Failure(BadFilter);
      }
      var d := new Decoder(content);
      assert d.Unread() == content;
      var attribute := d.ReadOctetString();
      if attribute.Failure? {
        return Failure(attribute.error);
      }
      var value := d.ReadOctetString();
      if value.Failure? {
        return Failure(value.error);
      }
      r := Success(Compare(ComparisonOf(t.number).value, attribute.value, value.value));
    case 4 =>
      if !t.constructed {
        return Failure(BadFilter);
      }
      r := ReadSubstrings(content);
    case 7 =>
      if t.constructed {
        return Failure(BadFilter);
      }
      r := Success(Present(content));
    case 9 =>
      if !t.constructed {
        return Failure(BadFilter);
      }
      var m := ReadRule(content);
      if m.Failure? {
        return Failure(m.error);
      }
      r := Success(Extensible(m.value));
    case _ =>
      r := Failure(BadFilter);
  }

  /** parseSearchFilter: it ends on every input, never leaves the buffer, and takes from it what the
      filter grammar says. */
  method ReadFilter(d: Decoder) returns (r: Result<Filter>)
    requires d.Valid()
    modifies d`offset
    ensures d.Did(old(d.offset), ParseFilter(old(d.Unread())), r)
    ensures r.Success? ==> 2 * Nodes(r.value) <= d.offset - old(d.offset)
    decreases |d.data| - d.offset, 0
  {
    hide ReadTaggedFrom, ParseLeaf, Nodes;
    NodesBounded(d.Unread());
    var tagged := d.ReadTaggedValue();
    if tagged.Failure? {
      return Failure(tagged.error);
    }
    var (t, content) := tagged.value;
    if t.number == 0 || t.number == 1 {
      if !t.constructed {
        return Failure(BadFilter);
      }
      var children := ReadAll(content);
      if children.Failure? {
        return Failure(children.error);
      }
      r := Success(if t.number == 0 then And(children.value) else Or(children.value));
    } else if t.number == 2 {
      if !t.constructed {
        return Failure(BadFilter);
      }
      var inner := new Decoder(content);
      assert inner.Unread() == content;
      var child := ReadFilter(inner);
      if child.Failure? {
        return Failure(child.error);
      }
      r := Success(Not(child.value));
    } else {
      r := ReadLeaf(t, content);
    }
  }

  /** The loop over a SET OF Filter. */
  method ReadAll(content: seq<Byte>) returns (r: Result<seq<Filter>>)
    ensures r == Outcome(ParseAll(content))
    decreases |content|, 1
  {
    hide ParseFilter;
    var d := new Decoder(content);
    assert d.Unread() == content;
    var children: seq<Filter> := [];
    JoinedNone(ParseAll(content));
    while |d.data| - d.offset > 0
      invariant d.Valid()
      invariant ParseAll(content) == Joined(children, ParseAll(d.Unread()))
    {
      var child := ReadFilter(d);
      if child.Failure? {
        return Failure(child.error);
      }
      JoinedMore(children, child.value, ParseAll(d.Unread()));
      children := children + [child.value];
    }
    assert children + [] == children;
    r := Success(children);
  }
}
