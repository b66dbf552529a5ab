/** Search filters (RFC 4511 section 4.5.1.7): their octets, and the recursive descent of
    internal/ldap/search.go over any octets. */
module LdapFilter {
  import opened Bytes
  import opened BerFormat
  import opened BerEncoder
  import opened BerDecoder
  import opened LdapMessage

  datatype Option<+T> = None | Some(value: T)

  datatype Comparison = Equality | GreaterOrEqual | LessOrEqual | ApproxMatch

  datatype Substrings = Substrings(initial: Option<seq<Byte>>, any: seq<seq<Byte>>, final: Option<seq<Byte>>)

  datatype MatchingRule = MatchingRule(rule: seq<Byte>, type_: seq<Byte>, value: seq<Byte>, dnAttributes: bool)

  datatype Filter =
    | And(children: seq<Filter>)
    | Or(children: seq<Filter>)
    | Not(child: Filter)
    | Compare(how: Comparison, attribute: seq<Byte>, value: seq<Byte>)
    | Contains(attribute: seq<Byte>, parts: Substrings)
    | Present(attribute: seq<Byte>)
    | Extensible(match_: MatchingRule)

  // -------------------------------------------------------------------- parsing

  /** One component into the substrings read so far; a later initial or final replaces it. */
  function AddPart(parts: Substrings, number: nat, value: seq<Byte>): Option<Substrings> {
    match number
    case 0 => Some(parts.(initial := Some(value)))
    case 1 => Some(parts.(any := parts.any + [value]))
    case 2 => Some(parts.(final := Some(value)))
    case _ => None
  }

  /** Components until only `stop` octets are left. */
  function ParseParts(parts: Substrings, stop: nat, s: seq<Byte>): Parsed<Substrings>
    decreases |s|
  {
    if |s| <= stop then Ok(parts, s)
    else
      var (tv, s1) :- ReadTaggedFrom(s);
      var next := AddPart(parts, tv.0.number, tv.1);
      if next.None? then Err(BadFilter) else ParseParts(next.value, stop, s1)
  }

  const NO_PARTS := Substrings(None, [], None)

  function ParseSubstrings(s: seq<Byte>): Parsed<Filter> {
    var (attribute, s1) :- ReadOctetStringFrom(s);
    var (n, s2) :- ExpectFrom(SequenceTag, s1);
    var (parts, s3) :- ParseParts(NO_PARTS, |s2| - n, s2);
    Ok(Contains(attribute, parts), s3)
  }

  /** Components with other tags are skipped. */
  function AddRule(m: MatchingRule, number: nat, value: seq<Byte>): MatchingRule {
    match number
    case 1 => m.(rule := value)
    case 2 => m.(type_ := value)
    case 3 => m.(value := value)
    case 4 => if |value| > 0 && value[0] != 0 then m.(dnAttributes := true) else m
    case _ => m
  }

  function ParseRule(m: MatchingRule, s: seq<Byte>): Parsed<MatchingRule>
    decreases |s|
  {
    if s == [] then Ok(m, s)
    else
      var (tv, s1) :- ReadTaggedFrom(s);
      ParseRule(AddRule(m, tv.0.number, tv.1), s1)
  }

  const NO_RULE := MatchingRule([], [], [], false)

  function ParseCompare(how: Comparison, s: seq<Byte>): Parsed<Filter> {
    var (attribute, s1) :- ReadOctetStringFrom(s);
    var (value, s2) :- ReadOctetStringFrom(s1);
    Ok(Compare(how, attribute, value), s2)
  }

  function ComparisonOf(number: nat): Option<Comparison> {
    match number
    case 3 => Some(Equality)
    case 5 => Some(GreaterOrEqual)
    case 6 => Some(LessOrEqual)
    case 8 => Some(ApproxMatch)
    case _ => None
  }

  /** The leaf filters, from the content of their element; leftovers inside it are ignored. */
  function ParseLeaf(t: Tag, content: seq<Byte>): Parsed<Filter> {
    if ComparisonOf(t.number).Some? then
      if t.constructed then ParseCompare(ComparisonOf(t.number).value, content) else Err(BadFilter)
    else if t.number == 4 then
      if t.constructed then ParseSubstrings(content) else Err(BadFilter)
    else if t.number == 7 then
      if t.constructed then Err(BadFilter) else Ok(Present(content), [])
    else if t.number == 9 then
      if t.constructed then
        var (m, s) :- ParseRule(NO_RULE, content);
        Ok(Extensible(m), s)
      else Err(BadFilter)
    else Err(BadFilter)
  }

  /** parseSearchFilter: one element, and for the connectives the filters inside it. */
  function ParseFilter(s: seq<Byte>): (r: Parsed<Filter>)
    ensures r.Ok? ==> |r.rest| < |s|
    decreases |s|, 0
  {
    var (tv, rest) :- ReadTaggedFrom(s);
    var (t, content) := tv;
    if t.number == 0 || t.number == 1 then
      if !t.constructed then Err(BadFilter)
      else
        var (fs, _) :- ParseAll(content);
        Ok(if t.number == 0 then And(fs) else Or(fs), rest)
    else if t.number == 2 then
      if !t.constructed then Err(BadFilter)
      else
        var (f, _) :- ParseFilter(content);
        Ok(Not(f), rest)
    else
      var (f, _) :- ParseLeaf(t, content);
      Ok(f, rest)
  }

  function ParseAll(s: seq<Byte>): (r: Parsed<seq<Filter>>)
    decreases |s|, 1
  {
    if s == [] then Ok([], s)
    else
      var (f, s1) :- ParseFilter(s);
      var (fs, s2) :- ParseAll(s1);
      Ok([f] + fs, s2)
  }

  // ---------------------------------------------------------------- size of the tree

  function Nodes(f: Filter): nat {
    match f
    case And(fs) => 1 + NodesOf(fs)
    case Or(fs) => 1 + NodesOf(fs)
    case Not(g) => 1 + Nodes(g)
    case _ => 1
  }

  function NodesOf(fs: seq<Filter>): nat {
    if fs == [] then 0 else Nodes(fs[0]) + NodesOf(fs[1..])
  }

  /** Whatever the octets, the tree has at most one node for every two octets it was read from. */
  lemma {:induction false} NodesBounded(s: seq<Byte>)
    ensures var p := ParseFilter(s); p.Ok? ==> 2 * Nodes(p.value) <= |s| - |p.rest|
    decreases |s|, 0
  {
    hide ReadTaggedFrom, ParseLeaf;
    var tagged := ReadTaggedFrom(s);
    if tagged.Ok? {
      var (t, content) := tagged.value;
      if t.number == 0 || t.number == 1 {
        NodesOfBounded(content);
      } else if t.number == 2 {
        NodesBounded(content);
      } else {
        LeafIsOne(t, content);
      }
    }
  }

  lemma LeafIsOne(t: Tag, content: seq<Byte>)
    ensures var p := ParseLeaf(t, content); p.Ok? ==> Nodes(p.value) == 1
  {
  }

  lemma {:induction false} NodesOfBounded(s: seq<Byte>)
    ensures var p := ParseAll(s); p.Ok? ==> 2 * NodesOf(p.value) <= |s|
    decreases |s|, 1
  {
    hide ParseFilter;
    if s != [] {
      NodesBounded(s);
      var p := ParseFilter(s);
      if p.Ok? {
        NodesOfBounded(p.rest);
        var more := ParseAll(p.rest);
        if more.Ok? { assert ([p.value] + more.value)[1..] == more.value; }
      }
    }
  }

  // ----------------------------------------------------------------- the RFC's octets

  function Context(number: nat, constructed: bool): Tag { Tag(CLASS_CONTEXT, constructed, number) }

  function OptionalPart(number: nat, part: Option<seq<Byte>>): seq<Byte> {
    if part.Some? then Wrap(Context(number, false), part.value) else []
  }

  function AnyParts(parts: seq<seq<Byte>>): seq<Byte> {
    if parts == [] then [] else Wrap(Context(1, false), parts[0]) + AnyParts(parts[1..])
  }

  function PartsBytes(parts: Substrings): seq<Byte> {
    OptionalPart(0, parts.initial) + AnyParts(parts.any) + OptionalPart(2, parts.final)
  }

  function RuleBytes(m: MatchingRule): seq<Byte> {
    (if m.rule != [] then Wrap(Context(1, false), m.rule) else [])
    + (if m.type_ != [] then Wrap(Context(2, false), m.type_) else [])
    + Wrap(Context(3, false), m.value)
    + (if m.dnAttributes then Wrap(Context(4, false), [0xFF]) else [])
  }

  function ComparisonNumber(how: Comparison): nat {
    match how
    case Equality => 3
    case GreaterOrEqual => 5
    case LessOrEqual => 6
    case ApproxMatch => 8
  }

  function FilterBytes(f: Filter): (r: seq<Byte>)
    ensures |r| >= 2
  {
    match f
    case And(fs) => Wrap(Context(0, true), FiltersBytes(fs))
    case Or(fs) => Wrap(Context(1, true), FiltersBytes(fs))
    case Not(g) => Wrap(Context(2, true), FilterBytes(g))
    case Compare(how, attribute, value) =>
      Wrap(Context(ComparisonNumber(how), true), Wrap(OCTETS_TAG, attribute) + Wrap(OCTETS_TAG, value))
    case Contains(attribute, parts) =>
      Wrap(Context(4, true), Wrap(OCTETS_TAG, attribute) + Wrap(SEQUENCE_TAG, PartsBytes(parts)))
    case Present(attribute) => Wrap(Context(7, false), attribute)
    case Extensible(m) => Wrap(Context(9, true), RuleBytes(m))
  }

  function FiltersBytes(fs: seq<Filter>): seq<Byte> {
    if fs == [] then [] else FilterBytes(fs[0]) + FiltersBytes(fs[1..])
  }

  // ------------------------------------------------------------------- round trip

  lemma TaggedBack(number: nat, constructed: bool, v: seq<Byte>, rest: seq<Byte>)
    requires number <= 30 && |v| < LIMIT
    ensures ReadTaggedFrom(Wrap(Context(number, constructed), v) + rest) == Ok((Context(number, constructed), v), rest)
  {
    hide ReadTag, ReadLength, Wrap;
    WrapHeader(Context(number, constructed), v, rest);
  }

  /** One component in front of the rest is added to the parts read so far. */
  lemma PartBack(parts: Substrings, number: nat, v: seq<Byte>, rest: seq<Byte>)
    requires number <= 2 && |v| < LIMIT
    ensures ParseParts(parts, 0, Wrap(Context(number, false), v) + rest) ==
            ParseParts(AddPart(parts, number, v).value, 0, rest)
  {
    hide ReadTaggedFrom, Wrap;
    WrapSome(Context(number, false), v);
    TaggedBack(number, false, v, rest);
  }

  lemma OptionalBack(parts: Substrings, number: nat, part: Option<seq<Byte>>, rest: seq<Byte>)
    requires number == 0 || number == 2
    requires part.Some? ==> |part.value| < LIMIT
    ensures ParseParts(parts, 0, OptionalPart(number, part) + rest) ==
            ParseParts(if part.Some? then AddPart(parts, number, part.value).value else parts, 0, rest)
  {
    hide ParseParts, Wrap;
    if part.Some? { PartBack(parts, number, part.value, rest); }
    else { assert OptionalPart(number, part) + rest == rest; }
  }

  lemma {:induction false} AnyBack(parts: Substrings, any: seq<seq<Byte>>, rest: seq<Byte>)
    requires |AnyParts(any)| < LIMIT
    ensures ParseParts(parts, 0, AnyParts(any) + rest) == ParseParts(parts.(any := parts.any + any), 0, rest)
    decreases |any|
  {
    hide ParseParts, Wrap;
    if any == [] {
      assert AnyParts(any) + rest == rest && parts.any + any == parts.any;
    } else {
      WrapSome(Context(1, false), any[0]);
      var more := AnyParts(any[1..]) + rest;
      assert AnyParts(any) + rest == Wrap(Context(1, false), any[0]) + more;
      PartBack(parts, 1, any[0], more);
      AnyBack(AddPart(parts, 1, any[0]).value, any[1..], rest);
      assert parts.any + [any[0]] + any[1..] == parts.any + any;
    }
  }

  lemma PartsBack(parts: Substrings)
    requires |PartsBytes(parts)| < LIMIT
    ensures ParseParts(NO_PARTS, 0, PartsBytes(parts)) == Ok(parts, [])
  {
    hide ParseParts, Wrap;
    PartSizes(parts);
    var any := AnyParts(parts.any);
    var final := OptionalPart(2, parts.final);
    assert PartsBytes(parts) == OptionalPart(0, parts.initial) + (any + final);
    OptionalBack(NO_PARTS, 0, parts.initial, any + final);
    var p1 := NO_PARTS.(initial := parts.initial);
    AnyBack(p1, parts.any, final);
    assert [] + parts.any == parts.any;
    OptionalBack(p1.(any := parts.any), 2, parts.final, []);
    assert final + [] == final;
    PartsDone(parts);
  }

  lemma PartSizes(parts: Substrings)
    ensures parts.initial.Some? ==> |parts.initial.value| <= |PartsBytes(parts)|
    ensures parts.final.Some? ==> |parts.final.value| <= |PartsBytes(parts)|
    ensures |AnyParts(parts.any)| <= |PartsBytes(parts)|
  {
    hide Wrap;
    if parts.initial.Some? { WrapSome(Context(0, false), parts.initial.value); }
    if parts.final.Some? { WrapSome(Context(2, false), parts.final.value); }
  }

  lemma PartsDone(parts: Substrings)
    ensures ParseParts(parts, 0, []) == Ok(parts, [])
  {
  }

  lemma RulePartBack(m: MatchingRule, number: nat, v: seq<Byte>, rest: seq<Byte>)
    requires 1 <= number <= 4 && |v| < LIMIT
    ensures ParseRule(m, Wrap(Context(number, false), v) + rest) == ParseRule(AddRule(m, number, v), rest)
  {
    hide ReadTaggedFrom, Wrap;
    WrapSome(Context(number, false), v);
    TaggedBack(number, false, v, rest);
  }

  lemma RuleBack(m: MatchingRule)
    requires |RuleBytes(m)| < LIMIT
    ensures ParseRule(NO_RULE, RuleBytes(m)) == Ok(m, [])
  {
    hide ParseRule, Wrap;
    var rule: seq<Byte> := if m.rule != [] then Wrap(Context(1, false), m.rule) else [];
    var type_: seq<Byte> := if m.type_ != [] then Wrap(Context(2, false), m.type_) else [];
    var value := Wrap(Context(3, false), m.value);
    var dn: seq<Byte> := if m.dnAttributes then Wrap(Context(4, false), [0xFF]) else [];
    WrapSome(Context(1, false), m.rule);
    WrapSome(Context(2, false), m.type_);
    WrapSome(Context(3, false), m.value);
    var m1 := NO_RULE.(rule := m.rule);
    var m2 := m1.(type_ := m.type_);
    assert RuleBytes(m) == rule + (type_ + (value + dn));
    if m.rule != [] { RulePartBack(NO_RULE, 1, m.rule, type_ + (value + dn)); }
    else { assert rule + (type_ + (value + dn)) == type_ + (value + dn); }
    if m.type_ != [] { RulePartBack(m1, 2, m.type_, value + dn); }
    else { assert type_ + (value + dn) == value + dn; }
    RulePartBack(m2, 3, m.value, dn);
    if m.dnAttributes {
      RulePartBack(m2.(value := m.value), 4, [0xFF], []);
      assert dn + [] == dn;
    }
    RuleDone(m);
  }

  lemma RuleDone(m: MatchingRule)
    ensures ParseRule(m, []) == Ok(m, [])
  {
  }

  lemma CompareBack(how: Comparison, attribute: seq<Byte>, value: seq<Byte>)
    requires |attribute| < LIMIT && |value| < LIMIT
    ensures ParseCompare(how, Wrap(OCTETS_TAG, attribute) + Wrap(OCTETS_TAG, value)) ==
            Ok(Compare(how, attribute, value), [])
  {
    hide ReadOctetStringFrom, Wrap, NextIsUniversal;
    OctetsBack(attribute, Wrap(OCTETS_TAG, value));
    OctetsBack(value, []);
    assert Wrap(OCTETS_TAG, value) + [] == Wrap(OCTETS_TAG, value);
  }

  lemma SubstringsBack(attribute: seq<Byte>, parts: Substrings)
    requires |attribute| < LIMIT && |PartsBytes(parts)| < LIMIT
    ensures ParseSubstrings(Wrap(OCTETS_TAG, attribute) + Wrap(SEQUENCE_TAG, PartsBytes(parts))) ==
            Ok(Contains(attribute, parts), [])
  {
    hide ReadOctetStringFrom, Wrap, NextIsUniversal, ExpectFrom, SequenceFrom, PartsBytes, ParseParts;
    var list := Wrap(SEQUENCE_TAG, PartsBytes(parts));
    OctetsBack(attribute, list);
    SequenceBack(PartsBytes(parts), []);
    assert list + [] == list && PartsBytes(parts) + [] == PartsBytes(parts);
    PartsBack(parts);
  }

  /** Every filter of the RFC, in its octets and in front of anything, parses to itself. */
  lemma {:induction false} FilterRoundTrip(f: Filter, rest: seq<Byte>)
    requires |FilterBytes(f)| < LIMIT
    ensures ParseFilter(FilterBytes(f) + rest) == Ok(f, rest)
    decreases f, 0
  {
    hide ReadTaggedFrom, Wrap, PartsBytes, RuleBytes;
    match f
    case And(fs) =>
      WrapSome(Context(0, true), FiltersBytes(fs));
      TaggedBack(0, true, FiltersBytes(fs), rest);
      FiltersRoundTrip(fs);
    case Or(fs) =>
      WrapSome(Context(1, true), FiltersBytes(fs));
      TaggedBack(1, true, FiltersBytes(fs), rest);
      FiltersRoundTrip(fs);
    case Not(g) =>
      WrapSome(Context(2, true), FilterBytes(g));
      TaggedBack(2, true, FilterBytes(g), rest);
      FilterRoundTrip(g, []);
      assert FilterBytes(g) + [] == FilterBytes(g);
    case _ =>
      LeafBack(f, rest);
  }

  lemma {:induction false} FiltersRoundTrip(fs: seq<Filter>)
    requires |FiltersBytes(fs)| < LIMIT
    ensures ParseAll(FiltersBytes(fs)) == Ok(fs, [])
    decreases fs, 1
  {
    hide ParseFilter, FilterBytes;
    if fs != [] {
      FilterRoundTrip(fs[0], FiltersBytes(fs[1..]));
      FiltersRoundTrip(fs[1..]);
      assert [fs[0]] + fs[1..] == fs;
    }
  }

  lemma LeafBack(f: Filter, rest: seq<Byte>)
    requires !f.And? && !f.Or? && !f.Not? && |FilterBytes(f)| < LIMIT
    ensures ParseFilter(FilterBytes(f) + rest) == Ok(f, rest)
  {
    hide ReadTaggedFrom, Wrap, PartsBytes, RuleBytes, ParseCompare, ParseSubstrings, ParseRule;
    match f
    case Compare(how, attribute, value) =>
      var content := Wrap(OCTETS_TAG, attribute) + Wrap(OCTETS_TAG, value);
      WrapSome(OCTETS_TAG, attribute);
      WrapSome(OCTETS_TAG, value);
      WrapSome(Context(ComparisonNumber(how), true), content);
      TaggedBack(ComparisonNumber(how), true, content, rest);
      CompareBack(how, attribute, value);
    case Contains(attribute, parts) =>
      var content := Wrap(OCTETS_TAG, attribute) + Wrap(SEQUENCE_TAG, PartsBytes(parts));
      WrapSome(OCTETS_TAG, attribute);
      WrapSome(SEQUENCE_TAG, PartsBytes(parts));
      WrapSome(Context(4, true), content);
      TaggedBack(4, true, content, rest);
      SubstringsBack(attribute, parts);
    case Present(attribute) =>
      WrapSome(Context(7, false), attribute);
      TaggedBack(7, false, attribute, rest);
    case Extensible(m) =>
      WrapSome(Context(9, true), RuleBytes(m));
      TaggedBack(9, true, RuleBytes(m), rest);
      RuleBack(m);
  }
}
