/** Directory entries and their serialized form (internal/raft/statemachine.go). The attributes are
    a Go map, whose iteration order is arbitrary: every statement is for any order. */
module EntryCodec {
  import opened Bytes
  import opened ByteReader

  type Name = seq<Byte>
  type Values = seq<seq<Byte>>
  type Attributes = map<Name, Values>

  datatype Entry = Entry(dn: Name, attributes: Attributes)

  const UINT16 := 0x1_0000
  const UINT32 := 0x1_0000_0000

  /** One order in which a map may be iterated: every key once. */
  ghost predicate Enumerates(order: seq<Name>, m: Attributes) {
    && (forall j, k :: 0 <= j < k < |order| ==> order[j] != order[k])
    && (forall x :: x in order <==> x in m)
  }

  // ------------------------------------------------------------------- the bytes

  function ValuesBytes(vs: Values): seq<Byte> {
    if vs == [] then [] else Blob(4, vs[0]) + ValuesBytes(vs[1..])
  }

  function AttributeBytes(name: Name, vs: Values): seq<Byte> {
    Blob(2, name) + LittleEndian(2, |vs|) + ValuesBytes(vs)
  }

  function AttributesBytes(order: seq<Name>, m: Attributes): seq<Byte>
    requires forall x :: x in order ==> x in m
  {
    if order == [] then [] else AttributeBytes(order[0], m[order[0]]) + AttributesBytes(order[1..], m)
  }

  /** serializeEntry, iterating the attributes in this order. */
  function DataBytes(e: Entry, order: seq<Name>): seq<Byte>
    requires Enumerates(order, e.attributes)
  {
    Blob(2, e.dn) + LittleEndian(2, |order|) + AttributesBytes(order, e.attributes)
  }

  function ParseValues(count: nat, s: seq<Byte>): Read<Values>
    decreases count
  {
    if count == 0 then Got([], s)
    else
      var (v, s1) :- ReadBlob(4, s);
      var (vs, s2) :- ParseValues(count - 1, s1);
      Got([v] + vs, s2)
  }

  function ParseAttribute(s: seq<Byte>): Read<(Name, Values)> {
    var (name, s1) :- ReadBlob(2, s);
    var (count, s2) :- Field(2, s1);
    var (vs, s3) :- ParseValues(count, s2);
    Got((name, vs), s3)
  }

  /** Attributes added to those read so far; a repeated name replaces. */
  function ParseAttributes(count: nat, m: Attributes, s: seq<Byte>): Read<Attributes>
    decreases count
  {
    if count == 0 then Got(m, s)
    else
      var (a, s1) :- ParseAttribute(s);
      ParseAttributes(count - 1, m[a.0 := a.1], s1)
  }

  /** deserializeEntry, which ignores bytes after the last attribute. */
  function ParseData(s: seq<Byte>): Read<Entry> {
    if s == [] then Corrupted
    else
      var (dn, s1) :- ReadBlob(2, s);
      var (count, s2) :- Field(2, s1);
      var (m, s3) :- ParseAttributes(count, map[], s2);
      Got(Entry(dn, m), s3)
  }

  // ----------------------------------------------------------------- round trip

  predicate ValuesFit(vs: Values) {
    |vs| < UINT16 && forall k :: 0 <= k < |vs| ==> |vs[k]| < UINT32
  }

  predicate AttributesFit(m: Attributes) {
    forall x :: x in m ==> |x| < UINT16 && ValuesFit(m[x])
  }

  /** Within the length prefixes. */
  predicate DataFits(e: Entry) {
    |e.dn| < UINT16 && |e.attributes| < UINT16 && AttributesFit(e.attributes)
  }

  lemma {:induction false} ValuesBack(vs: Values, rest: seq<Byte>)
    requires forall k :: 0 <= k < |vs| ==> |vs[k]| < UINT32
    ensures ParseValues(|vs|, ValuesBytes(vs) + rest) == Got(vs, rest)
  {
    hide Blob, ReadBlob;
    if vs == [] {
      assert ValuesBytes(vs) + rest == rest;
    } else {
      Widths();
      var more := ValuesBytes(vs[1..]) + rest;
      assert ValuesBytes(vs) + rest == Blob(4, vs[0]) + more;
      BlobBack(4, vs[0], more);
      ValuesBack(vs[1..], rest);
      assert [vs[0]] + vs[1..] == vs;
    }
  }

  lemma AttributeBack(name: Name, vs: Values, rest: seq<Byte>)
    requires |name| < UINT16 && ValuesFit(vs)
    ensures ParseAttribute(AttributeBytes(name, vs) + rest) == Got((name, vs), rest)
  {
    hide Blob, ReadBlob, Field, LittleEndian, ParseValues, ValuesBytes;
    Widths();
    var s2 := ValuesBytes(vs) + rest;
    var s1 := LittleEndian(2, |vs|) + s2;
    assert AttributeBytes(name, vs) + rest == Blob(2, name) + s1;
    BlobBack(2, name, s1);
    FieldBack(2, |vs|, s2);
    ValuesBack(vs, rest);
  }

  /** m with the attributes named by order put in, one by one. */
  ghost function Added(m: Attributes, order: seq<Name>, from: Attributes): Attributes
    requires forall x :: x in order ==> x in from
    decreases |order|
  {
    if order == [] then m else Added(m[order[0] := from[order[0]]], order[1..], from)
  }

  lemma {:induction false} AttributesBack(order: seq<Name>, from: Attributes, m: Attributes, rest: seq<Byte>)
    requires AttributesFit(from) && forall x :: x in order ==> x in from
    ensures ParseAttributes(|order|, m, AttributesBytes(order, from) + rest) == Got(Added(m, order, from), rest)
    decreases |order|
  {
    hide AttributeBytes, ParseAttribute, ValuesFit;
    if order == [] {
      assert AttributesBytes(order, from) + rest == rest;
    } else {
      var name := order[0];
      var more := AttributesBytes(order[1..], from) + rest;
      assert AttributesBytes(order, from) + rest == AttributeBytes(name, from[name]) + more;
      AttributeBack(name, from[name], more);
      AttributesBack(order[1..], from, m[name := from[name]], rest);
    }
  }

  lemma {:induction false} AddedContents(m: Attributes, order: seq<Name>, from: Attributes)
    requires forall x :: x in order ==> x in from
    ensures forall x :: x in Added(m, order, from) <==> x in m || x in order
    ensures forall x :: x in order ==> Added(m, order, from)[x] == from[x]
    ensures forall x :: x in m && x !in order ==> Added(m, order, from)[x] == m[x]
    decreases |order|
  {
    if order != [] {
      AddedContents(m[order[0] := from[order[0]]], order[1..], from);
      assert forall x :: x in order <==> x == order[0] || x in order[1..];
    }
  }

  /** As many names in an order as keys in the map. */
  lemma {:induction false} OrderSize(order: seq<Name>, keys: set<Name>)
    requires forall j, k :: 0 <= j < k < |order| ==> order[j] != order[k]
    requires forall x :: x in order <==> x in keys
    ensures |order| == |keys|
    decreases |order|
  {
    if order == [] {
      assert keys == {};
    } else {
      assert order[0] in keys && order[0] !in order[1..];
      assert forall x :: x in order[1..] <==> x in keys - {order[0]} by {
        assert forall x :: x in order <==> x == order[0] || x in order[1..];
      }
      OrderSize(order[1..], keys - {order[0]});
    }
  }

  lemma {:induction false} ValuesBounded(count: nat, s: seq<Byte>)
    ensures var r := ParseValues(count, s);
            r.Got? ==> |r.value| == count && forall k :: 0 <= k < count ==> |r.value[k]| < UINT32
  {
    hide ReadBlob;
    if count > 0 {
      Widths();
      BlobBounded(4, s);
      var r := ReadBlob(4, s);
      if r.Got? { ValuesBounded(count - 1, r.rest); }
    }
  }

  lemma AttributeBounded(s: seq<Byte>)
    ensures var r := ParseAttribute(s); r.Got? ==> |r.value.0| < UINT16 && ValuesFit(r.value.1)
  {
    hide ReadBlob, ParseValues;
    Widths();
    BlobBounded(2, s);
    var name := ReadBlob(2, s);
    if name.Got? && |name.rest| >= 2 {
      FieldBounded(name.rest[..2]);
      var count := Field(2, name.rest);
      ValuesBounded(count.value, count.rest);
    }
  }

  lemma {:induction false} AttributesBounded(count: nat, m: Attributes, s: seq<Byte>)
    requires AttributesFit(m)
    ensures var r := ParseAttributes(count, m, s);
            r.Got? ==> |r.value| <= |m| + count && AttributesFit(r.value)
    decreases count
  {
    hide ParseAttribute, ValuesFit;
    if count > 0 {
      AttributeBounded(s);
      var r := ParseAttribute(s);
      if r.Got? {
        var next := m[r.value.0 := r.value.1];
        AttributesBounded(count - 1, next, r.rest);
        assert |next| <= |m| + 1 by { assert next.Keys == m.Keys + {r.value.0}; }
      }
    }
  }

  lemma ParsedFits(s: seq<Byte>)
    ensures var r := ParseData(s); r.Got? ==> DataFits(r.value)
  {
    hide ReadBlob, ParseAttributes, AttributesFit;
    Widths();
    BlobBounded(2, s);
    var dn := ReadBlob(2, s);
    if dn.Got? && |dn.rest| >= 2 {
      FieldBounded(dn.rest[..2]);
      var count := Field(2, dn.rest);
      NoAttributes();
      AttributesBounded(count.value, map[], count.rest);
    }
  }

  lemma NoAttributes()
    ensures AttributesFit(map[])
  {
  }

  /** An entry comes back, in whatever order its attributes were written, exactly when it is within
      the length prefixes. */
  lemma DataRoundTrip(e: Entry, order: seq<Name>)
    requires Enumerates(order, e.attributes)
    ensures ParseData(DataBytes(e, order)) == Got(e, []) <==> DataFits(e)
  {
    if DataFits(e) { DataBack(e, order); } else { ParsedFits(DataBytes(e, order)); }
  }

  lemma DataBack(e: Entry, order: seq<Name>)
    requires Enumerates(order, e.attributes) && DataFits(e)
    ensures ParseData(DataBytes(e, order)) == Got(e, [])
  {
    hide Blob, ReadBlob, Field, LittleEndian, ParseAttributes, AttributesBytes, AttributesFit;
    Widths();
    OrderSize(order, e.attributes.Keys);
    var s2 := AttributesBytes(order, e.attributes);
    var s1 := LittleEndian(2, |order|) + s2;
    assert DataBytes(e, order) == Blob(2, e.dn) + s1;
    BlobBack(2, e.dn, s1);
    FieldBack(2, |order|, s2);
    AttributesBack(order, e.attributes, map[], []);
    assert s2 + [] == s2;
    AddedContents(map[], order, e.attributes);
    assert Added(map[], order, e.attributes) == e.attributes;
    assert |DataBytes(e, order)| > 0 by { assert |s1| >= |LittleEndian(2, |order|)|; }
  }

  // ------------------------------------------------------------ the codec as it runs

  lemma {:induction false} ValuesSnoc(vs: Values, k: nat)
    requires k < |vs|
    ensures ValuesBytes(vs[..k + 1]) == ValuesBytes(vs[..k]) + Blob(4, vs[k])
  {
    hide Blob;
    if k == 0 {
      assert vs[..1][1..] == [];
    } else {
      assert vs[..k + 1][1..] == vs[1..][..k] && vs[..k][1..] == vs[1..][..k - 1];
      ValuesSnoc(vs[1..], k - 1);
    }
  }

  lemma {:induction false} AttributesSnoc(order: seq<Name>, name: Name, m: Attributes)
    requires name in m && forall x :: x in order ==> x in m
    ensures forall x :: x in order + [name] ==> x in m
    ensures AttributesBytes(order + [name], m) == AttributesBytes(order, m) + AttributeBytes(name, m[name])
  {
    hide AttributeBytes;
    if order == [] {
      assert ([] + [name])[1..] == [];
    } else {
      assert (order + [name])[1..] == order[1..] + [name];
      AttributesSnoc(order[1..], name, m);
    }
  }

  method WriteValues(vs: Values) returns (r: seq<Byte>)
    ensures r == ValuesBytes(vs)
  {
    r := [];
    for i := 0 to |vs|
      invariant r == ValuesBytes(vs[..i])
    {
      ValuesSnoc(vs, i);
      r := r + Blob(4, vs[i]);
    }
    assert vs[..|vs|] == vs;
  }

  /** serializeEntry: the loop picks the attributes in some order. */
  method SerializeEntry(e: Entry) returns (r: seq<Byte>, ghost order: seq<Name>)
    ensures Enumerates(order, e.attributes)
    ensures r == DataBytes(e, order)
    ensures ParseData(r) == Got(e, []) <==> DataFits(e)
  {
    hide AttributeBytes, ValuesBytes, Blob, LittleEndian, ParseData, DataFits;
    var head := Blob(2, e.dn) + LittleEndian(2, |e.attributes|);
    r := head;
    order := [];
    var left := e.attributes.Keys;
    while left != {}
      invariant left <= e.attributes.Keys
      invariant forall x :: x in order <==> x in e.attributes && x !in left
      invariant forall j, k :: 0 <= j < k < |order| ==> order[j] != order[k]
      invariant r == head + AttributesBytes(order, e.attributes)
      decreases left
    {
      var name :| name in left;
      left := left - {name};
      var values := WriteValues(e.attributes[name]);
      AttributesSnoc(order, name, e.attributes);
      AttributeShape(name, e.attributes[name]);
      r := r + (Blob(2, name) + LittleEndian(2, |e.attributes[name]|) + values);
      order := order + [name];
    }
    OrderSize(order, e.attributes.Keys);
    DataRoundTrip(e, order);
  }

  lemma AttributeShape(name: Name, vs: Values)
    ensures AttributeBytes(name, vs) == Blob(2, name) + LittleEndian(2, |vs|) + ValuesBytes(vs)
  {
  }

  method ReadValues(reader: Reader, count: nat) returns (r: Read<Values>)
    requires reader.Valid()
    modifies reader`position
    ensures reader.Valid()
    ensures r == ParseValues(count, old(reader.Unread()))
    ensures r.Got? ==> reader.Unread() == r.rest
  {
    hide ReadBlob;
    var vs: Values := [];
    var i := 0;
    ghost var all := ParseValues(count, reader.Unread());
    assert all.Got? ==> [] + all.value == all.value;
    while i < count
      invariant reader.Valid() && 0 <= i <= count
      invariant var more := ParseValues(count - i, reader.Unread());
                all == if more.Corrupted? then more else Got(vs + more.value, more.rest)
    {
      var v := reader.ReadPrefixed(4);
      if v.Corrupted? {
        return Corrupted;
      }
      i := i + 1;
      ghost var more := ParseValues(count - i, reader.Unread());
      assert more.Got? ==> vs + ([v.value] + more.value) == vs + [v.value] + more.value;
      vs := vs + [v.value];
    }
    assert vs + [] == vs;
    r := Got(vs, reader.data[reader.position..]);
  }

  method ReadAttribute(reader: Reader) returns (r: Read<(Name, Values)>)
    requires reader.Valid()
    modifies reader`position
    ensures reader.Valid()
    ensures r == ParseAttribute(old(reader.Unread()))
    ensures r.Got? ==> reader.Unread() == r.rest
  {
    hide ReadBlob, ParseValues, Field;
    var name := reader.ReadPrefixed(2);
    if name.Corrupted? {
      return Corrupted;
    }
    var count := reader.ReadField(2);
    if count.Corrupted? {
      return Corrupted;
    }
    var vs := ReadValues(reader, count.value);
    if vs.Corrupted? {
      return Corrupted;
    }
    r := Got((name.value, vs.value), vs.rest);
  }

  method DeserializeEntry(data: seq<Byte>) returns (r: Read<Entry>)
    ensures r == ParseData(data)
  {
    hide ReadBlob, ParseAttribute, Field;
    if |data| == 0 {
      return Corrupted;
    }
    var reader := new Reader(data);
    assert reader.Unread() == data;
    var dn := reader.ReadPrefixed(2);
    if dn.Corrupted? {
      return Corrupted;
    }
    var count := reader.ReadField(2);
    if count.Corrupted? {
      return Corrupted;
    }
    var m: Attributes := map[];
    var i := 0;
    ghost var all := ParseAttributes(count.value, m, reader.Unread());
    while i < count.value
      invariant reader.Valid() && 0 <= i <= count.value
      invariant all == ParseAttributes(count.value - i, m, reader.Unread())
    {
      var a := ReadAttribute(reader);
      if a.Corrupted? {
        return Corrupted;
      }
      m := m[a.value.0 := a.value.1];
      i := i + 1;
    }
    r := Got(Entry(dn.value, m), reader.data[reader.position..]);
  }
}
