/** internal/backup/ldif.go as it runs: the in-place sort of the attribute names, the writer's loops
    and the reader's line loop. */
module LdifFile {
  import opened Bytes
  import opened EntryCodec
  import opened Ldif

  // -------------------------------------------------------------- order of names

  /** Go's a > b on strings. */
  predicate Above(a: Name, b: Name) {
    a != [] && (b == [] || a[0] > b[0] || (a[0] == b[0] && Above(a[1..], b[1..])))
  }

  predicate Sorted(names: seq<Name>) {
    forall i, j :: 0 <= i < j < |names| ==> !Above(names[i], names[j])
  }

  lemma {:induction false} AboveTotal(a: Name, b: Name)
    ensures !Above(a, b) && !Above(b, a) ==> a == b
    ensures Above(a, b) ==> !Above(b, a)
  {
    if a != [] && b != [] && a[0] == b[0] {
      AboveTotal(a[1..], b[1..]);
      assert a == [a[0]] + a[1..] && b == [b[0]] + b[1..];
    }
  }

  lemma {:induction false} AboveTransitive(a: Name, b: Name, c: Name)
    ensures !Above(a, b) && !Above(b, c) ==> !Above(a, c)
  {
    if a != [] && b != [] && c != [] && a[0] == b[0] == c[0] {
      AboveTransitive(a[1..], b[1..], c[1..]);
    }
  }

  /** key put behind the last name that is not above it. */
  function Insert(names: seq<Name>, key: Name): (r: seq<Name>)
    ensures |r| == |names| + 1
  {
    if names != [] && Above(names[|names| - 1], key) then
      Insert(names[..|names| - 1], key) + [names[|names| - 1]]
    else names + [key]
  }

  function Sort(names: seq<Name>): (r: seq<Name>)
    ensures |r| == |names|
  {
    if names == [] then [] else Insert(Sort(names[..|names| - 1]), names[|names| - 1])
  }

  lemma {:induction false} InsertKeeps(names: seq<Name>, key: Name)
    ensures multiset(Insert(names, key)) == multiset(names) + multiset{key}
  {
    if names != [] && Above(names[|names| - 1], key) {
      InsertKeeps(names[..|names| - 1], key);
      assert names == names[..|names| - 1] + [names[|names| - 1]];
    }
  }

  predicate NoneAbove(names: seq<Name>, top: Name) {
    forall k :: 0 <= k < |names| ==> !Above(names[k], top)
  }

  lemma SortedSnoc(names: seq<Name>, top: Name)
    requires Sorted(names) && NoneAbove(names, top)
    ensures Sorted(names + [top])
  {
    hide Above;
  }

  lemma SortedInit(names: seq<Name>)
    requires Sorted(names) && names != []
    ensures Sorted(names[..|names| - 1]) && NoneAbove(names[..|names| - 1], names[|names| - 1])
  {
    hide Above;
  }

  lemma NoneAboveUp(names: seq<Name>, mid: Name, top: Name)
    requires NoneAbove(names, mid) && !Above(mid, top)
    ensures NoneAbove(names, top)
  {
    hide Above;
    forall k | 0 <= k < |names|
      ensures !Above(names[k], top)
    {
      AboveTransitive(names[k], mid, top);
    }
  }

  lemma NoneAboveSnoc(names: seq<Name>, x: Name, top: Name)
    ensures NoneAbove(names + [x], top) <==> NoneAbove(names, top) && !Above(x, top)
  {
    hide Above;
    assert (names + [x])[|names|] == x;
    assert forall k :: 0 <= k < |names| ==> (names + [x])[k] == names[k];
  }

  lemma {:induction false} InsertSorted(names: seq<Name>, key: Name)
    requires Sorted(names)
    ensures Sorted(Insert(names, key))
    ensures forall top :: NoneAbove(names, top) && !Above(key, top) ==> NoneAbove(Insert(names, key), top)
  {
    hide Above, Sorted, NoneAbove;
    forall top | NoneAbove(names, top) && !Above(key, top)
      ensures NoneAbove(Insert(names, key), top)
    {
      InsertBelow(names, key, top);
    }
    if names != [] {
      var init, last := names[..|names| - 1], names[|names| - 1];
      SortedInit(names);
      if Above(last, key) {
        AboveTotal(last, key);
        InsertSorted(init, key);
        SortedSnoc(Insert(init, key), last);
      } else {
        NoneAboveUp(init, last, key);
        NoneAboveSnoc(init, last, key);
        assert names == init + [last];
        SortedSnoc(names, key);
      }
    } else {
      OneSorted(key);
      assert names + [key] == [key];
    }
  }

  lemma OneSorted(key: Name)
    ensures Sorted([key])
  {
  }

  lemma {:induction false} InsertBelow(names: seq<Name>, key: Name, top: Name)
    requires NoneAbove(names, top) && !Above(key, top)
    ensures NoneAbove(Insert(names, key), top)
  {
    hide Above, NoneAbove;
    if names != [] && Above(names[|names| - 1], key) {
      var init, last := names[..|names| - 1], names[|names| - 1];
      assert names == init + [last];
      NoneAboveSnoc(init, last, top);
      InsertBelow(init, key, top);
      NoneAboveSnoc(Insert(init, key), last, top);
    } else {
      NoneAboveSnoc(names, key, top);
    }
  }

  lemma {:induction false} AboveSelf(a: Name)
    ensures !Above(a, a)
  {
    if a != [] { AboveSelf(a[1..]); }
  }

  lemma {:induction false} SortSorts(names: seq<Name>)
    ensures Sorted(Sort(names)) && multiset(Sort(names)) == multiset(names)
  {
    hide Above, Insert;
    if names != [] {
      var init, key := names[..|names| - 1], names[|names| - 1];
      SortSorts(init);
      InsertKeeps(Sort(init), key);
      InsertSorted(Sort(init), key);
      assert names == init + [key];
    }
  }

  lemma LastIsGreatest(names: seq<Name>, x: Name)
    requires Sorted(names) && x in names
    ensures !Above(x, names[|names| - 1])
  {
    var i :| 0 <= i < |names| && names[i] == x;
    AboveSelf(x);
  }

  lemma DropLast(names: seq<Name>)
    requires names != []
    ensures multiset(names[..|names| - 1]) == multiset(names) - multiset{names[|names| - 1]}
  {
    assert names == names[..|names| - 1] + [names[|names| - 1]];
  }

  /** The order written does not depend on the order the map was iterated in: sorted lists of the same
      names are the same list. */
  lemma {:induction false} SortedUnique(a: seq<Name>, b: seq<Name>)
    requires Sorted(a) && Sorted(b) && multiset(a) == multiset(b)
    ensures a == b
    decreases |a|
  {
    hide Above, Sorted;
    assert |a| == |multiset(a)| && |b| == |multiset(b)|;
    if a != [] {
      var n := |a| - 1;
      assert a[n] in multiset(b) && b[n] in multiset(a);
      LastIsGreatest(b, a[n]);
      LastIsGreatest(a, b[n]);
      AboveTotal(a[n], b[n]);
      DropLast(a);
      DropLast(b);
      SortedInit(a);
      SortedInit(b);
      SortedUnique(a[..n], b[..n]);
      assert a == a[..n] + [a[n]] && b == b[..n] + [b[n]];
    }
  }

  lemma SortSnoc(names: seq<Name>, i: nat)
    requires i < |names|
    ensures Sort(names[..i + 1]) == Insert(Sort(names[..i]), names[i])
  {
    hide Insert;
    assert names[..i + 1][..i] == names[..i];
  }

  lemma SortOne(names: seq<Name>)
    requires names != []
    ensures Sort(names[..1]) == names[..1]
  {
    SortSnoc(names, 0);
    assert names[..0] == [] && names[..1] == [names[0]];
  }

  /** getSortedAttributeNames: insertion sort in place. */
  method SortNames(names: array<Name>)
    modifies names
    ensures names[..] == Sort(old(names[..]))
  {
    hide Insert, Sort, Above;
    if names.Length == 0 {
      NothingToSort();
      return;
    }
    ghost var before: seq<Name> := names[..];
    SortOne(before);
    var i := 1;
    while i < names.Length
      invariant 1 <= i <= names.Length
      invariant names[..i] == Sort(before[..i]) && names[i..] == before[i..]
    {
      assert names[i] == names[i..][0] == before[i];
      assert names[i + 1..] == names[i..][1..] && before[i + 1..] == before[i..][1..];
      SortSnoc(before, i);
      InsertAt(names, i);
      i := i + 1;
    }
    assert before[..i] == before && names[..i] == names[..];
  }

  lemma NothingToSort()
    ensures Sort([]) == []
  {
  }

  /** The shifted part of an insertion, one name further down. */
  lemma InsertDown(p: seq<Name>, j: nat, key: Name)
    requires 0 < j <= |p| && Above(p[j - 1], key)
    ensures Insert(p[..j], key) + p[j..] == Insert(p[..j - 1], key) + p[j - 1..]
  {
    hide Above;
    assert p[..j][..j - 1] == p[..j - 1];
    assert p[j - 1..] == [p[j - 1]] + p[j..];
  }

  lemma InsertHere(p: seq<Name>, j: nat, key: Name)
    requires j <= |p| && (j > 0 ==> !Above(p[j - 1], key))
    ensures Insert(p[..j], key) == p[..j] + [key]
  {
    hide Above;
  }

  lemma InsertedAt(s: seq<Name>, p: seq<Name>, j: nat, key: Name)
    requires j <= |p| && |s| == |p| + 1 && s[j] == key
    requires forall k :: 0 <= k < j ==> s[k] == p[k]
    requires forall k :: j <= k < |p| ==> s[k + 1] == p[k]
    ensures s == p[..j] + [key] + p[j..]
  {
    forall k | 0 <= k < |s|
      ensures s[k] == (p[..j] + [key] + p[j..])[k]
    {
      if k > j { assert s[k] == p[k - 1]; }
    }
  }

  /** One pass: names above names[i] move up by one, and it goes where they left room. */
  method InsertAt(names: array<Name>, i: nat)
    requires i < names.Length
    modifies names
    ensures names[..i + 1] == Insert(old(names[..i]), old(names[i]))
    ensures names[i + 1..] == old(names[i + 1..])
  {
    hide Insert, Above;
    ghost var p := names[..i];
    var key := names[i];
    var j := i;
    assert p[..i] == p && p[i..] == [] && Insert(p, key) + [] == Insert(p, key);
    while j > 0 && Above(names[j - 1], key)
      invariant 0 <= j <= i
      invariant forall k :: 0 <= k < j ==> names[k] == p[k]
      invariant forall k :: j <= k < i ==> names[k + 1] == p[k]
      invariant forall k :: i < k < names.Length ==> names[k] == old(names[k])
      invariant Insert(p, key) == Insert(p[..j], key) + p[j..]
    {
      InsertDown(p, j, key);
      names[j] := names[j - 1];
      j := j - 1;
    }
    InsertHere(p, j, key);
    names[j] := key;
    InsertedAt(names[..i + 1], p, j, key);
  }

  // -------------------------------------------------------------------- writing

  /** needsBase64Encoding. */
  method NeedsEncoding(v: seq<Byte>) returns (r: bool)
    ensures r == NeedsBase64(v)
  {
    if |v| == 0 {
      return false;
    }
    if v[0] == SPACE || v[0] == COLON || v[0] == LESS {
      return true;
    }
    for i := 0 to |v|
      invariant forall k :: 0 <= k < i ==> Plain(v[k])
    {
      if v[i] == 0 || v[i] == NEWLINE || v[i] == RETURN || v[i] < 0x20 || v[i] > 0x7E {
        assert !Plain(v[i]);
        return true;
      }
    }
    r := false;
  }

  method WriteValue(c: Base64, name: Name, v: seq<Byte>) returns (text: seq<Byte>)
    ensures text == ValueLine(c, name, v) + [NEWLINE]
  {
    var encode := NeedsEncoding(v);
    text := name + (if encode then [COLON, COLON, SPACE] + c.encode(v) else [COLON, SPACE] + v) + [NEWLINE];
  }

  lemma {:induction false} TextConcat(a: seq<seq<Byte>>, b: seq<seq<Byte>>)
    ensures Text(a + b) == Text(a) + Text(b)
    decreases |a|
  {
    if a == [] {
      assert a + b == b;
    } else {
      assert (a + b)[1..] == a[1..] + b;
      TextConcat(a[1..], b);
    }
  }

  lemma {:induction false} PairsOfSnoc(c: Base64, name: Name, vs: Values, k: nat)
    requires k < |vs|
    ensures Text(PairLines(c, PairsOf(name, vs[..k + 1]))) ==
            Text(PairLines(c, PairsOf(name, vs[..k]))) + (ValueLine(c, name, vs[k]) + [NEWLINE])
    decreases |vs|
  {
    hide ValueLine;
    var one := vs[..k + 1];
    assert PairsOf(name, one)[1..] == PairsOf(name, one[1..]);
    assert PairLines(c, PairsOf(name, one))[1..] == PairLines(c, PairsOf(name, one[1..]));
    if k == 0 {
      assert one[1..] == [] && vs[..0] == [];
      assert Text(PairLines(c, PairsOf(name, one[1..]))) == [];
    } else {
      var zero := vs[..k];
      assert PairsOf(name, zero)[1..] == PairsOf(name, zero[1..]);
      assert PairLines(c, PairsOf(name, zero))[1..] == PairLines(c, PairsOf(name, zero[1..]));
      assert one[1..] == vs[1..][..k] && zero[1..] == vs[1..][..k - 1];
      PairsOfSnoc(c, name, vs[1..], k - 1);
    }
  }

  method WriteValues(c: Base64, name: Name, vs: Values) returns (text: seq<Byte>)
    ensures text == Text(PairLines(c, PairsOf(name, vs)))
  {
    hide ValueLine, Text, PairLines;
    text := [];
    NoText(c, name);
    for i := 0 to |vs|
      invariant text == Text(PairLines(c, PairsOf(name, vs[..i])))
    {
      var line := WriteValue(c, name, vs[i]);
      PairsOfSnoc(c, name, vs, i);
      text := text + line;
    }
    assert vs[..|vs|] == vs;
  }

  lemma NoText(c: Base64, name: Name)
    ensures Text(PairLines(c, PairsOf(name, []))) == []
  {
  }

  lemma {:induction false} PairLinesConcat(c: Base64, a: seq<Pair>, b: seq<Pair>)
    ensures PairLines(c, a + b) == PairLines(c, a) + PairLines(c, b)
    decreases |a|
  {
    hide ValueLine;
    if a == [] {
      assert a + b == b;
    } else {
      assert (a + b)[1..] == a[1..] + b;
      PairLinesConcat(c, a[1..], b);
    }
  }

  /** The text of the attributes written from name k on. */
  ghost function TextFrom(c: Base64, order: seq<Name>, m: Attributes): seq<Byte>
    requires forall x :: x in order ==> x in m
  {
    Text(PairLines(c, Pairs(order, m)))
  }

  lemma TextFromFirst(c: Base64, order: seq<Name>, m: Attributes)
    requires order != [] && forall x :: x in order ==> x in m
    ensures TextFrom(c, order, m) == Text(PairLines(c, PairsOf(order[0], m[order[0]]))) + TextFrom(c, order[1..], m)
  {
    hide ValueLine, PairLines, Text;
    PairLinesConcat(c, PairsOf(order[0], m[order[0]]), Pairs(order[1..], m));
    TextConcat(PairLines(c, PairsOf(order[0], m[order[0]])), PairLines(c, Pairs(order[1..], m)));
  }

  method WriteAttributes(c: Base64, order: seq<Name>, m: Attributes) returns (text: seq<Byte>)
    requires forall x :: x in order ==> x in m
    ensures text == TextFrom(c, order, m)
  {
    hide TextFrom, PairLines, Text, PairsOf;
    text := [];
    var i := 0;
    assert order[0..] == order;
    while i < |order|
      invariant 0 <= i <= |order|
      invariant text + TextFrom(c, order[i..], m) == TextFrom(c, order, m)
    {
      assert order[i] in order;
      assert order[i..][0] == order[i] && order[i..][1..] == order[i + 1..];
      TextFromFirst(c, order[i..], m);
      var values := WriteValues(c, order[i], m[order[i]]);
      assert text + values + TextFrom(c, order[i + 1..], m) == text + (values + TextFrom(c, order[i + 1..], m));
      text := text + values;
      i := i + 1;
    }
    assert order[i..] == [];
    NoAttributesText(c, m);
  }

  lemma NoAttributesText(c: Base64, m: Attributes)
    ensures TextFrom(c, [], m) == []
  {
  }

  /** The names of a map in some order. */
  method NamesOf(m: Attributes) returns (names: array<Name>)
    ensures fresh(names) && Enumerates(names[..], m)
  {
    var list: seq<Name> := [];
    var left := m.Keys;
    while left != {}
      invariant left <= m.Keys
      invariant forall x :: x in list <==> x in m && x !in left
      invariant forall j, k :: 0 <= j < k < |list| ==> list[j] != list[k]
      decreases left
    {
      var x :| x in left;
      left := left - {x};
      list := list + [x];
    }
    names := new Name[|list|](i requires 0 <= i < |list| => list[i]);
    assert names[..] == list;
  }

  lemma SortEnumerates(names: seq<Name>, m: Attributes)
    requires Enumerates(names, m)
    ensures Enumerates(Sort(names), m) && Sorted(Sort(names))
  {
    hide Above, Sort;
    SortSorts(names);
    var s := Sort(names);
    forall x
      ensures x in s <==> x in m
    {
      assert x in s <==> x in multiset(s);
      assert x in names <==> x in multiset(names);
    }
    forall j, k | 0 <= j < k < |s|
      ensures s[j] != s[k]
    {
      if s[j] == s[k] {
        TwiceInMultiset(s, j, k);
        OnceInMultiset(names, s[j]);
      }
    }
  }

  lemma TwiceInMultiset(s: seq<Name>, j: nat, k: nat)
    requires j < k < |s| && s[j] == s[k]
    ensures multiset(s)[s[j]] >= 2
  {
    assert s == s[..k] + [s[k]] + s[k + 1..];
    assert s[..k][j] == s[j];
    assert multiset(s) == multiset(s[..k]) + multiset{s[k]} + multiset(s[k + 1..]);
    assert s[j] in multiset(s[..k]);
  }

  lemma {:induction false} OnceInMultiset(s: seq<Name>, x: Name)
    requires forall j, k :: 0 <= j < k < |s| ==> s[j] != s[k]
    ensures multiset(s)[x] <= 1
  {
    if s != [] {
      var n := |s| - 1;
      OnceInMultiset(s[..n], x);
      assert s == s[..n] + [s[n]];
      assert x == s[n] ==> x !in s[..n];
    }
  }

  /** An entry has one text: the sorted order of its attributes is unique. */
  lemma OrderUnique(a: seq<Name>, b: seq<Name>, m: Attributes)
    requires Enumerates(a, m) && Enumerates(b, m) && Sorted(a) && Sorted(b)
    ensures a == b
  {
    hide Above;
    forall x
      ensures multiset(a)[x] == multiset(b)[x]
    {
      OnceInMultiset(a, x);
      OnceInMultiset(b, x);
      assert x in multiset(a) <==> x in a;
      assert x in multiset(b) <==> x in b;
    }
    assert multiset(a) == multiset(b);
    SortedUnique(a, b);
  }

  /** writeEntry: the attributes come out in the order of their names, whatever order the map had. */
  method WriteEntry(c: Base64, e: Entry) returns (text: seq<Byte>, ghost order: seq<Name>)
    ensures Enumerates(order, e.attributes) && Sorted(order)
    ensures text == Text(EntryLines(c, e, order))
  {
    hide ValueLine, Text, Sort, Sorted, PairLines, Pairs;
    var dn := WriteValue(c, DN_NAME, e.dn);
    var names := NamesOf(e.attributes);
    SortEnumerates(names[..], e.attributes);
    SortNames(names);
    order := names[..];
    var body := WriteAttributes(c, names[..], e.attributes);
    text := dn + body + [NEWLINE];
    EntryText(c, e, order);
  }

  lemma EntryText(c: Base64, e: Entry, order: seq<Name>)
    requires Enumerates(order, e.attributes)
    ensures Text(EntryLines(c, e, order)) ==
            ValueLine(c, DN_NAME, e.dn) + [NEWLINE] + TextFrom(c, order, e.attributes) + [NEWLINE]
  {
    hide ValueLine, PairLines, Pairs;
    var lines := PairLines(c, Pairs(order, e.attributes));
    var dn := ValueLine(c, DN_NAME, e.dn);
    TextConcat([dn] + lines, [[]]);
    TextConcat([dn], lines);
    OneLine(dn);
    OneLine([]);
  }

  lemma OneLine(line: seq<Byte>)
    ensures Text([line]) == line + [NEWLINE]
  {
    assert Text([line][1..]) == [];
  }

  // -------------------------------------------------------------------- reading

  /** The line loop of Parse. */
  method ParseText(c: Base64, text: seq<Byte>) returns (r: Result<seq<Entry>>)
    ensures r == Parse(c, text)
  {
    hide ReadPair, ReadDn, StartsEntry, SplitLines;
    var raw := SplitLines(text);
    var lines := Scanned(raw);
    var entries: seq<Entry> := [];
    var entry: Option<Entry> := None;
    var continued: seq<Byte> := [];
    var i := 0;
    assert lines[0..] == lines;
    while i < |lines|
      invariant 0 <= i <= |lines|
      invariant ReadLines(c, START, lines) == ReadLines(c, Progress(entries, entry, continued), lines[i..])
    {
      var line := lines[i];
      assert lines[i..][0] == line && lines[i..][1..] == lines[i + 1..];
      i := i + 1;
      if line != [] && line[0] == SPACE {
        continued := continued + line[1..];
        continue;
      }
      if continued != [] {
        if entry.Some? {
          var pair := ReadPair(c, continued);
          if pair.Err? {
            return Err(pair.error);
          }
          entry := Some(AddValue(entry.value, pair.value.name, pair.value.value));
        }
        continued := [];
      }
      if line != [] && line[0] == HASH {
        continue;
      }
      if line == [] {
        if entry.Some? {
          if entry.value.dn == [] {
            return Err(MissingDn);
          }
          entries := entries + [entry.value];
          entry := None;
        }
        continue;
      }
      if StartsEntry(line) {
        StartsLong(line);
        var dn := ReadDn(c, line);
        if dn.Err? {
          return Err(dn.error);
        }
        entry := Some(Entry(dn.value, map[]));
      } else if entry.Some? {
        continued := line;
      }
    }
    if continued != [] && entry.Some? {
      var pair := ReadPair(c, continued);
      if pair.Err? {
        return Err(pair.error);
      }
      entry := Some(AddValue(entry.value, pair.value.name, pair.value.value));
    }
    if entry.Some? {
      if entry.value.dn == [] {
        return Err(MissingDn);
      }
      entries := entries + [entry.value];
    }
    if |lines| < |raw| {
      return Err(InvalidLdif);
    }
    r := Ok(entries);
  }

  lemma StartsLong(line: seq<Byte>)
    requires StartsEntry(line)
    ensures |line| >= 3
  {
  }

  // ------------------------------------------------------------- writing whole files

  lemma {:induction false} FileLinesSnoc(c: Base64, items: seq<Item>, item: Item)
    requires Writable(items) && Enumerates(item.order, item.entry.attributes)
    ensures Writable(items + [item]) && EntriesOf(items + [item]) == EntriesOf(items) + [item.entry]
    ensures FileLines(c, items + [item]) == FileLines(c, items) + EntryLines(c, item.entry, item.order)
    decreases |items|
  {
    hide EntryLines, Enumerates;
    if items == [] {
      assert ([] + [item])[1..] == [];
    } else {
      assert (items + [item])[1..] == items[1..] + [item];
      FileLinesSnoc(c, items[1..], item);
    }
  }

  lemma FileSnoc(c: Base64, items: seq<Item>, item: Item)
    requires Writable(items) && Enumerates(item.order, item.entry.attributes)
    ensures Writable(items + [item]) && EntriesOf(items + [item]) == EntriesOf(items) + [item.entry]
    ensures Text(FileLines(c, items + [item])) ==
            Text(FileLines(c, items)) + Text(EntryLines(c, item.entry, item.order))
  {
    hide Text, FileLines, EntryLines, Enumerates, Writable, EntriesOf;
    FileLinesSnoc(c, items, item);
    TextConcat(FileLines(c, items), EntryLines(c, item.entry, item.order));
  }

  /** WriteLDIF: what it writes is parsed back as the entries it was given. */
  method WriteFile(c: Base64, es: seq<Entry>) returns (text: seq<Byte>)
    ensures Inverse(c) && (forall k :: 0 <= k < |es| ==> EntryOk(c, es[k])) ==>
              (Parse(c, text) == Ok(es) <==> forall k :: 0 <= k < |es| ==> ValuesOk(es[k]))
  {
    hide Text, FileLines, EntryLines, Parse, Inverse, EntryOk, Enumerates, Sorted, ValuesOk, AllValuesOk;
    text := [];
    ghost var items: seq<Item> := [];
    NothingWritten(c);
    for i := 0 to |es|
      invariant Writable(items) && EntriesOf(items) == es[..i] && text == Text(FileLines(c, items))
    {
      var more;
      ghost var order;
      more, order := WriteEntry(c, es[i]);
      FileSnoc(c, items, Item(es[i], order));
      items := items + [Item(es[i], order)];
      text := text + more;
    }
    assert es[..|es|] == es;
    if Inverse(c) && forall k :: 0 <= k < |es| ==> EntryOk(c, es[k]) {
      EachOk(c, items);
      FileRoundTrip(c, items);
      EachValuesOk(items);
    }
  }

  lemma NothingWritten(c: Base64)
    ensures Writable([]) && EntriesOf([]) == [] && Text(FileLines(c, [])) == []
  {
  }

  lemma {:induction false} EachOk(c: Base64, items: seq<Item>)
    requires forall k :: 0 <= k < |EntriesOf(items)| ==> EntryOk(c, EntriesOf(items)[k])
    ensures ItemsOk(c, items)
  {
    hide EntryOk;
    EntriesAt(items);
  }

  lemma {:induction false} EachValuesOk(items: seq<Item>)
    ensures AllValuesOk(items) <==> forall k :: 0 <= k < |EntriesOf(items)| ==> ValuesOk(EntriesOf(items)[k])
    decreases |items|
  {
    hide ValuesOk;
    EntriesAt(items);
  }

  lemma {:induction false} EntriesAt(items: seq<Item>)
    ensures |EntriesOf(items)| == |items|
    ensures forall k :: 0 <= k < |items| ==> EntriesOf(items)[k] == items[k].entry
    decreases |items|
  {
    if items != [] {
      EntriesAt(items[1..]);
      assert forall k :: 1 <= k < |items| ==> items[k] == items[1..][k - 1];
    }
  }
}
