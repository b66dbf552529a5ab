/** Substring filters (RFC 4511 section 4.5.1.7.2): the one-pass matcher of internal/filter/match.go
    against what a substring assertion means. Letters are lowered as ASCII. */
module SubstringMatch {
  import opened Bytes

  function LowerEach(xs: seq<seq<Byte>>): (r: seq<seq<Byte>>)
    ensures |r| == |xs|
    ensures forall k :: 0 <= k < |xs| ==> r[k] == LowerAll(xs[k])
  {
    if xs == [] then [] else [LowerAll(xs[0])] + LowerEach(xs[1..])
  }

  /** x occurs in v at position i. */
  predicate OccursAt(v: seq<Byte>, i: nat, x: seq<Byte>) {
    i + |x| <= |v| && v[i..i + |x|] == x
  }

  /** Where the first k parts, placed at `at` behind an initial part of this length, end. */
  ghost function EndOf(start: nat, any: seq<seq<Byte>>, at: seq<nat>, k: nat): nat
    requires k <= |any| && k <= |at|
  {
    if k == 0 then start else at[k - 1] + |any[k - 1]|
  }

  /** The first k parts lie in v in order, none overlapping the one before it. */
  ghost predicate Placed(v: seq<Byte>, start: nat, any: seq<seq<Byte>>, at: seq<nat>, k: nat)
    requires k <= |any|
  {
    && |at| == k
    && forall j :: 0 <= j < k ==> EndOf(start, any, at, j) <= at[j] && OccursAt(v, at[j], any[j])
  }

  /** What a substring assertion means: the value begins with initial, ends with final, and has every
      other part in between, in order and apart. */
  ghost predicate Satisfies(v: seq<Byte>, initial: seq<Byte>, any: seq<seq<Byte>>, final: seq<Byte>) {
    && OccursAt(v, 0, initial)
    && exists at :: Placed(v, |initial|, any, at, |any|) && EndsWith(v, EndOf(|initial|, any, at, |any|), final)
  }

  /** v ends with x, and x begins no earlier than from. */
  predicate EndsWith(v: seq<Byte>, from: nat, x: seq<Byte>) {
    from + |x| <= |v| && v[|v| - |x|..] == x
  }

  /** bytes.Index on v[from:], as a position in v: the first occurrence. */
  method Find(v: seq<Byte>, from: nat, x: seq<Byte>) returns (found: bool, i: nat)
    requires from <= |v|
    ensures found ==> from <= i && OccursAt(v, i, x)
    ensures found ==> forall j :: from <= j < i ==> !OccursAt(v, j, x)
    ensures !found ==> forall j :: from <= j ==> !OccursAt(v, j, x)
  {
    i := from;
    while i + |x| <= |v|
      invariant from <= i
      invariant forall j :: from <= j < i ==> !OccursAt(v, j, x)
    {
      if v[i..i + |x|] == x {
        return true, i;
      }
      i := i + 1;
    }
    found := false;
  }

  lemma PlacedPrefix(v: seq<Byte>, start: nat, any: seq<seq<Byte>>, at: seq<nat>, k: nat)
    requires k < |any| && Placed(v, start, any, at, k + 1)
    ensures Placed(v, start, any, at[..k], k)
    ensures EndOf(start, any, at[..k], k) == EndOf(start, any, at, k) <= at[k] && OccursAt(v, at[k], any[k])
  {
    hide OccursAt, EndOf;
    SameEnd(start, any, at[..k], at, k);
    forall j | 0 <= j < k
      ensures EndOf(start, any, at[..k], j) <= at[..k][j] && OccursAt(v, at[..k][j], any[j])
    {
      SameEnd(start, any, at[..k], at, j);
      assert EndOf(start, any, at, j) <= at[j];
    }
  }

  /** No placement of the first k parts ends before pos. */
  ghost predicate Earliest(v: seq<Byte>, start: nat, any: seq<seq<Byte>>, k: nat, pos: nat)
    requires k <= |any|
  {
    forall at :: Placed(v, start, any, at, k) ==> pos <= EndOf(start, any, at, k)
  }

  /** Taking the first occurrence keeps the earliest end. */
  lemma FirstIsEarliest(v: seq<Byte>, start: nat, any: seq<seq<Byte>>, k: nat, pos: nat, i: nat)
    requires k < |any| && Earliest(v, start, any, k, pos) && pos <= i
    requires forall j :: pos <= j < i ==> !OccursAt(v, j, any[k])
    ensures Earliest(v, start, any, k + 1, i + |any[k]|)
  {
    hide OccursAt;
    var n := k + 1;
    forall at | Placed(v, start, any, at, n)
      ensures i + |any[k]| <= EndOf(start, any, at, n)
    {
      PlacedPrefix(v, start, any, at, k);
    }
  }

  /** If the next part is nowhere to be found, nothing that includes it can be placed. */
  lemma {:induction false} NoPlacement(v: seq<Byte>, start: nat, any: seq<seq<Byte>>, k: nat, pos: nat, at: seq<nat>, n: nat)
    requires k < n <= |any| && Earliest(v, start, any, k, pos)
    requires forall j :: pos <= j ==> !OccursAt(v, j, any[k])
    ensures !Placed(v, start, any, at, n)
    decreases n
  {
    hide OccursAt;
    if Placed(v, start, any, at, n) {
      PlacedPrefix(v, start, any, at, n - 1);
      if n > k + 1 {
        NoPlacement(v, start, any, k, pos, at[..n - 1], n - 1);
      }
    }
  }

  /** One more part behind a placement. */
  lemma PlacedSnoc(v: seq<Byte>, start: nat, any: seq<seq<Byte>>, at: seq<nat>, k: nat, i: nat)
    requires k < |any| && Placed(v, start, any, at, k) && EndOf(start, any, at, k) <= i && OccursAt(v, i, any[k])
    ensures Placed(v, start, any, at + [i], k + 1)
  {
    hide OccursAt, EndOf;
    var more := at + [i];
    forall j | 0 <= j <= k
      ensures EndOf(start, any, more, j) <= more[j] && OccursAt(v, more[j], any[j])
    {
      SameEnd(start, any, at, more, j);
    }
  }

  lemma SameEnd(start: nat, any: seq<seq<Byte>>, at: seq<nat>, more: seq<nat>, j: nat)
    requires j <= |any| && j <= |at| && at <= more
    ensures EndOf(start, any, more, j) == EndOf(start, any, at, j)
  {
  }

  /** The loop over the middle parts, on lowered octets: each is taken at its first occurrence. */
  method PlaceEach(v: seq<Byte>, start: nat, any: seq<seq<Byte>>) returns (found: bool, pos: nat, ghost at: seq<nat>)
    requires start <= |v|
    ensures found ==> Placed(v, start, any, at, |any|) && EndOf(start, any, at, |any|) == pos <= |v|
    ensures found ==> Earliest(v, start, any, |any|, pos)
    ensures !found ==> forall at' :: !Placed(v, start, any, at', |any|)
  {
    hide OccursAt, Placed, Earliest;
    StartPlaced(v, start, any);
    found, pos, at := true, start, [];
    var k := 0;
    while k < |any|
      invariant 0 <= k <= |any| && pos <= |v| && |at| == k
      invariant Placed(v, start, any, at, k) && EndOf(start, any, at, k) == pos
      invariant Earliest(v, start, any, k, pos)
    {
      var i := pos;
      if |any[k]| > 0 {
        found, i := Find(v, pos, any[k]);
        if !found {
          forall at' ensures !Placed(v, start, any, at', |any|) {
            NoPlacement(v, start, any, k, pos, at', |any|);
          }
          return;
        }
      } else {
        EmptyOccurs(v, pos, any[k]);
      }
      FirstIsEarliest(v, start, any, k, pos, i);
      PlacedSnoc(v, start, any, at, k, i);
      OccursInside(v, i, any[k]);
      at := at + [i];
      pos := i + |any[k]|;
      k := k + 1;
    }
    found := true;
  }

  lemma StartPlaced(v: seq<Byte>, start: nat, any: seq<seq<Byte>>)
    ensures Placed(v, start, any, [], 0) && Earliest(v, start, any, 0, start)
  {
  }

  lemma EmptyOccurs(v: seq<Byte>, i: nat, x: seq<Byte>)
    requires x == [] && i <= |v|
    ensures OccursAt(v, i, x)
  {
  }

  lemma OccursInside(v: seq<Byte>, i: nat, x: seq<Byte>)
    requires OccursAt(v, i, x)
    ensures i + |x| <= |v|
  {
  }

  /** matchSubstring: taking each part at its first occurrence decides the assertion, both ways. */
  method MatchSubstring(value: seq<Byte>, initial: seq<Byte>, any: seq<seq<Byte>>, final: seq<Byte>)
    returns (matched: bool)
    ensures matched <==> Satisfies(LowerAll(value), LowerAll(initial), LowerEach(any), LowerAll(final))
  {
    hide Placed, Earliest, LowerAll, LowerEach;
    var v, prefix, parts, suffix := LowerAll(value), LowerAll(initial), LowerEach(any), LowerAll(final);
    if |initial| > 0 {
      if !(prefix <= v) {
        return false;
      }
    }
    assert v[0..|prefix|] == v[..|prefix|];
    var found, pos;
    ghost var at;
    found, pos, at := PlaceEach(v, |initial|, parts);
    if !found {
      return false;
    }
    matched := |final| > 0 ==> |v| - pos >= |suffix| && v[|v| - |suffix|..] == suffix;
    assert matched <==> EndsWith(v, pos, suffix);
    if Satisfies(v, prefix, parts, suffix) {
      EarliestEnds(v, |prefix|, parts, pos, suffix);
    } else {
      PlacedSize(v, |prefix|, parts, at);
    }
  }

  lemma PlacedSize(v: seq<Byte>, start: nat, any: seq<seq<Byte>>, at: seq<nat>)
    requires Placed(v, start, any, at, |any|)
    ensures |at| == |any|
  {
  }

  /** If the final part fits behind some placement it fits behind the earliest. */
  lemma EarliestEnds(v: seq<Byte>, start: nat, any: seq<seq<Byte>>, pos: nat, x: seq<Byte>)
    requires Earliest(v, start, any, |any|, pos)
    requires exists at :: Placed(v, start, any, at, |any|) && EndsWith(v, EndOf(start, any, at, |any|), x)
    ensures EndsWith(v, pos, x)
  {
  }
}
