/** Sets of integers moved by a distance. */
module ShiftedSets {

  ghost function Shifted(cells: set<int>, shift: int): set<int> {
    set k | k in cells :: k + shift
  }

  lemma Pick<T>(s: set<T>) returns (x: T)
    requires |s| > 0
    ensures x in s
  {
    x :| x in s;
  }

  lemma {:induction false} ShiftedSize(cells: set<int>, shift: int)
    ensures |Shifted(cells, shift)| == |cells|
    decreases |cells|
  {
    if |cells| > 0 {
      var k := Pick(cells);
      var rest := cells - {k};
      ShiftedSize(rest, shift);
      forall x | x in Shifted(cells, shift) ensures x in Shifted(rest, shift) + {k + shift} {
        assert x - shift == k || x - shift in rest;
      }
      forall x | x in Shifted(rest, shift) ensures x in Shifted(cells, shift) {
        assert x - shift in cells;
      }
      assert Shifted(cells, shift) == Shifted(rest, shift) + {k + shift};
    }
  }
}

/**
 Selected parts of a line: a list of half-open intervals that is kept sorted and without touching neighbours.
 The meaning of such a list is the set of unit cells it covers.
 */
module PartSelections {
  import opened Wrappers
  import opened ShiftedSets

  datatype Interval = Part(begin: nat, end: nat)

  /** A part has positive length. */
  type Part = p: Interval | p.begin < p.end witness Part(0, 1)

  function Distance(p: Part): nat { p.end - p.begin }

  predicate Disjoint(a: Part, b: Part) { a.begin >= b.end || a.end <= b.begin }

  predicate Inside(a: Part, b: Part) { b.begin <= a.begin && a.end <= b.end }

  predicate InsideNotTouching(a: Part, b: Part) { b.begin < a.begin && a.end < b.end }

  predicate OverlapsBegin(a: Part, b: Part) { a.begin <= b.begin && a.end > b.begin && a.end < b.end }

  predicate OverlapsEnd(a: Part, b: Part) { a.begin > b.begin && a.begin < b.end && a.end >= b.end }

  function Intersect(a: Part, b: Part): Option<Part> {
    var begin := if a.begin < b.begin then b.begin else a.begin;
    var end := if a.end < b.end then a.end else b.end;
    if begin < end then Some(Part(begin, end)) else None
  }

  //
  // Cells
  //

  predicate HasCell(p: Part, k: int) { p.begin <= k < p.end }

  ghost function Range(p: Part): set<int> {
    set k | p.begin <= k < p.end && HasCell(p, k)
  }

  ghost function Cells(parts: seq<Part>): set<int> {
    if parts == [] then {} else Cells(parts[..|parts| - 1]) + Range(parts[|parts| - 1])
  }

  lemma {:induction false} CellsConcat(a: seq<Part>, b: seq<Part>)
    ensures Cells(a + b) == Cells(a) + Cells(b)
  {
    if b == [] {
      assert a + b == a;
    } else {
      assert (a + b)[..|a + b| - 1] == a + b[..|b| - 1];
      CellsConcat(a, b[..|b| - 1]);
    }
  }

  lemma {:induction false} CellsAre(parts: seq<Part>, k: int)
    ensures k in Cells(parts) <==> exists i :: 0 <= i < |parts| && parts[i].begin <= k < parts[i].end
  {
    if parts != [] {
      CellsAre(parts[..|parts| - 1], k);
    }
  }

  lemma CellsOfOne(p: Part)
    ensures Cells([p]) == Range(p)
  {
    assert [p][..0] == [];
  }

  //
  // Canonical lists
  //

  /** Sorted, and adjacent parts do not touch. */
  ghost predicate Canonical(parts: seq<Part>) {
    forall i, j :: 0 <= i < j < |parts| ==> parts[i].end < parts[j].begin
  }

  /** Equal cells mean equal lists. */
  lemma {:induction false} CanonicalIsUnique(a: seq<Part>, b: seq<Part>)
    requires Canonical(a) && Canonical(b) && Cells(a) == Cells(b)
    ensures a == b
    decreases |a|
  {
    if a == [] || b == [] {
      EmptyCells(a);
      EmptyCells(b);
    } else {
      var n, m := |a| - 1, |b| - 1;
      SameLast(a, b);
      forall k ensures k in Cells(a[..n]) <==> k in Cells(b[..m]) {
        CellsBeforeLast(a, k);
        CellsBeforeLast(b, k);
      }
      CanonicalIsUnique(a[..n], b[..m]);
      assert a == a[..n] + [a[n]] && b == b[..m] + [b[m]];
    }
  }

  lemma EmptyCells(parts: seq<Part>)
    ensures Cells(parts) == {} <==> parts == []
  {
    if parts != [] {
      assert parts[|parts| - 1].begin in Cells(parts);
    }
  }

  lemma CellsBeforeLast(parts: seq<Part>, k: int)
    requires Canonical(parts) && parts != []
    ensures k in Cells(parts[..|parts| - 1]) <==> k in Cells(parts) && k < parts[|parts| - 1].begin
  {
    CellsAre(parts[..|parts| - 1], k);
    CellsAre(parts, k);
  }

  lemma SameLast(a: seq<Part>, b: seq<Part>)
    requires Canonical(a) && Canonical(b) && Cells(a) == Cells(b) && a != [] && b != []
    ensures a[|a| - 1] == b[|b| - 1]
  {
    var p, q := a[|a| - 1], b[|b| - 1];
    LastIsMaximal(a);
    LastIsMaximal(b);
    assert p.end - 1 in Range(p) && q.end - 1 in Range(q);
    assert p.end == q.end;
    if p.begin < q.begin {
      assert q.begin - 1 in Range(p);
      NotJustBeforeLast(b);
    } else if q.begin < p.begin {
      assert p.begin - 1 in Range(q);
      NotJustBeforeLast(a);
    }
  }

  lemma LastIsMaximal(parts: seq<Part>)
    requires Canonical(parts) && parts != []
    ensures forall k :: k in Cells(parts) ==> k < parts[|parts| - 1].end
  {
    forall k | k in Cells(parts) ensures k < parts[|parts| - 1].end {
      CellsAre(parts, k);
    }
  }

  lemma NotJustBeforeLast(parts: seq<Part>)
    requires Canonical(parts) && parts != []
    ensures parts[|parts| - 1].begin - 1 !in Cells(parts)
  {
    CellsAre(parts, parts[|parts| - 1].begin - 1);
  }

  //
  // Sorting
  //

  /** The order of parts: by begin, then by end. */
  predicate NotAfter(a: Part, b: Part) {
    a.begin < b.begin || (a.begin == b.begin && a.end <= b.end)
  }

  ghost predicate IsSorted(parts: seq<Part>) {
    forall i, j :: 0 <= i < j < |parts| ==> NotAfter(parts[i], parts[j])
  }

  function Inserted(sorted: seq<Part>, p: Part): seq<Part> {
    if sorted == [] || NotAfter(sorted[|sorted| - 1], p) then sorted + [p]
    else Inserted(sorted[..|sorted| - 1], p) + [sorted[|sorted| - 1]]
  }

  function Sorted(parts: seq<Part>): seq<Part> {
    if parts == [] then [] else Inserted(Sorted(parts[..|parts| - 1]), parts[|parts| - 1])
  }

  lemma {:induction false} InsertedContents(sorted: seq<Part>, p: Part)
    ensures multiset(Inserted(sorted, p)) == multiset(sorted) + multiset{p}
    ensures Cells(Inserted(sorted, p)) == Cells(sorted) + Range(p)
  {
    if sorted == [] || NotAfter(sorted[|sorted| - 1], p) {
      CellsConcat(sorted, [p]);
      CellsOfOne(p);
    } else {
      var front, last := sorted[..|sorted| - 1], sorted[|sorted| - 1];
      assert sorted == front + [last];
      InsertedContents(front, p);
      CellsConcat(Inserted(front, p), [last]);
      CellsOfOne(last);
    }
  }

  lemma {:induction false} InsertedMembers(sorted: seq<Part>, p: Part)
    ensures forall x :: x in Inserted(sorted, p) <==> x in sorted || x == p
  {
    if sorted != [] && !NotAfter(sorted[|sorted| - 1], p) {
      var front, last := sorted[..|sorted| - 1], sorted[|sorted| - 1];
      assert sorted == front + [last];
      InsertedMembers(front, p);
    }
  }

  lemma {:induction false} InsertedSorted(sorted: seq<Part>, p: Part)
    requires IsSorted(sorted)
    ensures IsSorted(Inserted(sorted, p))
  {
    if sorted != [] && !NotAfter(sorted[|sorted| - 1], p) {
      var front, last := sorted[..|sorted| - 1], sorted[|sorted| - 1];
      InsertedSorted(front, p);
      InsertedMembers(front, p);
      assert forall x :: x in front ==> NotAfter(x, last);
      var r := Inserted(front, p);
      assert forall i :: 0 <= i < |r| ==> r[i] in r;
    }
  }

  /** Sorting keeps the parts and their cells. */
  lemma {:induction false} SortedIsSorted(parts: seq<Part>)
    ensures IsSorted(Sorted(parts)) && multiset(Sorted(parts)) == multiset(parts)
    ensures Cells(Sorted(parts)) == Cells(parts) && |Sorted(parts)| == |parts|
  {
    if parts != [] {
      var front, last := parts[..|parts| - 1], parts[|parts| - 1];
      assert parts == front + [last];
      SortedIsSorted(front);
      InsertedContents(Sorted(front), last);
      InsertedSorted(Sorted(front), last);
      assert |Sorted(parts)| == |multiset(Sorted(parts))|;
    }
  }

  /** Parts that do not touch each other, in any order. */
  ghost predicate Separated(parts: seq<Part>) {
    forall i, j :: 0 <= i < j < |parts| ==> parts[i].end < parts[j].begin || parts[j].end < parts[i].begin
  }

  lemma {:induction false} InsertedCanonical(sorted: seq<Part>, p: Part)
    requires Canonical(sorted)
    requires forall i :: 0 <= i < |sorted| ==> sorted[i].end < p.begin || p.end < sorted[i].begin
    ensures Canonical(Inserted(sorted, p))
  {
    if sorted != [] && !NotAfter(sorted[|sorted| - 1], p) {
      var front, last := sorted[..|sorted| - 1], sorted[|sorted| - 1];
      InsertedCanonical(front, p);
      InsertedMembers(front, p);
      assert p.end < last.begin;
      assert forall x :: x in front ==> x.end < last.begin;
      var r := Inserted(front, p);
      assert forall i :: 0 <= i < |r| ==> r[i] in r;
    }
  }

  lemma {:induction false} SortedSeparated(parts: seq<Part>)
    requires Separated(parts)
    ensures Canonical(Sorted(parts))
  {
    if parts != [] {
      var front, last := parts[..|parts| - 1], parts[|parts| - 1];
      SortedSeparated(front);
      SortedIsSorted(front);
      forall i | 0 <= i < |Sorted(front)|
        ensures Sorted(front)[i].end < last.begin || last.end < Sorted(front)[i].begin
      {
        assert Sorted(front)[i] in multiset(Sorted(front));
        assert Sorted(front)[i] in front;
      }
      InsertedCanonical(Sorted(front), last);
    }
  }

  //
  // Merging
  //

  /** Combines a part with its successor when they overlap or touch, and passes to the successor otherwise. */
  function OverlappingUnion(a: Part, b: Part): Part {
    if a.end >= b.begin then Part(a.begin, if a.end < b.end then b.end else a.end) else b
  }

  /** The union is associative, so the order in which a prefix scan combines the parts does not matter. */
  lemma OverlappingUnionAssociative(a: Part, b: Part, c: Part)
    ensures OverlappingUnion(OverlappingUnion(a, b), c) == OverlappingUnion(a, OverlappingUnion(b, c))
  {
  }

  /** The inclusive prefix scan of the union. */
  function Scan(parts: seq<Part>): (r: seq<Part>)
    ensures |r| == |parts|
  {
    if |parts| <= 1 then parts
    else
      var front := Scan(parts[..|parts| - 1]);
      front + [OverlappingUnion(front[|front| - 1], parts[|parts| - 1])]
  }

  /** Removes each part that is followed by one with the same beginning. */
  function KeepLast(parts: seq<Part>): seq<Part> {
    if |parts| <= 1 then parts
    else (if parts[0].begin == parts[1].begin then [] else [parts[0]]) + KeepLast(parts[1..])
  }

  /** A growing union with the same beginning, or a gap. */
  predicate GrowsOrGap(a: Part, b: Part) {
    (a.begin == b.begin && a.end <= b.end) || a.end < b.begin
  }

  ghost predicate Stepwise(parts: seq<Part>) {
    forall i :: 0 < i < |parts| ==> GrowsOrGap(parts[i - 1], parts[i])
  }

  lemma UnionOfNext(a: Part, b: Part)
    requires a.begin <= b.begin
    ensures GrowsOrGap(a, OverlappingUnion(a, b))
    ensures Range(a) + Range(OverlappingUnion(a, b)) == Range(a) + Range(b)
  {
  }

  lemma {:induction false} ScanIsStepwise(parts: seq<Part>)
    requires IsSorted(parts)
    ensures Stepwise(Scan(parts)) && Cells(Scan(parts)) == Cells(parts)
    ensures parts != [] ==> Scan(parts)[|parts| - 1].begin <= parts[|parts| - 1].begin
  {
    if |parts| > 1 {
      var n := |parts| - 1;
      var front := Scan(parts[..n]);
      ScanIsStepwise(parts[..n]);
      assert NotAfter(parts[n - 1], parts[n]);
      ScanOneMore(front, parts[n]);
    }
  }

  lemma ScanOneMore(front: seq<Part>, next: Part)
    requires front != [] && Stepwise(front) && front[|front| - 1].begin <= next.begin
    ensures var r := front + [OverlappingUnion(front[|front| - 1], next)];
      Stepwise(r) && Cells(r) == Cells(front) + Range(next)
  {
    var last := front[|front| - 1];
    var u := OverlappingUnion(last, next);
    UnionOfNext(last, next);
    CellsConcat(front, [u]);
    CellsOfOne(u);
    assert Range(last) <= Cells(front);
  }

  lemma {:induction false} KeepLastCanonical(parts: seq<Part>)
    requires Stepwise(parts)
    ensures Canonical(KeepLast(parts)) && Cells(KeepLast(parts)) == Cells(parts)
    ensures parts != [] ==> KeepLast(parts) != [] && KeepLast(parts)[0].begin == parts[0].begin
  {
    if |parts| > 1 {
      var first, rest := parts[0], parts[1..];
      forall i | 0 < i < |rest| ensures GrowsOrGap(rest[i - 1], rest[i]) {
        assert GrowsOrGap(parts[(i + 1) - 1], parts[i + 1]);
      }
      KeepLastCanonical(rest);
      assert GrowsOrGap(parts[1 - 1], parts[1]);
      assert parts == [first] + rest;
      CellsConcat([first], rest);
      CellsOfOne(first);
      if first.begin == rest[0].begin {
        FirstCells(rest);
        assert Range(first) <= Range(rest[0]);
        assert Range(first) + Cells(rest) == Cells(rest);
        assert KeepLast(parts) == KeepLast(rest);
      } else {
        CellsConcat([first], KeepLast(rest));
        PrependCanonical(first, KeepLast(rest));
      }
    }
  }

  lemma PrependCanonical(first: Part, rest: seq<Part>)
    requires Canonical(rest) && rest != [] && first.end < rest[0].begin
    ensures Canonical([first] + rest)
  {
    var r := [first] + rest;
    forall i, j | 0 <= i < j < |r| ensures r[i].end < r[j].begin {
      if i == 0 && j > 1 {
        assert rest[0].end < rest[j - 1].begin;
      }
    }
  }

  lemma FirstCells(parts: seq<Part>)
    requires parts != []
    ensures Range(parts[0]) <= Cells(parts)
  {
    forall k | k in Range(parts[0]) ensures k in Cells(parts) {
      CellsAre(parts, k);
    }
  }

  /** What sorting and merging makes of a list: the canonical list with the same cells. */
  lemma MergedIsCanonical(parts: seq<Part>)
    ensures Canonical(KeepLast(Scan(Sorted(parts)))) && Cells(KeepLast(Scan(Sorted(parts)))) == Cells(parts)
  {
    SortedIsSorted(parts);
    ScanIsStepwise(Sorted(parts));
    KeepLastCanonical(Scan(Sorted(parts)));
  }

  /** The in-place prefix scan. */
  method InclusiveScan(parts: seq<Part>) returns (r: seq<Part>)
    ensures r == Scan(parts)
  {
    r := parts;
    if |r| == 0 {
      return;
    }
    assert r == parts[..1] + parts[1..];
    for i := 1 to |parts|
      invariant |r| == |parts|
      invariant r == Scan(parts[..i]) + parts[i..]
    {
      assert parts[..i + 1][..i] == parts[..i];
      r := r[i := OverlappingUnion(r[i - 1], r[i])];
    }
    assert parts[..|parts|] == parts;
  }

  method AdjacentRemoveSameBeginning(parts: seq<Part>) returns (r: seq<Part>)
    ensures r == KeepLast(parts)
  {
    r := [];
    if parts == [] {
      return;
    }
    for i := 0 to |parts| - 1
      invariant r + KeepLast(parts[i..]) == KeepLast(parts)
    {
      assert parts[i..][1..] == parts[i + 1..];
      if parts[i].begin != parts[i + 1].begin {
        r := r + [parts[i]];
      }
    }
    r := r + [parts[|parts| - 1]];
  }

  method SortAndMergeParts(parts: seq<Part>) returns (r: seq<Part>)
    ensures Canonical(r) && Cells(r) == Cells(parts)
  {
    if |parts| <= 1 {
      return parts;
    }
    var sorted := Sorted(parts);
    var scanned := InclusiveScan(sorted);
    r := AdjacentRemoveSameBeginning(scanned);
    MergedIsCanonical(parts);
  }

  //
  // Copying
  //

  datatype CopyDefinition = CopyDefinition(destination: Part, source: Part)

  /** Cells of the source part, moved to the destination part. */
  ghost function CopiedCells(cells: set<int>, def: CopyDefinition): set<int> {
    Shifted(cells * Range(def.source), def.destination.begin - def.source.begin)
  }

  /** What remains of a part inside the source part, moved to the destination part. */
  function CopiedPart(p: Part, def: CopyDefinition): (r: Option<Part>)
    requires Distance(def.destination) == Distance(def.source)
    ensures r.Some? ==> Inside(r.value, def.destination)
    ensures (if r.Some? then Range(r.value) else {}) == CopiedCells(Range(p), def)
  {
    var common := Intersect(p, def.source);
    if common.None? then
      assert Range(p) * Range(def.source) == {} by {
        assert forall k :: !(HasCell(p, k) && HasCell(def.source, k));
      }
      None
    else
      var begin := common.value.begin + def.destination.begin - def.source.begin;
      var end := common.value.end + def.destination.begin - def.source.begin;
      var cut := if end < def.destination.end then end else def.destination.end;
      assert cut == end;
      CopiedRange(p, def, Part(begin, cut));
      Some(Part(begin, cut))
  }

  lemma CopiedRange(p: Part, def: CopyDefinition, r: Part)
    requires Intersect(p, def.source).Some?
    requires r.begin == Intersect(p, def.source).value.begin + def.destination.begin - def.source.begin
    requires r.end == Intersect(p, def.source).value.end + def.destination.begin - def.source.begin
    ensures Range(r) == CopiedCells(Range(p), def)
  {
    var shift := def.destination.begin - def.source.begin;
    forall k | k in Range(r) ensures k in CopiedCells(Range(p), def) {
      assert k - shift in Range(p) * Range(def.source);
    }
  }

  /** The copies of the parts of a list, in its order. */
  function Copied(parts: seq<Part>, def: CopyDefinition): seq<Part>
    requires Distance(def.destination) == Distance(def.source)
  {
    if parts == [] then []
    else
      var last := CopiedPart(parts[|parts| - 1], def);
      Copied(parts[..|parts| - 1], def) + (if last.Some? then [last.value] else [])
  }

  /** Copying parts copies their cells. */
  lemma {:induction false} CopiedCellsAre(parts: seq<Part>, def: CopyDefinition)
    requires Distance(def.destination) == Distance(def.source)
    ensures Cells(Copied(parts, def)) == CopiedCells(Cells(parts), def)
  {
    if parts != [] {
      var front, last := parts[..|parts| - 1], parts[|parts| - 1];
      var copy := CopiedPart(last, def);
      CopiedCellsAre(front, def);
      CopiedUnion(Cells(front), Range(last), def);
      CellsConcat(Copied(front, def), if copy.Some? then [copy.value] else []);
      if copy.Some? {
        CellsOfOne(copy.value);
      }
    }
  }

  /** Copies of a canonical list are canonical, and do not reach beyond the copy of its end. */
  lemma {:induction false} CopiedCanonical(parts: seq<Part>, def: CopyDefinition)
    requires Distance(def.destination) == Distance(def.source) && Canonical(parts)
    ensures Canonical(Copied(parts, def))
    ensures parts == [] ==> Copied(parts, def) == []
    ensures parts != [] ==> forall i :: 0 <= i < |Copied(parts, def)| ==>
      Copied(parts, def)[i].end <= parts[|parts| - 1].end + def.destination.begin - def.source.begin
  {
    hide Range, CopiedCells;
    if parts != [] {
      var front, last := parts[..|parts| - 1], parts[|parts| - 1];
      CopiedCanonical(front, def);
      assert front != [] ==> front[|front| - 1].end < last.begin;
    }
  }

  lemma CopiedUnion(a: set<int>, b: set<int>, def: CopyDefinition)
    ensures CopiedCells(a + b, def) == CopiedCells(a, def) + CopiedCells(b, def)
  {
    assert (a + b) * Range(def.source) == a * Range(def.source) + b * Range(def.source);
  }

  //
  // Removing
  //

  /** Shrinking a part keeps the parts apart; only the tail from the part on changes its cells. */
  lemma Replaced(parts: seq<Part>, i: nat, p: Part)
    requires i < |parts| && Separated(parts) && Inside(p, parts[i])
    ensures Separated(parts[i := p])
    ensures Cells(parts[i := p][i..]) == Range(p) + Cells(parts[i + 1..])
  {
    assert parts[i := p][i..] == [p] + parts[i + 1..];
    CellsConcat([p], parts[i + 1..]);
    CellsOfOne(p);
  }

  lemma SplitInTwo(parts: seq<Part>, i: nat, left: Part, right: Part)
    requires i < |parts| && Separated(parts) && Inside(left, parts[i]) && Inside(right, parts[i])
    requires left.end < right.begin
    ensures Separated(parts[i := left] + [right])
    ensures Cells((parts[i := left] + [right])[i..]) == Range(left) + Cells(parts[i + 1..]) + Range(right)
  {
    Replaced(parts, i, left);
    assert (parts[i := left] + [right])[i..] == parts[i := left][i..] + [right];
    CellsConcat(parts[i := left][i..], [right]);
    CellsOfOne(right);
  }

  /** Overwriting a part with the last one and dropping the last one removes the part. */
  lemma SwappedAndPopped(parts: seq<Part>, i: nat)
    requires i < |parts| && Separated(parts)
    ensures var r := parts[i := parts[|parts| - 1]][..|parts| - 1];
      && r[..i] == parts[..i] && Separated(r) && Cells(r[i..]) == Cells(parts[i + 1..])
  {
    var n := |parts| - 1;
    var r := parts[i := parts[n]][..n];
    if i == n {
      assert r == parts[..n] && r[i..] == [] && parts[i + 1..] == [];
    } else {
      var middle := parts[i + 1..n];
      assert r[i..] == [parts[n]] + middle;
      assert parts[i + 1..] == middle + [parts[n]];
      CellsConcat([parts[n]], middle);
      CellsConcat(middle, [parts[n]]);
    }
  }

  /** The cases of removing a part are exhaustive. */
  lemma RemoveCases(removing: Part, p: Part)
    ensures Disjoint(removing, p) || InsideNotTouching(removing, p) || Inside(p, removing)
            || OverlapsBegin(removing, p) || OverlapsEnd(removing, p)
    ensures Disjoint(removing, p) ==> Range(p) - Range(removing) == Range(p)
    ensures Inside(p, removing) ==> Range(p) - Range(removing) == {}
    ensures InsideNotTouching(removing, p) ==>
      Range(p) - Range(removing) == Range(Part(p.begin, removing.begin)) + Range(Part(removing.end, p.end))
    ensures OverlapsBegin(removing, p) ==> Range(p) - Range(removing) == Range(Part(removing.end, p.end))
    ensures OverlapsEnd(removing, p) ==> Range(p) - Range(removing) == Range(Part(p.begin, removing.begin))
  {
  }

  lemma RemoveFromUnion(a: set<int>, b: set<int>, r: set<int>)
    ensures (a + b) - r == (a - r) + (b - r)
  {
  }

  lemma TailCells(parts: seq<Part>, i: nat)
    requires i < |parts|
    ensures Cells(parts[i..]) == Range(parts[i]) + Cells(parts[i + 1..])
  {
    assert parts[i..] == [parts[i]] + parts[i + 1..];
    CellsConcat([parts[i]], parts[i + 1..]);
    CellsOfOne(parts[i]);
  }

  class PartSelection {
    var parts: seq<Part>

    ghost predicate Valid()
      reads this
    {
      Canonical(parts)
    }

    constructor ()
      ensures Valid() && parts == []
    {
      parts := [];
    }

    constructor FromPart(part: Part)
      ensures Valid() && parts == [part] && Cells(parts) == Range(part)
    {
      parts := [part];
      new;
      CellsOfOne(part);
    }

    constructor FromParts(list: seq<Part>)
      ensures Valid() && Cells(parts) == Cells(list)
    {
      parts := [];
      new;
      parts := SortAndMergeParts(list);
    }

    /** Starts from the parts of another selection. */
    constructor Copy(other: seq<Part>)
      requires Canonical(other)
      ensures Valid() && parts == other
    {
      parts := other;
    }

    method AddPart(part: Part)
      requires Valid()
      modifies this
      ensures Valid() && Cells(parts) == Cells(old(parts)) + Range(part)
    {
      CellsConcat(parts, [part]);
      CellsOfOne(part);
      parts := parts + [part];
      parts := SortAndMergeParts(parts);
    }

    /** Goes backwards, so that what is appended or swapped in was handled already. */
    method RemovePart(removing: Part)
      requires Valid()
      modifies this
      ensures Valid() && Cells(parts) == Cells(old(parts)) - Range(removing)
    {
      hide Cells, Range;
      ghost var was := parts;
      var requireSort := false;
      var i := |parts|;
      NothingRemoved(was, removing);
      while i > 0
        invariant 0 <= i <= |parts| && i <= |was| && parts[..i] == was[..i]
        invariant Separated(parts)
        invariant Cells(parts[i..]) == Cells(was[i..]) - Range(removing)
        invariant !requireSort ==> |parts| == |was| && forall j :: i <= j < |was| ==> Inside(parts[j], was[j])
      {
        i := i - 1;
        var part := parts[i];
        ghost var tail := Cells(parts[i + 1..]);
        RemoveCases(removing, part);
        TailCells(was, i);
        assert part == was[i];
        RemoveFromUnion(Range(part), Cells(was[i + 1..]), Range(removing));
        if Disjoint(removing, part) {
          Replaced(parts, i, part);
          assert parts[i := part] == parts;
        } else if InsideNotTouching(removing, part) {
          var left, right := Part(part.begin, removing.begin), Part(removing.end, part.end);
          SplitInTwo(parts, i, left, right);
          parts := parts[i := left];
          parts := parts + [right];
          requireSort := true;
        } else if Inside(part, removing) {
          SwappedAndPopped(parts, i);
          parts := parts[i := parts[|parts| - 1]];
          parts := parts[..|parts| - 1];
          requireSort := true;
        } else if OverlapsBegin(removing, part) {
          Replaced(parts, i, Part(removing.end, part.end));
          parts := parts[i := Part(removing.end, part.end)];
        } else if OverlapsEnd(removing, part) {
          Replaced(parts, i, Part(part.begin, removing.begin));
          parts := parts[i := Part(part.begin, removing.begin)];
        } else {
          assert false;  // every overlap is one of the cases above
        }
        assert Cells(parts[i..]) == (Range(part) - Range(removing)) + tail;
      }
      assert parts[0..] == parts && was[0..] == was;
      if requireSort {
        SortedSeparated(parts);
        SortedIsSorted(parts);
        parts := Sorted(parts);
      } else {
        ShrunkInPlace(parts, was);
      }
    }

    /** The cells of this part that are not selected. */
    method InvertedSelection(part: Part) returns (r: PartSelection)
      requires Valid()
      ensures r.Valid() && fresh(r) && Cells(r.parts) == Range(part) - Cells(parts)
    {
      hide Cells, Range;
      if parts == [] {
        r := new PartSelection.FromPart(part);
        EmptyCells(parts);
        return;
      }
      var result := AddIfPositive([], part, part.begin, parts[0].begin);
      CellsBefore(part, parts);
      for i := 1 to |parts|
        invariant Canonical(result) && (result != [] ==> result[|result| - 1].end <= parts[i - 1].begin)
        invariant Cells(result) == CellsFromTo(part, 0, parts[i - 1].begin) - Cells(parts)
      {
        CellsBetween(part, parts, i);
        result := AddIfPositive(result, part, parts[i - 1].end, parts[i].begin);
      }
      CellsAfter(part, parts);
      result := AddIfPositive(result, part, parts[|parts| - 1].end, part.end);
      r := new PartSelection.Copy(result);
    }

    /** Adds the selected cells of the source part at their shifted places in the destination part. */
    method CopyParts(source: seq<Part>, def: CopyDefinition) returns (ok: bool)
      requires Valid() && Canonical(source)
      modifies this
      ensures Valid() && ok == (Distance(def.destination) == Distance(def.source))
      ensures ok ==> Cells(parts) == Cells(old(parts)) + CopiedCells(Cells(source), def)
      ensures !ok ==> parts == old(parts)
    {
      hide Cells, CopiedCells, Range;
      if Distance(def.destination) != Distance(def.source) {
        return false;
      }
      var originalEmpty := parts == [];
      ghost var was := parts;
      assert Copied(source[..0], def) == [];
      for i := 0 to |source|
        invariant parts == was + Copied(source[..i], def)
      {
        assert source[..i + 1][..i] == source[..i];
        var copy := CopiedPart(source[i], def);
        if copy.Some? {
          parts := parts + [copy.value];
        }
      }
      assert source[..|source|] == source;
      CellsConcat(was, Copied(source, def));
      CopiedCellsAre(source, def);
      CopiedCanonical(source, def);
      if originalEmpty {
        assert parts == Copied(source, def);
      } else {
        parts := SortAndMergeParts(parts);
      }
      return true;
    }
  }

  /** Where the cells of a canonical list lie, seen from the gap between two neighbours. */
  lemma GapCells(parts: seq<Part>, i: nat, k: int)
    requires Canonical(parts) && 0 < i < |parts|
    ensures parts[i - 1].end <= k < parts[i].begin ==> k !in Cells(parts)
    ensures parts[i - 1].begin <= k < parts[i - 1].end ==> k in Cells(parts)
  {
    CellsAre(parts, k);
  }

  lemma CellsBefore(part: Part, parts: seq<Part>)
    requires Canonical(parts) && parts != []
    ensures CellsFromTo(part, part.begin, parts[0].begin) == CellsFromTo(part, 0, parts[0].begin) - Cells(parts)
    ensures Cells([]) + CellsFromTo(part, part.begin, parts[0].begin) == CellsFromTo(part, part.begin, parts[0].begin)
  {
    forall k | k < parts[0].begin ensures k !in Cells(parts) {
      CellsAre(parts, k);
    }
  }

  lemma CellsBetween(part: Part, parts: seq<Part>, i: nat)
    requires Canonical(parts) && 0 < i < |parts|
    ensures CellsFromTo(part, 0, parts[i].begin) - Cells(parts) ==
      (CellsFromTo(part, 0, parts[i - 1].begin) - Cells(parts)) + CellsFromTo(part, parts[i - 1].end, parts[i].begin)
  {
    forall k
      ensures parts[i - 1].end <= k < parts[i].begin ==> k !in Cells(parts)
      ensures parts[i - 1].begin <= k < parts[i - 1].end ==> k in Cells(parts)
    {
      GapCells(parts, i, k);
    }
  }

  lemma CellsAfter(part: Part, parts: seq<Part>)
    requires Canonical(parts) && parts != []
    ensures var last := parts[|parts| - 1];
      Range(part) - Cells(parts) ==
      (CellsFromTo(part, 0, last.begin) - Cells(parts)) + CellsFromTo(part, last.end, part.end)
  {
    var last := parts[|parts| - 1];
    forall k
      ensures last.end <= k ==> k !in Cells(parts)
      ensures last.begin <= k < last.end ==> k in Cells(parts)
    {
      CellsAre(parts, k);
    }
  }

  lemma ShrunkInPlace(parts: seq<Part>, was: seq<Part>)
    requires Canonical(was) && |parts| == |was| && forall j :: 0 <= j < |was| ==> Inside(parts[j], was[j])
    ensures Canonical(parts)
  {
  }

  /** The part of the line from begin to end that lies inside `part`, if any, at the end of a list. */
  method AddIfPositive(list: seq<Part>, part: Part, begin: nat, end: nat) returns (r: seq<Part>)
    requires Canonical(list) && (list != [] ==> list[|list| - 1].end < Larger(part.begin, begin))
    ensures Canonical(r) && Cells(r) == Cells(list) + CellsFromTo(part, begin, end)
    ensures r == list || (r != [] && r[|r| - 1].end <= end)
  {
    var from := Larger(part.begin, begin);
    var to := if end < part.end then end else part.end;
    r := list;
    ClampedCells(part, begin, end, from, to);
    hide Cells, CellsFromTo, Range;
    if from < to {
      CellsConcat(list, [Part(from, to)]);
      CellsOfOne(Part(from, to));
      r := r + [Part(from, to)];
    }
  }

  lemma ClampedCells(part: Part, begin: nat, end: nat, from: nat, to: nat)
    requires from == Larger(part.begin, begin) && to == if end < part.end then end else part.end
    ensures from < to ==> CellsFromTo(part, begin, end) == Range(Part(from, to))
    ensures !(from < to) ==> CellsFromTo(part, begin, end) == {}
  {
    assert forall k :: HasCell(part, k) && begin <= k < end ==> from <= k < to;
  }

  function Larger(a: nat, b: nat): nat { if a < b then b else a }

  ghost function CellsFromTo(part: Part, begin: int, end: int): set<int> {
    set k | k in Range(part) && begin <= k < end
  }

  lemma NothingRemoved(parts: seq<Part>, removing: Part)
    requires Canonical(parts)
    ensures Separated(parts) && Cells(parts[|parts|..]) == Cells(parts[|parts|..]) - Range(removing)
  {
  }

  //
  // Moving
  //

  datatype MoveError = NotIndependent | SizesDiffer

  /** Moves the selected cells of the source part from one selection to another. */
  method MoveParts(destination: PartSelection, source: PartSelection, def: CopyDefinition)
    returns (r: Result<(), MoveError>)
    requires destination.Valid() && source.Valid()
    modifies destination, source
    ensures destination.Valid() && source.Valid()
    ensures destination == source ==> r == Err(NotIndependent)
    ensures destination != source && Distance(def.destination) != Distance(def.source) ==> r == Err(SizesDiffer)
    ensures r.Err? ==> destination.parts == old(destination.parts) && source.parts == old(source.parts)
    ensures destination != source && Distance(def.destination) == Distance(def.source) ==> r == Ok(())
    ensures r.Ok? ==>
      && Cells(destination.parts) == Cells(old(destination.parts)) + CopiedCells(Cells(old(source.parts)), def)
      && Cells(source.parts) == Cells(old(source.parts)) - Range(def.source)
  {
    if destination == source {
      return Err(NotIndependent);
    }
    var ok := destination.CopyParts(source.parts, def);
    if !ok {
      return Err(SizesDiffer);
    }
    source.RemovePart(def.source);
    return Ok(());
  }

  /** Moves the selected cells of the source part within one selection. */
  method MovePartsWithin(selection: PartSelection, def: CopyDefinition) returns (r: Result<(), MoveError>)
    requires selection.Valid()
    modifies selection
    ensures selection.Valid()
    ensures Distance(def.destination) != Distance(def.source) ==>
      r == Err(SizesDiffer) && selection.parts == old(selection.parts)
    ensures Distance(def.destination) == Distance(def.source) ==>
      && r == Ok(())
      && Cells(selection.parts) ==
           (Cells(old(selection.parts)) - Range(def.source)) + CopiedCells(Cells(old(selection.parts)), def)
  {
    var result := new PartSelection.Copy(selection.parts);
    result.RemovePart(def.source);
    var ok := result.CopyParts(selection.parts, def);
    if !ok {
      return Err(SizesDiffer);
    }
    selection.parts := result.parts;
    return Ok(());
  }

  /** No selected cell is lost or made up when the destination part was free of selected cells. */
  lemma MoveConservesCells(source: set<int>, rest: set<int>, def: CopyDefinition)
    requires Distance(def.destination) == Distance(def.source) && rest !! Range(def.destination)
    ensures |source - Range(def.source)| + |rest + CopiedCells(source, def)| == |source| + |rest|
  {
    CopiedInside(source, def);
    hide Range, CopiedCells;
    assert rest !! CopiedCells(source, def);
  }

  /** The copies lie in the destination part, and are as many as what the source part had. */
  lemma CopiedInside(source: set<int>, def: CopyDefinition)
    requires Distance(def.destination) == Distance(def.source)
    ensures CopiedCells(source, def) <= Range(def.destination)
    ensures |source - Range(def.source)| + |CopiedCells(source, def)| == |source|
  {
    var moved := source * Range(def.source);
    var shift := def.destination.begin - def.source.begin;
    ShiftedSize(moved, shift);
    forall k | k in CopiedCells(source, def) ensures k in Range(def.destination) {
      assert k - shift in moved;
    }
    hide Range, CopiedCells;
    assert source == (source - Range(def.source)) + moved && (source - Range(def.source)) !! moved;
  }
}
