/** Merges the overlapping and touching lines of each row. */
module LineMerging {
  import opened Geometry

  predicate Covers(l: OrderedLine, axis: Axis, row: int, k: int) {
    l.axis == axis && l.row == row && l.begin <= k < l.end
  }

  /** Some line contains the unit edge from k to k + 1. */
  ghost predicate Covered(lines: seq<OrderedLine>, axis: Axis, row: int, k: int) {
    exists l :: l in lines && Covers(l, axis, row, k)
  }

  ghost predicate SameCover(a: seq<OrderedLine>, b: seq<OrderedLine>) {
    forall axis, row, k :: Covered(a, axis, row, k) <==> Covered(b, axis, row, k)
  }

  ghost predicate AllOf(lines: seq<OrderedLine>, axis: Axis) {
    forall l :: l in lines ==> l.axis == axis
  }

  function OfAxis(lines: seq<OrderedLine>, axis: Axis): (r: seq<OrderedLine>)
    ensures forall l :: l in r <==> l in lines && l.axis == axis
  {
    if lines == [] then []
    else OfAxis(lines[..|lines| - 1], axis) + (if lines[|lines| - 1].axis == axis then [lines[|lines| - 1]] else [])
  }

  //
  // Sorting
  //

  predicate NotAfter(a: OrderedLine, b: OrderedLine) {
    a.row < b.row || (a.row == b.row && a.begin <= b.begin)
  }

  ghost predicate IsSorted(lines: seq<OrderedLine>) {
    forall i, j :: 0 <= i < j < |lines| ==> NotAfter(lines[i], lines[j])
  }

  function Inserted(sorted: seq<OrderedLine>, l: OrderedLine): (r: seq<OrderedLine>)
    ensures forall x :: x in r <==> x in sorted || x == l
  {
    if sorted == [] || NotAfter(sorted[|sorted| - 1], l) then sorted + [l]
    else
      assert sorted == sorted[..|sorted| - 1] + [sorted[|sorted| - 1]];
      Inserted(sorted[..|sorted| - 1], l) + [sorted[|sorted| - 1]]
  }

  function Sorted(lines: seq<OrderedLine>): (r: seq<OrderedLine>)
    ensures forall x :: x in r <==> x in lines
  {
    if lines == [] then []
    else
      assert lines == lines[..|lines| - 1] + [lines[|lines| - 1]];
      Inserted(Sorted(lines[..|lines| - 1]), lines[|lines| - 1])
  }

  lemma {:induction false} InsertedSorted(sorted: seq<OrderedLine>, l: OrderedLine)
    requires IsSorted(sorted)
    ensures IsSorted(Inserted(sorted, l))
  {
    if sorted != [] && !NotAfter(sorted[|sorted| - 1], l) {
      var front, last := sorted[..|sorted| - 1], sorted[|sorted| - 1];
      InsertedSorted(front, l);
      assert forall x :: x in front ==> NotAfter(x, last);
      var r := Inserted(front, l);
      assert forall i :: 0 <= i < |r| ==> r[i] in r;
    }
  }

  lemma {:induction false} SortedIsSorted(lines: seq<OrderedLine>)
    ensures IsSorted(Sorted(lines))
  {
    if lines != [] {
      SortedIsSorted(lines[..|lines| - 1]);
      InsertedSorted(Sorted(lines[..|lines| - 1]), lines[|lines| - 1]);
    }
  }

  //
  // Lists without touching lines
  //

  predicate Separate(a: OrderedLine, b: OrderedLine) {
    a.row < b.row || (a.row == b.row && a.end < b.begin)
  }

  /** Sorted lines of one axis, where lines of the same row do not touch. */
  ghost predicate Canonical(lines: seq<OrderedLine>) {
    forall i, j :: 0 <= i < j < |lines| ==> Separate(lines[i], lines[j])
  }

  /** Each line of such a list is a maximal run of covered edges. */
  lemma MaximalRun(lines: seq<OrderedLine>, l: OrderedLine, axis: Axis)
    requires Canonical(lines) && AllOf(lines, axis) && l in lines
    ensures forall k :: l.begin <= k < l.end ==> Covered(lines, axis, l.row, k)
    ensures !Covered(lines, axis, l.row, l.begin - 1) && !Covered(lines, axis, l.row, l.end)
  {
    forall k | l.begin <= k < l.end ensures Covered(lines, axis, l.row, k) {
      assert Covers(l, axis, l.row, k);
    }
    var i :| 0 <= i < |lines| && lines[i] == l;
    forall m | m in lines && m.row == l.row ensures m == l || m.end < l.begin || l.end < m.begin {
      var j :| 0 <= j < |lines| && lines[j] == m;
      assert i == j || Separate(lines[i], lines[j]) || Separate(lines[j], lines[i]);
    }
  }

  lemma SameRun(a: seq<OrderedLine>, b: seq<OrderedLine>, l: OrderedLine, axis: Axis)
    requires Canonical(a) && Canonical(b) && AllOf(a, axis) && AllOf(b, axis) && SameCover(a, b) && l in a
    ensures l in b
  {
    MaximalRun(a, l, axis);
    assert Covered(b, axis, l.row, l.begin);
    var m :| m in b && Covers(m, axis, l.row, l.begin);
    MaximalRun(b, m, axis);
    assert !Covered(b, axis, l.row, l.begin - 1) && !Covered(b, axis, l.row, l.end);
    assert !Covers(m, axis, l.row, l.begin - 1) && !Covers(m, axis, l.row, l.end);
    assert !Covered(a, axis, l.row, m.end);
  }

  /** Lists without touching lines that cover the same edges are equal. */
  lemma CanonicalIsUnique(a: seq<OrderedLine>, b: seq<OrderedLine>, axis: Axis)
    requires Canonical(a) && Canonical(b) && AllOf(a, axis) && AllOf(b, axis) && SameCover(a, b)
    ensures a == b
  {
    forall l ensures l in a <==> l in b {
      if l in a {
        SameRun(a, b, l, axis);
      }
      if l in b {
        SameRun(b, a, l, axis);
      }
    }
    SameMembers(a, b);
  }

  lemma FirstIsLeast(lines: seq<OrderedLine>)
    requires Canonical(lines)
    ensures lines != [] ==> lines[0] in lines
    ensures forall l :: l in lines ==> l == lines[0] || Separate(lines[0], l)
    ensures lines != [] ==> forall l :: l in lines[1..] ==> l != lines[0]
  {
    forall l | l in lines ensures l == lines[0] || Separate(lines[0], l) {
      var i :| 0 <= i < |lines| && lines[i] == l;
      assert i == 0 || Separate(lines[0], lines[i]);
    }
  }

  lemma {:induction false} SameMembers(a: seq<OrderedLine>, b: seq<OrderedLine>)
    requires Canonical(a) && Canonical(b) && forall l :: l in a <==> l in b
    ensures a == b
    decreases |a|
  {
    FirstIsLeast(a);
    FirstIsLeast(b);
    if a != [] && b != [] {
      assert a[0] in b && b[0] in a;
      assert a[0] == b[0];
      forall l ensures l in a[1..] <==> l in b[1..] {
        assert a == [a[0]] + a[1..] && b == [b[0]] + b[1..];
        assert l in a <==> l == a[0] || l in a[1..];
        assert l in b <==> l == b[0] || l in b[1..];
      }
      SameMembers(a[1..], b[1..]);
    }
  }

  //
  // Merging
  //

  /** Combines a line with its successor when they overlap or touch, and passes to the successor otherwise. */
  function OverlappingUnion(a: OrderedLine, b: OrderedLine): OrderedLine {
    if a.row == b.row && a.end >= b.begin then Line(a.axis, a.row, a.begin, if a.end < b.end then b.end else a.end)
    else b
  }

  /** The partial sums of the union. */
  function PartialSum(lines: seq<OrderedLine>): (r: seq<OrderedLine>)
    ensures |r| == |lines|
  {
    if |lines| <= 1 then lines
    else
      var front := PartialSum(lines[..|lines| - 1]);
      front + [OverlappingUnion(front[|front| - 1], lines[|lines| - 1])]
  }

  predicate SameBeginning(a: OrderedLine, b: OrderedLine) {
    P0(a) == P0(b)
  }

  /** Removes each line that is followed by one with the same beginning. */
  function AdjacentRemove(lines: seq<OrderedLine>): seq<OrderedLine> {
    if |lines| <= 1 then lines
    else (if SameBeginning(lines[0], lines[1]) then [] else [lines[0]]) + AdjacentRemove(lines[1..])
  }

  /** The merged lines of one axis, for lines that are already sorted. */
  function MergedSorted(sorted: seq<OrderedLine>): seq<OrderedLine> {
    AdjacentRemove(PartialSum(sorted))
  }

  function MergeLines1D(lines: seq<OrderedLine>, axis: Axis): seq<OrderedLine> {
    MergedSorted(Sorted(OfAxis(lines, axis)))
  }

  function MergeSplitSegments(lines: seq<OrderedLine>): seq<OrderedLine> {
    MergeLines1D(lines, Horizontal) + MergeLines1D(lines, Vertical)
  }

  /** A growing union with the same beginning, or a gap. */
  predicate GrowsOrGap(a: OrderedLine, b: OrderedLine) {
    (a.row == b.row && a.begin == b.begin && a.end <= b.end) || Separate(a, b)
  }

  ghost predicate Stepwise(lines: seq<OrderedLine>) {
    forall i :: 0 < i < |lines| ==> GrowsOrGap(lines[i - 1], lines[i])
  }

  lemma UnionOfNext(a: OrderedLine, b: OrderedLine)
    requires a.axis == b.axis && NotAfter(a, b)
    ensures var u := OverlappingUnion(a, b);
      GrowsOrGap(a, u) && NotAfter(u, b) && u.axis == a.axis &&
      forall axis, row, k :: Covers(a, axis, row, k) || Covers(u, axis, row, k) <==>
                             Covers(a, axis, row, k) || Covers(b, axis, row, k)
  {
  }

  lemma {:induction false} PartialSumIsStepwise(lines: seq<OrderedLine>, axis: Axis)
    requires IsSorted(lines) && AllOf(lines, axis)
    ensures var r := PartialSum(lines);
      Stepwise(r) && AllOf(r, axis) && SameCover(r, lines) && (lines != [] ==> NotAfter(r[|r| - 1], lines[|r| - 1]))
  {
    if |lines| > 1 {
      var n := |lines| - 1;
      var front := PartialSum(lines[..n]);
      PartialSumIsStepwise(lines[..n], axis);
      assert NotAfter(lines[n - 1], lines[n]);
      var last, u := front[n - 1], OverlappingUnion(front[n - 1], lines[n]);
      UnionOfNext(last, lines[n]);
      assert lines == lines[..n] + [lines[n]];
      CoveredOfOneMore(lines[..n], lines[n]);
      CoveredOfOneMore(front, u);
      assert last in front;
    }
  }

  lemma CoveredOfOneMore(lines: seq<OrderedLine>, l: OrderedLine)
    ensures forall axis, row, k ::
      Covered(lines + [l], axis, row, k) <==> Covered(lines, axis, row, k) || Covers(l, axis, row, k)
  {
  }

  lemma CoveredOfFirst(l: OrderedLine, lines: seq<OrderedLine>)
    ensures forall axis, row, k ::
      Covered([l] + lines, axis, row, k) <==> Covers(l, axis, row, k) || Covered(lines, axis, row, k)
  {
  }

  lemma {:induction false} AdjacentRemoveIsCanonical(lines: seq<OrderedLine>, axis: Axis)
    requires Stepwise(lines) && AllOf(lines, axis)
    ensures var r := AdjacentRemove(lines);
      Canonical(r) && AllOf(r, axis) && SameCover(r, lines) && (lines != [] ==> r != [] && SameBeginning(r[0], lines[0]))
  {
    if |lines| > 1 {
      var first, rest := lines[0], lines[1..];
      forall i | 0 < i < |rest| ensures GrowsOrGap(rest[i - 1], rest[i]) {
        assert GrowsOrGap(lines[(i + 1) - 1], lines[i + 1]);
      }
      AdjacentRemoveIsCanonical(rest, axis);
      assert GrowsOrGap(lines[1 - 1], lines[1]);
      assert lines == [first] + rest && rest[0] in rest;
      CoveredOfFirst(first, rest);
      CoveredOfFirst(first, AdjacentRemove(rest));
      if SameBeginning(first, rest[0]) {
        assert first in lines && rest[0] in lines;
        assert forall a, row, k :: Covers(first, a, row, k) ==> Covers(rest[0], a, row, k);
        assert SameCover(lines, rest);
      } else {
        assert SameCover(lines, [first] + AdjacentRemove(rest));
      }
    }
  }

  /** Merging covers the same edges with lines that do not touch in their row. */
  lemma MergedSortedIsCanonical(sorted: seq<OrderedLine>, axis: Axis)
    requires IsSorted(sorted) && AllOf(sorted, axis)
    ensures var r := MergedSorted(sorted); Canonical(r) && AllOf(r, axis) && SameCover(r, sorted)
  {
    PartialSumIsStepwise(sorted, axis);
    AdjacentRemoveIsCanonical(PartialSum(sorted), axis);
  }

  /** The order in which a sort leaves lines with the same beginning does not matter. */
  lemma MergedIgnoresTies(a: seq<OrderedLine>, b: seq<OrderedLine>, axis: Axis)
    requires IsSorted(a) && IsSorted(b) && AllOf(a, axis) && multiset(a) == multiset(b)
    ensures MergedSorted(a) == MergedSorted(b)
  {
    forall l ensures l in a <==> l in b {
      assert l in a <==> l in multiset(a);
    }
    MergedSortedIsCanonical(a, axis);
    MergedSortedIsCanonical(b, axis);
    CanonicalIsUnique(MergedSorted(a), MergedSorted(b), axis);
  }

  lemma MergeLines1DIsCanonical(lines: seq<OrderedLine>, axis: Axis)
    ensures var r := MergeLines1D(lines, axis); Canonical(r) && AllOf(r, axis)
    ensures forall row, k :: Covered(MergeLines1D(lines, axis), axis, row, k) <==> Covered(lines, axis, row, k)
  {
    hide MergedSorted, Sorted, OfAxis, Canonical, IsSorted;
    var sorted := Sorted(OfAxis(lines, axis));
    SortedIsSorted(OfAxis(lines, axis));
    MergedSortedIsCanonical(sorted, axis);
    forall row, k ensures Covered(MergedSorted(sorted), axis, row, k) <==> Covered(lines, axis, row, k) {
      assert Covered(sorted, axis, row, k) <==> Covered(lines, axis, row, k);
    }
  }

  lemma MergedCovers(lines: seq<OrderedLine>)
    ensures SameCover(MergeSplitSegments(lines), lines)
  {
    hide MergeLines1D, Canonical;
    MergeLines1DIsCanonical(lines, Horizontal);
    MergeLines1DIsCanonical(lines, Vertical);
    var h, v := MergeLines1D(lines, Horizontal), MergeLines1D(lines, Vertical);
    forall axis, row, k ensures Covered(h + v, axis, row, k) <==> Covered(lines, axis, row, k) {
      assert Covered(h + v, axis, row, k) <==> Covered(h, axis, row, k) || Covered(v, axis, row, k);
    }
  }

  /** The merged lines depend on nothing but the covered edges, and so merging again changes nothing. */
  lemma MergedIsCanonicalForm(a: seq<OrderedLine>, b: seq<OrderedLine>)
    ensures SameCover(a, b) <==> MergeSplitSegments(a) == MergeSplitSegments(b)
    ensures MergeSplitSegments(MergeSplitSegments(a)) == MergeSplitSegments(a)
  {
    hide MergeLines1D, Canonical;
    MergedCovers(a);
    MergedCovers(b);
    SameCoverSameMerged(a, b);
    SameCoverSameMerged(MergeSplitSegments(a), a);
  }

  lemma SameCoverSameMerged(a: seq<OrderedLine>, b: seq<OrderedLine>)
    ensures SameCover(a, b) ==> MergeSplitSegments(a) == MergeSplitSegments(b)
  {
    hide MergeLines1D, Canonical, Covered;
    if SameCover(a, b) {
      forall axis ensures MergeLines1D(a, axis) == MergeLines1D(b, axis) {
        MergeLines1DIsCanonical(a, axis);
        MergeLines1DIsCanonical(b, axis);
        OtherAxis(MergeLines1D(a, axis), MergeLines1D(b, axis), axis);
        CanonicalIsUnique(MergeLines1D(a, axis), MergeLines1D(b, axis), axis);
      }
    }
  }

  lemma OtherAxis(a: seq<OrderedLine>, b: seq<OrderedLine>, axis: Axis)
    requires AllOf(a, axis) && AllOf(b, axis)
    requires forall row, k :: Covered(a, axis, row, k) <==> Covered(b, axis, row, k)
    ensures SameCover(a, b)
  {
    forall x, row, k ensures Covered(a, x, row, k) <==> Covered(b, x, row, k) {
      if x != axis {
        assert !Covered(a, x, row, k) && !Covered(b, x, row, k);
      }
    }
  }
}
