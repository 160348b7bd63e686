/**
 The normal form of a list of segments: merged where that changes no junction, and split at every junction.
 A list is accepted as normalized exactly when no two segments overlap, could be merged or need to be split.
 */
module TreeNormalization {
  import opened Wrappers
  import opened Geometry
  import opened LineMerging
  import opened LineSplitting

  //
  // Points of segments
  //

  ghost predicate IsEndPointOf(lines: seq<OrderedLine>, axis: Axis, p: Point) {
    exists l :: l in lines && l.axis == axis && IsEndPoint(p, l)
  }

  ghost predicate IsAnyEndPoint(lines: seq<OrderedLine>, p: Point) {
    IsEndPointOf(lines, Horizontal, p) || IsEndPointOf(lines, Vertical, p)
  }

  function WithPoint(points: seq<Point>, p: Point): (r: seq<Point>)
    ensures forall x :: x in r <==> x in points || x == p
  {
    if points == [] || IsLess(points[|points| - 1], p) then points + [p]
    else if points[|points| - 1] == p then points
    else
      assert points == points[..|points| - 1] + [points[|points| - 1]];
      WithPoint(points[..|points| - 1], p) + [points[|points| - 1]]
  }

  function ToPointsSortedUnique(lines: seq<OrderedLine>): (r: seq<Point>) {
    if lines == [] then []
    else
      var last := lines[|lines| - 1];
      WithPoint(WithPoint(ToPointsSortedUnique(lines[..|lines| - 1]), P0(last)), P1(last))
  }

  lemma {:induction false} PointsAreEndPoints(lines: seq<OrderedLine>, p: Point)
    ensures p in ToPointsSortedUnique(lines) <==> IsAnyEndPoint(lines, p)
  {
    if lines != [] {
      var front, last := lines[..|lines| - 1], lines[|lines| - 1];
      assert lines == front + [last];
      PointsAreEndPoints(front, p);
      forall axis
        ensures IsEndPointOf(lines, axis, p) <==> IsEndPointOf(front, axis, p) || (last.axis == axis && IsEndPoint(p, last))
      {
        assert last in lines;
      }
    }
  }

  predicate EndsLine(lines: seq<OrderedLine>, axis: Axis, p: Point) {
    lines != [] && ((lines[0].axis == axis && IsEndPoint(p, lines[0])) || EndsLine(lines[1..], axis, p))
  }

  lemma {:induction false} EndsLineIs(lines: seq<OrderedLine>, axis: Axis, p: Point)
    ensures EndsLine(lines, axis, p) <==> IsEndPointOf(lines, axis, p)
  {
    if lines != [] {
      assert lines == [lines[0]] + lines[1..];
      EndsLineIs(lines[1..], axis, p);
    }
  }

  /** The points that end both a horizontal and a vertical line. */
  function WithBothOrientations(points: seq<Point>, lines: seq<OrderedLine>): (r: seq<Point>)
    ensures forall p :: p in r <==> p in points && EndsLine(lines, Horizontal, p) && EndsLine(lines, Vertical, p)
  {
    if points == [] then []
    else
      (if EndsLine(lines, Horizontal, points[0]) && EndsLine(lines, Vertical, points[0]) then [points[0]] else [])
      + WithBothOrientations(points[1..], lines)
  }

  function ToPointsWithBothOrientations(lines: seq<OrderedLine>): seq<Point> {
    WithBothOrientations(ToPointsSortedUnique(lines), lines)
  }

  lemma BothOrientations(lines: seq<OrderedLine>, p: Point)
    ensures p in ToPointsWithBothOrientations(lines) <==>
      IsEndPointOf(lines, Horizontal, p) && IsEndPointOf(lines, Vertical, p)
  {
    PointsAreEndPoints(lines, p);
    EndsLineIs(lines, Horizontal, p);
    EndsLineIs(lines, Vertical, p);
  }

  //
  // The normal form
  //

  /** The point lies on a line of the axis, maybe at its end. */
  ghost predicate IsOnLine(lines: seq<OrderedLine>, axis: Axis, p: Point) {
    exists l :: l in lines && l.axis == axis && IsColliding(p, l)
  }

  /** A segment ends here, and segments of both orientations meet here. */
  ghost predicate IsJunction(lines: seq<OrderedLine>, p: Point) {
    IsAnyEndPoint(lines, p) && IsOnLine(lines, Horizontal, p) && IsOnLine(lines, Vertical, p)
  }

  /** The covered part of a row ends here or has a junction here. */
  ghost predicate IsBreak(lines: seq<OrderedLine>, axis: Axis, row: int, k: int) {
    !(Covered(lines, axis, row, k - 1) && Covered(lines, axis, row, k)) || IsJunction(lines, At(axis, row, k))
  }

  /** A covered part from one break to the next. */
  ghost predicate IsNormalPiece(lines: seq<OrderedLine>, q: OrderedLine) {
    && (forall k :: q.begin <= k < q.end ==> Covered(lines, q.axis, q.row, k))
    && IsBreak(lines, q.axis, q.row, q.begin) && IsBreak(lines, q.axis, q.row, q.end)
    && (forall k :: q.begin < k < q.end ==> !IsBreak(lines, q.axis, q.row, k))
  }

  /** Exactly the normal pieces, each once; they cover the same edges. */
  ghost predicate IsNormalization(lines: seq<OrderedLine>, r: seq<OrderedLine>) {
    && NoDuplicates(r)
    && (forall q :: q in r <==> IsNormalPiece(lines, q))
    && SameCover(r, lines)
  }

  //
  // What is documented of normalized segments
  //

  ghost predicate CouldBeMerged(lines: seq<OrderedLine>, a: OrderedLine, b: OrderedLine) {
    && a.axis == b.axis && P1(a) == P0(b)
    && !(IsOnLine(lines, Horizontal, P1(a)) && IsOnLine(lines, Vertical, P1(a)))
  }

  ghost predicate NeedsSplitting(lines: seq<OrderedLine>, l: OrderedLine) {
    exists p :: IsAnyEndPoint(lines, p) && IsInside(p, l)
  }

  /** No segments overlap, no two segments could be merged, and none has an end point of a segment inside. */
  ghost predicate IsNormalized(lines: seq<OrderedLine>) {
    && NoOverlap(lines)
    && (forall a, b :: a in lines && b in lines ==> !CouldBeMerged(lines, a, b))
    && (forall l :: l in lines ==> !NeedsSplitting(lines, l))
  }

  //
  // Coverage and points
  //

  lemma OnLineIsCovered(lines: seq<OrderedLine>, axis: Axis, row: int, k: int)
    ensures IsOnLine(lines, axis, At(axis, row, k)) <==>
      Covered(lines, axis, row, k - 1) || Covered(lines, axis, row, k)
  {
    var p := At(axis, row, k);
    if l :| l in lines && l.axis == axis && IsColliding(p, l) {
      assert Covers(l, axis, row, k - 1) || Covers(l, axis, row, k);
    }
    forall l | l in lines && (Covers(l, axis, row, k - 1) || Covers(l, axis, row, k)) ensures IsColliding(p, l) {
    }
  }

  /** Where a run of covered edges begins or ends, a line begins or ends. */
  lemma RunEndsAreEndPoints(lines: seq<OrderedLine>, axis: Axis, row: int, k: int)
    requires Covered(lines, axis, row, k - 1) != Covered(lines, axis, row, k)
    ensures IsEndPointOf(lines, axis, At(axis, row, k))
  {
    var x := if Covered(lines, axis, row, k) then k else k - 1;
    var l :| l in lines && Covers(l, axis, row, x);
    assert !Covers(l, axis, row, if x == k then k - 1 else k);
    assert IsEndPoint(At(axis, row, k), l);
  }

  lemma SameCoverSameOnLine(a: seq<OrderedLine>, b: seq<OrderedLine>, axis: Axis, p: Point)
    requires SameCover(a, b)
    ensures IsOnLine(a, axis, p) == IsOnLine(b, axis, p)
  {
    var row, k := Across(axis, p), Along(axis, p);
    assert p == At(axis, row, k);
    OnLineIsCovered(a, axis, row, k);
    OnLineIsCovered(b, axis, row, k);
  }

  //
  // The lines of a merged list are the runs of the covered edges
  //

  /** Every line is a maximal run, and no edge is in two lines. */
  ghost predicate AreRuns(lines: seq<OrderedLine>, runs: seq<OrderedLine>) {
    && SameCover(runs, lines)
    && NoOverlap(runs)
    && (forall m :: m in runs ==>
          !Covered(lines, m.axis, m.row, m.begin - 1) && !Covered(lines, m.axis, m.row, m.end))
  }

  lemma CanonicalDoesNotOverlap(lines: seq<OrderedLine>)
    requires Canonical(lines)
    ensures NoOverlap(lines)
  {
    forall i, j | 0 <= i < j < |lines| ensures !ShareEdge(lines[i], lines[j]) {
      assert Separate(lines[i], lines[j]);
    }
  }

  lemma OfTwoAxes(h: seq<OrderedLine>, v: seq<OrderedLine>)
    requires AllOf(h, Horizontal) && AllOf(v, Vertical)
    ensures NoOverlap(h) && NoOverlap(v) ==> NoOverlap(h + v)
    ensures forall row, k :: Covered(h + v, Horizontal, row, k) <==> Covered(h, Horizontal, row, k)
    ensures forall row, k :: Covered(h + v, Vertical, row, k) <==> Covered(v, Vertical, row, k)
  {
    forall i, j | 0 <= i < |h| && 0 <= j < |v| ensures !ShareEdge(h[i], v[j]) {
      assert h[i] in h && v[j] in v;
    }
  }

  lemma MergedAreRuns(lines: seq<OrderedLine>)
    ensures AreRuns(lines, MergeSplitSegments(lines))
  {
    hide MergeLines1D, Canonical, NoOverlap;
    MergedCovers(lines);
    var h, v := MergeLines1D(lines, Horizontal), MergeLines1D(lines, Vertical);
    MergeLines1DIsCanonical(lines, Horizontal);
    MergeLines1DIsCanonical(lines, Vertical);
    CanonicalDoesNotOverlap(h);
    CanonicalDoesNotOverlap(v);
    OfTwoAxes(h, v);
    forall m: OrderedLine | m in h + v
      ensures !Covered(lines, m.axis, m.row, m.begin - 1) && !Covered(lines, m.axis, m.row, m.end)
    {
      if m in h {
        MaximalRun(h, m, Horizontal);
      } else {
        MaximalRun(v, m, Vertical);
      }
    }
  }

  lemma OneRunPerEdge(runs: seq<OrderedLine>, a: OrderedLine, b: OrderedLine)
    requires NoOverlap(runs) && a in runs && b in runs && ShareEdge(a, b)
    ensures a == b
  {
    var i :| 0 <= i < |runs| && runs[i] == a;
    var j :| 0 <= j < |runs| && runs[j] == b;
    var k :| Covers(a, b.axis, b.row, k) && Covers(b, b.axis, b.row, k);
    assert ShareEdge(b, a) by {
      assert Covers(b, a.axis, a.row, k) && Covers(a, a.axis, a.row, k);
    }
  }

  lemma RunWithEdge(lines: seq<OrderedLine>, runs: seq<OrderedLine>, axis: Axis, row: int, k: int) returns (m: OrderedLine)
    requires AreRuns(lines, runs) && Covered(lines, axis, row, k)
    ensures m in runs && Covers(m, axis, row, k)
  {
    assert Covered(runs, axis, row, k);
    m :| m in runs && Covers(m, axis, row, k);
  }

  //
  // The points to split at
  //

  /** At every cut of a line, a piece of it begins or ends. */
  lemma CutEndsPiece(runs: seq<OrderedLine>, points: seq<Point>, r: seq<OrderedLine>, m: OrderedLine, k: int)
    requires AreSplit(runs, points, r) && NoOverlap(runs) && m in runs && IsCut(m, points, k)
    ensures IsEndPointOf(r, m.axis, At(m.axis, m.row, k))
  {
    hide SameCover, IsCut, NoDuplicates, NoOverlap;
    var edge := if k == m.end then k - 1 else k;
    CutIsWithin(m, points, k);
    assert Covers(m, m.axis, m.row, edge);
    CoverOf(r, runs, m.axis, m.row, edge);
    var q :| q in r && Covers(q, m.axis, m.row, edge);
    var n :| n in runs && IsPiece(n, points, q);
    PieceCovers(n, points, q, m.axis, m.row, edge);
    assert ShareEdge(n, m);
    OneRunPerEdge(runs, n, m);
    PieceWithin(m, points, q);
    assert k == q.begin || k == q.end;
    assert IsEndPoint(At(m.axis, m.row, k), q);
  }

  lemma CoverOf(a: seq<OrderedLine>, b: seq<OrderedLine>, axis: Axis, row: int, k: int)
    requires SameCover(a, b)
    ensures Covered(a, axis, row, k) == Covered(b, axis, row, k)
  {
  }

  lemma CutIsWithin(m: OrderedLine, points: seq<Point>, k: int)
    requires IsCut(m, points, k)
    ensures m.begin <= k <= m.end
  {
  }

  /** After a split at all end points, pieces end at those end points that lie on a line of the axis. */
  lemma EndPointsOfFirstSplit(lines: seq<OrderedLine>, runs: seq<OrderedLine>, points: seq<Point>, r: seq<OrderedLine>,
                              axis: Axis, p: Point)
    requires AreRuns(lines, runs) && AreSplit(runs, points, r)
    requires forall x :: x in points <==> IsAnyEndPoint(lines, x)
    ensures IsEndPointOf(r, axis, p) <==> IsAnyEndPoint(lines, p) && IsOnLine(lines, axis, p)
  {
    if IsEndPointOf(r, axis, p) {
      EndPointOfPiece(lines, runs, points, r, axis, p);
    }
    if IsAnyEndPoint(lines, p) && IsOnLine(lines, axis, p) {
      var row, k := Across(axis, p), Along(axis, p);
      assert p == At(axis, row, k);
      OnLineIsCovered(lines, axis, row, k);
      var edge := if Covered(lines, axis, row, k) then k else k - 1;
      var m := RunWithEdge(lines, runs, axis, row, edge);
      assert IsCut(m, points, k);
      CutEndsPiece(runs, points, r, m, k);
    }
  }

  lemma EndPointOfPiece(lines: seq<OrderedLine>, runs: seq<OrderedLine>, points: seq<Point>, r: seq<OrderedLine>,
                        axis: Axis, p: Point)
    requires AreRuns(lines, runs) && AreSplit(runs, points, r) && IsEndPointOf(r, axis, p)
    requires forall x :: x in points <==> IsAnyEndPoint(lines, x)
    ensures IsAnyEndPoint(lines, p) && IsOnLine(lines, axis, p)
  {
    hide NoOverlap, NoDuplicates, Covered, IsOnLine, IsAnyEndPoint;
    var q :| q in r && q.axis == axis && IsEndPoint(p, q);
    var m :| m in runs && IsPiece(m, points, q);
    PieceWithin(m, points, q);
    var k := Along(axis, p);
    assert p == At(axis, m.row, k) && IsCut(m, points, k);
    OnLineIsCovered(lines, axis, m.row, k);
    RunIsCovered(lines, runs, m);
    if k == m.begin || k == m.end {
      RunEndsAreEndPoints(lines, axis, m.row, k);
      EndPointOfEither(lines, axis, p);
    }
  }

  lemma EndPointOfEither(lines: seq<OrderedLine>, axis: Axis, p: Point)
    requires IsEndPointOf(lines, axis, p)
    ensures IsAnyEndPoint(lines, p)
  {
  }

  lemma RunIsCovered(lines: seq<OrderedLine>, runs: seq<OrderedLine>, m: OrderedLine)
    requires AreRuns(lines, runs) && m in runs
    ensures forall k :: m.begin <= k < m.end ==> Covered(lines, m.axis, m.row, k)
    ensures !Covered(lines, m.axis, m.row, m.begin - 1) && !Covered(lines, m.axis, m.row, m.end)
  {
    forall k | m.begin <= k < m.end ensures Covered(lines, m.axis, m.row, k) {
      assert Covers(m, m.axis, m.row, k);
      assert Covered(runs, m.axis, m.row, k);
    }
  }

  /** The second list of split points are the junctions. */
  lemma SplitPointsAreJunctions(lines: seq<OrderedLine>, split: seq<OrderedLine>, p: Point)
    requires AreSplit(MergeSplitSegments(lines), ToPointsSortedUnique(lines), split)
    ensures p in ToPointsWithBothOrientations(split) <==> IsJunction(lines, p)
  {
    hide AreSplit, MergeSplitSegments, ToPointsSortedUnique, ToPointsWithBothOrientations, AreRuns, IsAnyEndPoint, IsOnLine,
      IsEndPointOf;
    MergedAreRuns(lines);
    forall x ensures x in ToPointsSortedUnique(lines) <==> IsAnyEndPoint(lines, x) {
      PointsAreEndPoints(lines, x);
    }
    BothOrientations(split, p);
    EndPointsOfFirstSplit(lines, MergeSplitSegments(lines), ToPointsSortedUnique(lines), split, Horizontal, p);
    EndPointsOfFirstSplit(lines, MergeSplitSegments(lines), ToPointsSortedUnique(lines), split, Vertical, p);
  }

  /** Inside of a run the breaks are exactly the cuts at junctions. */
  lemma BreaksAreCuts(lines: seq<OrderedLine>, runs: seq<OrderedLine>, points: seq<Point>, m: OrderedLine)
    requires AreRuns(lines, runs) && m in runs && forall p :: p in points <==> IsJunction(lines, p)
    ensures forall k :: m.begin <= k <= m.end ==> (IsBreak(lines, m.axis, m.row, k) <==> IsCut(m, points, k))
  {
    hide IsJunction, Covered;
    RunIsCovered(lines, runs, m);
  }

  lemma PieceOfRunIsNormal(lines: seq<OrderedLine>, runs: seq<OrderedLine>, points: seq<Point>, m: OrderedLine, q: OrderedLine)
    requires AreRuns(lines, runs) && m in runs && forall p :: p in points <==> IsJunction(lines, p)
    requires m.begin <= q.begin && q.end <= m.end && m.axis == q.axis && m.row == q.row
    ensures IsPiece(m, points, q) <==> IsNormalPiece(lines, q)
  {
    hide IsJunction, Covered, IsCut, IsBreak;
    RunIsCovered(lines, runs, m);
    BreaksAreCuts(lines, runs, points, m);
  }

  lemma NormalPieceIsInRun(lines: seq<OrderedLine>, runs: seq<OrderedLine>, q: OrderedLine) returns (m: OrderedLine)
    requires AreRuns(lines, runs) && IsNormalPiece(lines, q)
    ensures m in runs && m.begin <= q.begin && q.end <= m.end && m.axis == q.axis && m.row == q.row
  {
    hide IsJunction, Covered;
    assert Covered(lines, q.axis, q.row, q.begin);
    m := RunWithEdge(lines, runs, q.axis, q.row, q.begin);
    RunIsCovered(lines, runs, m);
    assert IsBreak(lines, q.axis, q.row, m.end);
  }

  /** Splitting the merged lines at the junctions gives the normal form. */
  lemma SplitRunsAreNormalization(lines: seq<OrderedLine>, runs: seq<OrderedLine>, points: seq<Point>, r: seq<OrderedLine>)
    requires AreRuns(lines, runs) && AreSplit(runs, points, r) && forall p :: p in points <==> IsJunction(lines, p)
    ensures IsNormalization(lines, r)
  {
    hide IsJunction, Covered, IsPiece, IsNormalPiece, NoDuplicates, NoOverlap;
    forall q ensures q in r <==> IsNormalPiece(lines, q) {
      if q in r {
        var m :| m in runs && IsPiece(m, points, q);
        PieceWithin(m, points, q);
        PieceOfRunIsNormal(lines, runs, points, m, q);
      }
      if IsNormalPiece(lines, q) {
        var m := NormalPieceIsInRun(lines, runs, q);
        PieceOfRunIsNormal(lines, runs, points, m, q);
      }
    }
  }

  //
  // The normal form of a normal form
  //

  lemma EndPointsOfNormalization(lines: seq<OrderedLine>, r: seq<OrderedLine>, p: Point)
    requires IsNormalization(lines, r)
    ensures IsJunction(lines, p) <==> IsJunction(r, p)
  {
    hide Covered, NoDuplicates, IsNormalPiece, IsAnyEndPoint, IsOnLine, IsBreak;
    SameCoverSameOnLine(r, lines, Horizontal, p);
    SameCoverSameOnLine(r, lines, Vertical, p);
    if IsAnyEndPoint(r, p) {
      EndOfNormalPiece(lines, r, p);
    }
    if IsJunction(lines, p) {
      JunctionEndsPiece(lines, r, p);
    }
  }

  lemma EndOfNormalPiece(lines: seq<OrderedLine>, r: seq<OrderedLine>, p: Point)
    requires IsNormalization(lines, r) && IsAnyEndPoint(r, p)
    ensures IsAnyEndPoint(lines, p)
  {
    hide Covered, NoDuplicates, IsOnLine, IsEndPointOf;
    var axis, q := AnyEndOf(r, p);
    var k := Along(axis, p);
    assert p == At(axis, q.row, k) && IsBreak(lines, axis, q.row, k);
    if !IsJunction(lines, p) {
      assert Covered(lines, axis, q.row, if k == q.begin then k else k - 1);
      RunEndsAreEndPoints(lines, axis, q.row, k);
    }
  }

  lemma AnyEndOf(lines: seq<OrderedLine>, p: Point) returns (axis: Axis, q: OrderedLine)
    requires IsAnyEndPoint(lines, p)
    ensures q in lines && q.axis == axis && IsEndPoint(p, q)
  {
    axis := if IsEndPointOf(lines, Horizontal, p) then Horizontal else Vertical;
    q :| q in lines && q.axis == axis && IsEndPoint(p, q);
  }

  lemma LineWithEdge(lines: seq<OrderedLine>, axis: Axis, row: int, k: int) returns (q: OrderedLine)
    requires Covered(lines, axis, row, k)
    ensures q in lines && q.axis == axis && q.row == row && q.begin <= k < q.end
  {
    q :| q in lines && Covers(q, axis, row, k);
  }

  lemma JunctionIsBreak(lines: seq<OrderedLine>, axis: Axis, row: int, k: int)
    requires IsJunction(lines, At(axis, row, k))
    ensures IsBreak(lines, axis, row, k)
  {
  }

  lemma JunctionEndsPiece(lines: seq<OrderedLine>, r: seq<OrderedLine>, p: Point)
    requires IsNormalization(lines, r) && IsJunction(lines, p)
    ensures IsAnyEndPoint(r, p)
  {
    hide NoDuplicates, IsAnyEndPoint, IsOnLine, Covered, IsBreak;
    var k, row := Along(Horizontal, p), Across(Horizontal, p);
    assert p == At(Horizontal, row, k);
    OnLineIsCovered(lines, Horizontal, row, k);
    var edge := if Covered(lines, Horizontal, row, k) then k else k - 1;
    CoverOf(r, lines, Horizontal, row, edge);
    var q := LineWithEdge(r, Horizontal, row, edge);
    JunctionIsBreak(lines, Horizontal, row, k);
    assert IsNormalPiece(lines, q);
    assert IsEndPoint(p, q);
    assert IsEndPointOf(r, Horizontal, p);
    EndPointOfEither(r, Horizontal, p);
  }

  /** Segments that cover the same edges and have the same junctions have the same normal form. */
  lemma SameNormalForm(a: seq<OrderedLine>, b: seq<OrderedLine>, r: seq<OrderedLine>)
    requires SameCover(a, b) && forall p :: IsJunction(a, p) == IsJunction(b, p)
    ensures IsNormalization(a, r) <==> IsNormalization(b, r)
  {
    hide IsJunction, Covered, NoDuplicates;
    forall axis, row, k ensures IsBreak(a, axis, row, k) == IsBreak(b, axis, row, k) {
    }
    forall q ensures IsNormalPiece(a, q) == IsNormalPiece(b, q) {
    }
  }

  /** A normal form is its own normal form. */
  lemma NormalizationIsIdempotent(lines: seq<OrderedLine>, r: seq<OrderedLine>)
    requires IsNormalization(lines, r)
    ensures IsNormalization(r, r)
  {
    hide *;
    forall p ensures IsJunction(lines, p) == IsJunction(r, p) {
      EndPointsOfNormalization(lines, r, p);
    }
    CoverOfNormalization(lines, r);
    SameNormalForm(lines, r, r);
  }

  lemma CoverOfNormalization(lines: seq<OrderedLine>, r: seq<OrderedLine>)
    requires IsNormalization(lines, r)
    ensures SameCover(lines, r)
  {
    hide IsNormalPiece, NoDuplicates, Covered;
  }

  //
  // Normalized segments are those that equal their normal form
  //

  lemma NormalPiecesShareNoEdge(lines: seq<OrderedLine>, a: OrderedLine, b: OrderedLine, k: int)
    requires IsNormalPiece(lines, a) && IsNormalPiece(lines, b)
    requires Covers(a, b.axis, b.row, k) && Covers(b, b.axis, b.row, k)
    ensures a == b
  {
    hide IsBreak, Covered;
    var axis, row := a.axis, a.row;
    assert IsBreak(lines, axis, row, a.begin) && IsBreak(lines, axis, row, a.end);
    assert IsBreak(lines, axis, row, b.begin) && IsBreak(lines, axis, row, b.end);
  }

  lemma NormalFormIsNormalized(lines: seq<OrderedLine>)
    requires IsNormalization(lines, lines)
    ensures IsNormalized(lines)
  {
    hide Covered, IsAnyEndPoint, IsOnLine, IsBreak;
    forall i, j | 0 <= i < j < |lines| ensures !ShareEdge(lines[i], lines[j]) {
      if ShareEdge(lines[i], lines[j]) {
        var k :| Covers(lines[i], lines[j].axis, lines[j].row, k) && Covers(lines[j], lines[j].axis, lines[j].row, k);
        assert lines[i] in lines && lines[j] in lines;
        NormalPiecesShareNoEdge(lines, lines[i], lines[j], k);
        assert false;
      }
    }
    forall a, b | a in lines && b in lines ensures !CouldBeMerged(lines, a, b) {
      NormalPiecesDoNotMerge(lines, a, b);
    }
    forall l | l in lines ensures !NeedsSplitting(lines, l) {
      NormalPieceNeedsNoSplit(lines, l);
    }
  }

  lemma NormalPiecesDoNotMerge(lines: seq<OrderedLine>, a: OrderedLine, b: OrderedLine)
    requires IsNormalization(lines, lines) && a in lines && b in lines
    ensures !CouldBeMerged(lines, a, b)
  {
    hide Covered, IsAnyEndPoint, IsOnLine, NoDuplicates;
    if a.axis == b.axis && P1(a) == P0(b) {
      var k := a.end;
      assert a.row == b.row && b.begin == k && P1(a) == At(a.axis, a.row, k);
      assert IsNormalPiece(lines, a) && IsNormalPiece(lines, b);
      assert Covered(lines, a.axis, a.row, k - 1) && Covered(lines, a.axis, a.row, k);
      assert IsBreak(lines, a.axis, a.row, k);
    }
  }

  lemma NormalPieceNeedsNoSplit(lines: seq<OrderedLine>, l: OrderedLine)
    requires IsNormalization(lines, lines) && l in lines
    ensures !NeedsSplitting(lines, l)
  {
    hide Covered, IsAnyEndPoint, NoDuplicates, IsJunction, IsBreak;
    forall p | IsAnyEndPoint(lines, p) ensures !IsInside(p, l) {
      var axis, q := AnyEndOf(lines, p);
      var k := Along(axis, p);
      assert IsNormalPiece(lines, q) && IsNormalPiece(lines, l);
      if axis == l.axis {
        assert IsBreak(lines, axis, q.row, k);
        assert q.row == Across(axis, p);
      } else if IsInside(p, l) {
        InsideOfOther(lines, l, q, p);
      }
    }
  }

  lemma InsideOfOther(lines: seq<OrderedLine>, l: OrderedLine, q: OrderedLine, p: Point)
    requires l in lines && q in lines && l.axis != q.axis && IsEndPoint(p, q) && IsInside(p, l)
    ensures IsJunction(lines, p) && IsBreak(lines, l.axis, l.row, Along(l.axis, p))
  {
    assert IsEndPointOf(lines, q.axis, p);
    assert IsColliding(p, l) && IsColliding(p, q);
    assert p == At(l.axis, l.row, Along(l.axis, p));
  }

  lemma OnlyOneWithEdge(lines: seq<OrderedLine>, a: OrderedLine, b: OrderedLine, k: int)
    requires NoOverlap(lines) && a in lines && b in lines
    requires Covers(a, b.axis, b.row, k) && Covers(b, b.axis, b.row, k)
    ensures a == b
  {
    assert ShareEdge(a, b);
    OneRunPerEdge(lines, a, b);
  }

  /** Normalized segments begin and end at breaks only. */
  lemma NormalizedEndsAtBreaks(lines: seq<OrderedLine>, l: OrderedLine, k: int)
    requires IsNormalized(lines) && l in lines && (k == l.begin || k == l.end)
    ensures IsBreak(lines, l.axis, l.row, k)
  {
    hide IsAnyEndPoint, IsOnLine, NeedsSplitting, NoOverlap;
    if Covered(lines, l.axis, l.row, k - 1) && Covered(lines, l.axis, l.row, k) {
      var a :| a in lines && Covers(a, l.axis, l.row, k - 1);
      var b :| b in lines && Covers(b, l.axis, l.row, k);
      OtherSideIsOther(lines, l, a, b, k);
      assert !CouldBeMerged(lines, a, b);
      assert P1(a) == P0(b) == At(l.axis, l.row, k);
      assert IsEndPointOf(lines, l.axis, At(l.axis, l.row, k));
      EndPointOfEither(lines, l.axis, At(l.axis, l.row, k));
    }
  }

  lemma OtherSideIsOther(lines: seq<OrderedLine>, l: OrderedLine, a: OrderedLine, b: OrderedLine, k: int)
    requires NoOverlap(lines) && l in lines && a in lines && b in lines && (k == l.begin || k == l.end)
    requires Covers(a, l.axis, l.row, k - 1) && Covers(b, l.axis, l.row, k)
    ensures a.end == k && b.begin == k
  {
    hide NoOverlap;
    if k == l.begin {
      OnlyOneWithEdge(lines, b, l, k);
      if a.end > k {
        OnlyOneWithEdge(lines, a, l, k);
        assert false;
      }
    } else {
      OnlyOneWithEdge(lines, a, l, k - 1);
      if b.begin < k {
        OnlyOneWithEdge(lines, b, l, k - 1);
        assert false;
      }
    }
  }

  lemma NormalizedIsNormalPiece(lines: seq<OrderedLine>, l: OrderedLine)
    requires IsNormalized(lines) && l in lines
    ensures IsNormalPiece(lines, l)
  {
    hide IsAnyEndPoint, IsOnLine, NoOverlap, CouldBeMerged;
    NormalizedEndsAtBreaks(lines, l, l.begin);
    NormalizedEndsAtBreaks(lines, l, l.end);
    forall k | l.begin <= k < l.end ensures Covered(lines, l.axis, l.row, k) {
      assert Covers(l, l.axis, l.row, k);
    }
    forall k | l.begin < k < l.end ensures !IsBreak(lines, l.axis, l.row, k) {
      assert IsInside(At(l.axis, l.row, k), l);
    }
  }

  lemma NormalizedIsNormalForm(lines: seq<OrderedLine>)
    requires IsNormalized(lines)
    ensures IsNormalization(lines, lines)
  {
    hide IsAnyEndPoint, IsOnLine, IsBreak, CouldBeMerged, NeedsSplitting;
    forall q | IsNormalPiece(lines, q) ensures q in lines {
      assert Covered(lines, q.axis, q.row, q.begin);
      var l :| l in lines && Covers(l, q.axis, q.row, q.begin);
      NormalizedIsNormalPiece(lines, l);
      NormalPiecesShareNoEdge(lines, l, q, q.begin);
    }
    forall q | q in lines ensures IsNormalPiece(lines, q) {
      NormalizedIsNormalPiece(lines, q);
    }
    NoOverlapNoDuplicates(lines);
  }

  lemma NoOverlapNoDuplicates(lines: seq<OrderedLine>)
    requires NoOverlap(lines)
    ensures NoDuplicates(lines)
  {
    forall i, j | 0 <= i < j < |lines| ensures lines[i] != lines[j] {
      var l := lines[j];
      assert Covers(l, l.axis, l.row, l.begin);
      assert !ShareEdge(lines[i], lines[j]);
    }
  }

  /** Segments are normalized exactly when they are their own normal form. */
  lemma NormalizedIff(lines: seq<OrderedLine>)
    ensures IsNormalized(lines) <==> IsNormalization(lines, lines)
  {
    if IsNormalized(lines) {
      NormalizedIsNormalForm(lines);
    }
    if IsNormalization(lines, lines) {
      NormalFormIsNormalized(lines);
    }
  }

  //
  // When merging alone is enough
  //

  /** A stretch of covered edges of the axis begins or ends at the point. */
  ghost predicate RunEnds(lines: seq<OrderedLine>, axis: Axis, p: Point) {
    Covered(lines, axis, Across(axis, p), Along(axis, p) - 1) != Covered(lines, axis, Across(axis, p), Along(axis, p))
  }

  /** The edges of the axis on both sides of the point are covered. */
  ghost predicate RunPasses(lines: seq<OrderedLine>, axis: Axis, p: Point) {
    Covered(lines, axis, Across(axis, p), Along(axis, p) - 1) && Covered(lines, axis, Across(axis, p), Along(axis, p))
  }

  function Other(axis: Axis): Axis {
    if axis == Horizontal then Vertical else Horizontal
  }

  lemma RunsEndAtRunEnds(lines: seq<OrderedLine>, runs: seq<OrderedLine>, axis: Axis, p: Point)
    requires AreRuns(lines, runs)
    ensures IsEndPointOf(runs, axis, p) <==> RunEnds(lines, axis, p)
  {
    hide Covered, NoOverlap;
    var row, k := Across(axis, p), Along(axis, p);
    assert p == At(axis, row, k);
    if m :| m in runs && m.axis == axis && IsEndPoint(p, m) {
      RunIsCovered(lines, runs, m);
    }
    CoverOf(runs, lines, axis, row, k - 1);
    CoverOf(runs, lines, axis, row, k);
    if RunEnds(lines, axis, p) {
      RunEndsAreEndPoints(runs, axis, row, k);
    }
  }

  lemma RunsPassInside(lines: seq<OrderedLine>, runs: seq<OrderedLine>, axis: Axis, p: Point)
    requires AreRuns(lines, runs)
    ensures (exists m :: m in runs && m.axis == axis && IsInside(p, m)) <==> RunPasses(lines, axis, p)
  {
    hide Covered, NoOverlap;
    var row, k := Across(axis, p), Along(axis, p);
    if m :| m in runs && m.axis == axis && IsInside(p, m) {
      RunIsCovered(lines, runs, m);
    }
    if RunPasses(lines, axis, p) {
      var m := RunWithEdge(lines, runs, axis, row, k);
      RunIsCovered(lines, runs, m);
      assert IsInside(p, m);
    }
  }

  lemma RunsNeverTouch(lines: seq<OrderedLine>, runs: seq<OrderedLine>)
    requires AreRuns(lines, runs)
    ensures IsNormalized(runs) <==> forall l :: l in runs ==> !NeedsSplitting(runs, l)
  {
    hide Covered, IsOnLine, NeedsSplitting;
    forall a, b | a in runs && b in runs ensures !CouldBeMerged(runs, a, b) {
      RunIsCovered(lines, runs, a);
      RunIsCovered(lines, runs, b);
      assert Covered(lines, b.axis, b.row, b.begin) && !Covered(lines, a.axis, a.row, a.end);
    }
  }

  /** No covered stretch ends where one of the other axis passes. */
  ghost predicate NoRunEndsOnAnother(lines: seq<OrderedLine>) {
    forall axis, p :: RunEnds(lines, axis, p) ==> !RunPasses(lines, Other(axis), p)
  }

  lemma NoSplitsIff(lines: seq<OrderedLine>, runs: seq<OrderedLine>)
    requires AreRuns(lines, runs)
    ensures (forall l :: l in runs ==> !NeedsSplitting(runs, l)) <==> NoRunEndsOnAnother(lines)
  {
    hide Covered, NoOverlap, AreRuns, IsInside, IsEndPointOf;
    if NoRunEndsOnAnother(lines) {
      forall l, p | l in runs && IsAnyEndPoint(runs, p) ensures !IsInside(p, l) {
        var axis := if IsEndPointOf(runs, Horizontal, p) then Horizontal else Vertical;
        RunsEndAtRunEnds(lines, runs, axis, p);
        RunsPassInside(lines, runs, l.axis, p);
        assert RunEnds(lines, axis, p) && (l.axis == axis || l.axis == Other(axis));
      }
    }
    if forall l :: l in runs ==> !NeedsSplitting(runs, l) {
      forall axis, p | RunEnds(lines, axis, p) ensures !RunPasses(lines, Other(axis), p) {
        RunsEndAtRunEnds(lines, runs, axis, p);
        RunsPassInside(lines, runs, Other(axis), p);
        assert IsAnyEndPoint(runs, p);
      }
    }
  }

  /**
   Merging alone never splits. It gives normalized segments exactly if, in the given segments, no covered stretch
   of one axis ends in the middle of one of the other axis.
   */
  lemma MergedIsNormalizedIff(lines: seq<OrderedLine>)
    ensures IsNormalized(MergeSplitSegments(lines)) <==> NoRunEndsOnAnother(lines)
  {
    hide *;
    MergedAreRuns(lines);
    RunsNeverTouch(lines, MergeSplitSegments(lines));
    NoSplitsIff(lines, MergeSplitSegments(lines));
  }

  /** A line that ends in the middle of another one is left as it is. */
  lemma MergedNeedsSplitting()
    ensures var lines := [Line(Horizontal, 0, 0, 2), Line(Vertical, 1, 0, 1)];
      MergeSplitSegments(lines) == lines && !IsNormalized(lines)
  {
    hide MergeLines1D;
    var h: OrderedLine, v: OrderedLine := Line(Horizontal, 0, 0, 2), Line(Vertical, 1, 0, 1);
    var lines := [h, v];
    MergedOneLine(lines, h);
    MergedOneLine(lines, v);
    assert IsEndPointOf(lines, Vertical, Point(1, 0)) && IsInside(Point(1, 0), h);
    assert h in lines && NeedsSplitting(lines, h);
  }

  lemma MergedOneLine(lines: seq<OrderedLine>, l: OrderedLine)
    requires l in lines && forall m :: m in lines && m.axis == l.axis ==> m == l
    ensures MergeLines1D(lines, l.axis) == [l]
  {
    hide MergeLines1D;
    MergeLines1DIsCanonical(lines, l.axis);
    forall row, k ensures Covered(lines, l.axis, row, k) <==> Covered([l], l.axis, row, k) {
      assert l in [l];
    }
    OtherAxis([l], MergeLines1D(lines, l.axis), l.axis);
    CanonicalIsUnique([l], MergeLines1D(lines, l.axis), l.axis);
  }

  //
  // Comparing as multisets
  //

  lemma {:induction false} CountsOfNoDuplicates(lines: seq<OrderedLine>)
    requires NoDuplicates(lines)
    ensures forall l :: multiset(lines)[l] == if l in lines then 1 else 0
  {
    if lines != [] {
      var front, last := lines[..|lines| - 1], lines[|lines| - 1];
      assert lines == front + [last];
      CountsOfNoDuplicates(front);
    }
  }

  lemma {:induction false} NoDuplicatesOfCounts(lines: seq<OrderedLine>)
    requires forall l :: multiset(lines)[l] <= 1
    ensures NoDuplicates(lines)
  {
    if lines != [] {
      var front, last := lines[..|lines| - 1], lines[|lines| - 1];
      assert lines == front + [last];
      assert forall l :: multiset(lines)[l] == multiset(front)[l] + multiset{last}[l];
      assert last !in multiset(front);
      NoDuplicatesOfCounts(front);
    }
  }

  /** Two normal forms of the same segments differ in their order only. */
  lemma NormalizationIsUnique(lines: seq<OrderedLine>, a: seq<OrderedLine>, b: seq<OrderedLine>)
    requires IsNormalization(lines, a)
    ensures IsNormalization(lines, b) <==> multiset(a) == multiset(b)
  {
    hide IsNormalPiece, NoDuplicates, Covers;
    CountsOfNoDuplicates(a);
    assert forall l :: l in a <==> l in multiset(a);
    assert forall l :: l in b <==> l in multiset(b);
    if IsNormalization(lines, b) {
      CountsOfNoDuplicates(b);
    }
    if multiset(a) == multiset(b) {
      NoDuplicatesOfCounts(b);
    }
  }

  //
  // Operations
  //

  method NormalizeSegments(segments: seq<OrderedLine>) returns (result: seq<OrderedLine>)
    ensures IsNormalization(segments, result)
    ensures IsNormalized(result)
  {
    hide *;
    var merged := MergeSplitSegments(segments);
    MergedAreRuns(segments);
    var points1 := ToPointsSortedUnique(segments);
    var split := SplitLines(merged, points1);
    var points2 := ToPointsWithBothOrientations(split);
    forall p ensures p in points2 <==> IsJunction(segments, p) {
      SplitPointsAreJunctions(segments, split, p);
    }
    result := SplitLines(merged, points2);
    SplitRunsAreNormalization(segments, merged, points2, result);
    NormalizationIsIdempotent(segments, result);
    NormalizedIff(result);
  }

  predicate CompareSorted(a: seq<OrderedLine>, b: seq<OrderedLine>) {
    multiset(a) == multiset(b)
  }

  /** The check accepts exactly what is documented of normalized segments. */
  method SegmentsAreNormalized(segments: seq<OrderedLine>) returns (ok: bool)
    ensures ok <==> IsNormalized(segments)
  {
    hide IsNormalization, IsNormalized;
    if segments == [] {
      EmptyIsNormalized();
      return true;
    }
    NormalizedIff(segments);
    var normalized := NormalizeSegments(segments);
    NormalizationIsUnique(segments, normalized, segments);
    ok := |normalized| == |segments| && CompareSorted(normalized, segments);
    assert multiset(normalized) == multiset(segments) ==> |multiset(normalized)| == |multiset(segments)|;
  }

  lemma EmptyIsNormalized()
    ensures IsNormalized([])
  {
  }
}
