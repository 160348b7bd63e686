/** Splits lines at points. */
module LineSplitting {
  import opened Wrappers
  import opened Geometry
  import opened LineMerging

  /** An end of the line, or a point inside of it. */
  predicate IsCut(l: OrderedLine, points: seq<Point>, k: int) {
    k == l.begin || k == l.end || (l.begin < k < l.end && At(l.axis, l.row, k) in points)
  }

  /** From one cut of the line to the next one. */
  ghost predicate IsPiece(l: OrderedLine, points: seq<Point>, q: OrderedLine) {
    && q.axis == l.axis && q.row == l.row
    && IsCut(l, points, q.begin) && IsCut(l, points, q.end)
    && (forall k :: q.begin < k < q.end ==> !IsCut(l, points, k))
  }

  /** Exactly the pieces, each once; they leave no edge of the line out. */
  ghost predicate IsSplit(l: OrderedLine, points: seq<Point>, r: seq<OrderedLine>) {
    && NoDuplicates(r)
    && (forall q :: q in r <==> IsPiece(l, points, q))
    && (forall k :: l.begin <= k < l.end ==> Covered(r, l.axis, l.row, k))
  }

  lemma UnsplitLine(l: OrderedLine)
    ensures IsSplit(l, [], [l])
  {
    forall q ensures q in [l] <==> IsPiece(l, [], q) {
      assert IsCut(l, [], q.begin) <==> q.begin == l.begin || q.begin == l.end;
      if IsPiece(l, [], q) {
        assert q.begin == l.begin && q.end == l.end;
      }
    }
    forall k | l.begin <= k < l.end ensures Covered([l], l.axis, l.row, k) {
      assert Covers(l, l.axis, l.row, k);
    }
  }

  lemma PieceWithin(l: OrderedLine, points: seq<Point>, q: OrderedLine)
    requires IsPiece(l, points, q)
    ensures l.begin <= q.begin && q.end <= l.end && q.axis == l.axis && q.row == l.row
  {
  }

  /** A point that is inside of no piece adds no cut. */
  lemma NothingToSplit(l: OrderedLine, points: seq<Point>, r: seq<OrderedLine>, p: Point)
    requires IsSplit(l, points, r) && forall q :: q in r ==> !IsInside(p, q)
    ensures IsSplit(l, points + [p], r)
  {
    var x := Along(l.axis, p);
    if IsInside(p, l) {
      assert Covered(r, l.axis, l.row, x);
      var q :| q in r && Covers(q, l.axis, l.row, x);
      assert q.begin == x && IsCut(l, points, x);
    }
    forall k ensures IsCut(l, points + [p], k) == IsCut(l, points, k) {
    }
    forall q ensures IsPiece(l, points + [p], q) == IsPiece(l, points, q) {
    }
  }

  /** One more cut inside of piece q replaces q by its two halves, and keeps all other pieces. */
  lemma CutPiece(l: OrderedLine, points: seq<Point>, q: OrderedLine, p: Point, m: OrderedLine)
    requires IsPiece(l, points, q) && IsInside(p, q)
    requires forall k :: IsCut(l, points + [p], k) <==> IsCut(l, points, k) || k == Along(q.axis, p)
    ensures var x := Along(q.axis, p);
      IsPiece(l, points + [p], m) <==>
        (IsPiece(l, points, m) && m != q) || m == Line(q.axis, q.row, q.begin, x) || m == Line(q.axis, q.row, x, q.end)
  {
    hide IsCut, Along, Across;
    var x := Along(q.axis, p);
    assert IsCut(l, points, q.begin) && IsCut(l, points, q.end) && IsCut(l, points + [p], x);
    assert IsCut(l, points + [p], m.begin) <==> IsCut(l, points, m.begin) || m.begin == x;
    assert IsCut(l, points + [p], m.end) <==> IsCut(l, points, m.end) || m.end == x;
  }

  lemma PiecesThroughCut(l: OrderedLine, points: seq<Point>, q: OrderedLine, p: Point)
    requires IsPiece(l, points, q) && IsInside(p, q)
    ensures var x := Along(q.axis, p);
      forall m :: IsPiece(l, points + [p], m) <==>
        (IsPiece(l, points, m) && m != q) || m == Line(q.axis, q.row, q.begin, x) || m == Line(q.axis, q.row, x, q.end)
  {
    var x := Along(q.axis, p);
    assert p == At(l.axis, l.row, x);
    forall k ensures IsCut(l, points + [p], k) <==> IsCut(l, points, k) || k == x {
    }
    forall m: OrderedLine
      ensures IsPiece(l, points + [p], m) <==>
        (IsPiece(l, points, m) && m != q) || m == Line(q.axis, q.row, q.begin, x) || m == Line(q.axis, q.row, x, q.end)
    {
      CutPiece(l, points, q, p, m);
    }
  }

  lemma SplitAtPoint(l: OrderedLine, points: seq<Point>, r: seq<OrderedLine>, i: nat, p: Point)
    requires IsSplit(l, points, r) && i < |r| && IsInside(p, r[i])
    ensures var x := Along(r[i].axis, p);
      IsSplit(l, points + [p],
              r[i := Line(r[i].axis, r[i].row, r[i].begin, x)] + [Line(r[i].axis, r[i].row, x, r[i].end)])
  {
    hide IsPiece, IsCut, Along, Across;
    var q, x := r[i], Along(r[i].axis, p);
    var left: OrderedLine, right: OrderedLine := Line(q.axis, q.row, q.begin, x), Line(q.axis, q.row, x, q.end);
    var s := r[i := left] + [right];
    assert q in r;
    PiecesThroughCut(l, points, q, p);
    SameCutSameHalves(l, points, q, left, right);
    assert left !in r && right !in r;
    ReplacedMembers(r, i, left, right);
    forall k | l.begin <= k < l.end ensures Covered(s, l.axis, l.row, k) {
      assert Covered(r, l.axis, l.row, k);
      var m :| m in r && Covers(m, l.axis, l.row, k);
      assert m in s || (m == q && left in s && right in s);
      assert m == q ==> Covers(left, l.axis, l.row, k) || Covers(right, l.axis, l.row, k);
    }
  }

  /** The halves of a piece were no pieces before. */
  lemma SameCutSameHalves(l: OrderedLine, points: seq<Point>, q: OrderedLine, left: OrderedLine, right: OrderedLine)
    requires IsPiece(l, points, q)
    requires left.begin == q.begin && left.end < q.end && q.begin < right.begin && right.end == q.end
    ensures !IsPiece(l, points, left) && !IsPiece(l, points, right)
  {
    hide IsCut;
    assert IsPiece(l, points, left) ==> IsCut(l, points, left.end);
    assert IsPiece(l, points, right) ==> IsCut(l, points, right.begin);
  }

  lemma ReplacedMembers(r: seq<OrderedLine>, i: nat, left: OrderedLine, right: OrderedLine)
    requires NoDuplicates(r) && i < |r| && left !in r && right !in r && left != right
    ensures var s := r[i := left] + [right];
      NoDuplicates(s) && forall m :: m in s <==> (m in r && m != r[i]) || m == left || m == right
  {
    var s := r[i := left] + [right];
    forall m ensures m in s <==> (m in r && m != r[i]) || m == left || m == right {
      if m in r && m != r[i] {
        var j :| 0 <= j < |r| && r[j] == m;
        assert s[j] == m;
      }
      assert s[i] == left && s[|r|] == right;
    }
  }

  method FindInside(lines: seq<OrderedLine>, p: Point) returns (i: nat)
    ensures i <= |lines| && (i < |lines| ==> IsInside(p, lines[i]))
    ensures forall j :: 0 <= j < i ==> !IsInside(p, lines[j])
  {
    i := 0;
    while i < |lines| && !IsInside(p, lines[i])
      invariant i <= |lines| && forall j :: 0 <= j < i ==> !IsInside(p, lines[j])
    {
      i := i + 1;
    }
  }

  method SplitSegment(segment: OrderedLine, points: seq<Point>) returns (result: seq<OrderedLine>)
    ensures IsSplit(segment, points, result)
  {
    hide IsSplit;
    result := [segment];
    UnsplitLine(segment);
    assert points[..0] == [];
    for n := 0 to |points|
      invariant IsSplit(segment, points[..n], result)
    {
      var point := points[n];
      assert points[..n + 1] == points[..n] + [point];
      var i := FindInside(result, point);
      if i < |result| {
        SplitAtPoint(segment, points[..n], result, i, point);
        var line := result[i];
        var x := Along(line.axis, point);
        result := result[i := Line(line.axis, line.row, line.begin, x)] + [Line(line.axis, line.row, x, line.end)];
      } else {
        assert forall q :: q in result ==> !IsInside(point, q);
        NothingToSplit(segment, points[..n], result, point);
      }
    }
    assert points[..|points|] == points;
  }

  //
  // Many lines
  //

  ghost predicate IsPieceOfAny(lines: seq<OrderedLine>, points: seq<Point>, q: OrderedLine) {
    exists l :: l in lines && IsPiece(l, points, q)
  }

  ghost predicate ShareEdge(a: OrderedLine, b: OrderedLine) {
    exists k :: Covers(a, b.axis, b.row, k) && Covers(b, b.axis, b.row, k)
  }

  ghost predicate NoOverlap(lines: seq<OrderedLine>) {
    forall i, j :: 0 <= i < j < |lines| ==> !ShareEdge(lines[i], lines[j])
  }

  /** Exactly the pieces of all lines, each once if the lines do not overlap, and covering the same edges. */
  ghost predicate AreSplit(lines: seq<OrderedLine>, points: seq<Point>, r: seq<OrderedLine>) {
    && (NoOverlap(lines) ==> NoDuplicates(r))
    && (forall q :: q in r <==> IsPieceOfAny(lines, points, q))
    && SameCover(r, lines)
  }

  lemma PieceCovers(l: OrderedLine, points: seq<Point>, q: OrderedLine, axis: Axis, row: int, k: int)
    requires IsPiece(l, points, q) && Covers(q, axis, row, k)
    ensures Covers(l, axis, row, k)
  {
    PieceWithin(l, points, q);
  }

  lemma SplitCovers(l: OrderedLine, points: seq<Point>, r: seq<OrderedLine>)
    requires IsSplit(l, points, r)
    ensures SameCover(r, [l])
  {
    hide IsPiece;
    forall axis, row, k ensures Covered(r, axis, row, k) <==> Covered([l], axis, row, k) {
      if q :| q in r && Covers(q, axis, row, k) {
        PieceCovers(l, points, q, axis, row, k);
        assert l in [l];
      }
      if Covered([l], axis, row, k) {
        assert Covers(l, axis, row, k);
      }
    }
  }

  lemma OneMoreSplit(lines: seq<OrderedLine>, l: OrderedLine, points: seq<Point>,
                     r: seq<OrderedLine>, s: seq<OrderedLine>)
    requires AreSplit(lines, points, r) && IsSplit(l, points, s)
    ensures AreSplit(lines + [l], points, r + s)
  {
    hide IsPiece;
    SplitCovers(l, points, s);
    assert SameCover(r + s, lines + [l]) by {
      forall axis, row, k ensures Covered(r + s, axis, row, k) <==> Covered(lines + [l], axis, row, k) {
        assert Covered(r + s, axis, row, k) <==> Covered(r, axis, row, k) || Covered(s, axis, row, k);
        assert Covered(lines + [l], axis, row, k) <==> Covered(lines, axis, row, k) || Covered([l], axis, row, k);
      }
    }
    forall q ensures IsPieceOfAny(lines + [l], points, q) <==> IsPieceOfAny(lines, points, q) || IsPiece(l, points, q) {
      assert l in lines + [l];
    }
    if NoOverlap(lines + [l]) {
      AddedPiecesAreNew(lines, l, points, r, s);
    }
  }

  lemma AddedPiecesAreNew(lines: seq<OrderedLine>, l: OrderedLine, points: seq<Point>,
                          r: seq<OrderedLine>, s: seq<OrderedLine>)
    requires AreSplit(lines, points, r) && IsSplit(l, points, s) && NoOverlap(lines + [l])
    ensures NoDuplicates(r + s)
  {
    hide IsPiece, SameCover, Covers;
    var n := lines + [l];
    forall i, j | 0 <= i < j < |lines| ensures !ShareEdge(lines[i], lines[j]) {
      assert n[i] == lines[i] && n[j] == lines[j];
    }
    forall q | q in r ensures q !in s {
      var m :| m in lines && IsPiece(m, points, q);
      var i :| 0 <= i < |lines| && lines[i] == m;
      assert n[i] == m && n[|lines|] == l && !ShareEdge(n[i], n[|lines|]);
      if q in s {
        PiecesShareEdge(m, l, points, q);
        assert false;
      }
    }
    assert NoOverlap(lines);
    ConcatNoDuplicates(r, s);
  }

  lemma ConcatNoDuplicates(r: seq<OrderedLine>, s: seq<OrderedLine>)
    requires NoDuplicates(r) && NoDuplicates(s) && forall q :: q in r ==> q !in s
    ensures NoDuplicates(r + s)
  {
    var t := r + s;
    forall i, j | 0 <= i < j < |t| ensures t[i] != t[j] {
      if i < |r| <= j {
        assert r[i] in r && s[j - |r|] in s;
      }
    }
  }

  lemma PiecesShareEdge(m: OrderedLine, l: OrderedLine, points: seq<Point>, q: OrderedLine)
    requires IsPiece(m, points, q) && IsPiece(l, points, q)
    ensures ShareEdge(m, l)
  {
    PieceWithin(m, points, q);
    PieceWithin(l, points, q);
    assert Covers(m, l.axis, l.row, q.begin);
  }

  method SplitLines(segments: seq<OrderedLine>, points: seq<Point>) returns (result: seq<OrderedLine>)
    ensures AreSplit(segments, points, result)
  {
    hide AreSplit, IsSplit;
    result := [];
    NothingSplit(points);
    assert segments[..0] == [];
    for n := 0 to |segments|
      invariant AreSplit(segments[..n], points, result)
    {
      var pieces := SplitSegment(segments[n], points);
      OneMoreSplit(segments[..n], segments[n], points, result, pieces);
      assert segments[..n + 1] == segments[..n] + [segments[n]];
      result := result + pieces;
    }
    assert segments[..|segments|] == segments;
  }

  lemma NothingSplit(points: seq<Point>)
    ensures AreSplit([], points, [])
  {
  }
}
