/** Segments, and how they are shortened and joined. */
module SegmentInfos {
  import opened Wrappers
  import opened ShiftedSets
  import opened PartSelections
  import opened Geometry
  import opened LayoutMessages

  /** The sub-line of a part that lies within the line. */
  function ToLine(l: OrderedLine, part: Part): OrderedLine
    requires part.end <= Length(l)
  {
    Line(l.axis, l.row, l.begin + part.begin, l.begin + part.end)
  }

  predicate IsSubLine(full: OrderedLine, l: OrderedLine) {
    full.axis == l.axis && full.row == l.row && full.begin <= l.begin && l.end <= full.end
  }

  function SubPart(full: OrderedLine, l: OrderedLine): Part
    requires IsSubLine(full, l)
  {
    Part(l.begin - full.begin, l.end - full.begin)
  }

  /** The segment of a part; end points that are not included become shadow points. */
  function Adjust(info: SegmentInfo, part: Part): SegmentInfo
    requires part.end <= Length(info.line)
  {
    var l := ToLine(info.line, part);
    SegmentInfo(l,
                if P0(l) != P0(info.line) then ShadowPoint else info.p0Type,
                if P1(l) != P1(info.line) then ShadowPoint else info.p1Type)
  }

  /**
   The stored segment `now` is the part of `was`: an end that is kept keeps its type, and an end where the old line
   went on is a shadow point.
   */
  ghost predicate IsCutTo(was: SegmentInfo, part: Part, now: SegmentInfo) {
    && now.line.axis == was.line.axis && now.line.row == was.line.row
    && now.line.begin == was.line.begin + part.begin && now.line.end == was.line.begin + part.end
    && now.p0Type == (if part.begin == 0 then was.p0Type else ShadowPoint)
    && now.p1Type == (if now.line.end == was.line.end then was.p1Type else ShadowPoint)
  }

  /** The stored segment `now` spans x and y, and has their types at its two ends. */
  ghost predicate IsJoinOf(x: SegmentInfo, y: SegmentInfo, now: SegmentInfo) {
    && now.line.axis == x.line.axis == y.line.axis && now.line.row == x.line.row == y.line.row
    && (|| (x.line.end == y.line.begin && now.line.begin == x.line.begin && now.line.end == y.line.end
            && now.p0Type == x.p0Type && now.p1Type == y.p1Type)
        || (y.line.end == x.line.begin && now.line.begin == y.line.begin && now.line.end == x.line.end
            && now.p0Type == y.p0Type && now.p1Type == x.p1Type))
  }

  /** The order of lines: by the first point, then by the second one. */
  predicate IsLineAfter(a: OrderedLine, b: OrderedLine) {
    IsLess(P0(b), P0(a)) || (P0(a) == P0(b) && IsLess(P1(b), P1(a)))
  }

  function OrderPoints(a: SegmentInfo, b: SegmentInfo): (SegmentInfo, SegmentInfo) {
    if IsLineAfter(a.line, b.line) then (b, a) else (a, b)
  }

  /** The merged end points are accepted for a line exactly when the lines are parallel. */
  lemma TouchingLinesMakeALineIff(a: OrderedLine, b: OrderedLine)
    requires P1(a) == P0(b)
    ensures IsOrthogonalLine(P0(a), P1(b)) && IsLess(P0(a), P1(b)) <==> a.axis == b.axis
  {
  }

  /** The segment of both lines, or None if they do not share a point or are not parallel. */
  function MergeTouching(x: SegmentInfo, y: SegmentInfo): Option<SegmentInfo> {
    var (a, b) := OrderPoints(x, y);
    var p0, p1 := P0(a.line), P1(b.line);
    if P1(a.line) != P0(b.line) || !(IsOrthogonalLine(p0, p1) && IsLess(p0, p1)) then None
    else
      TouchingLinesMakeALineIff(a.line, b.line);
      Some(SegmentInfo(Line(a.line.axis, a.line.row, a.line.begin, b.line.end), a.p0Type, b.p1Type))
  }

  lemma AdjustedIsCut(info: SegmentInfo, part: Part)
    requires part.end <= Length(info.line)
    ensures IsCutTo(info, part, Adjust(info, part))
  {
  }

  lemma MergedIsJoin(x: SegmentInfo, y: SegmentInfo)
    requires MergeTouching(x, y).Some?
    ensures IsJoinOf(x, y, MergeTouching(x, y).value)
  {
  }

  /** Merging is defined exactly for parallel lines where one ends at the begin of the other, in any order. */
  lemma MergeTouchingIff(x: SegmentInfo, y: SegmentInfo)
    ensures MergeTouching(x, y).Some? <==>
      x.line.axis == y.line.axis && x.line.row == y.line.row && (x.line.end == y.line.begin || y.line.end == x.line.begin)
    ensures MergeTouching(x, y) == MergeTouching(y, x)
  {
  }

  /** Cutting a segment in two and merging the halves gives the segment back, with its end points. */
  lemma CutAndMerged(info: SegmentInfo, k: nat)
    requires 0 < k < Length(info.line)
    ensures MergeTouching(Adjust(info, Part(0, k)), Adjust(info, Part(k, Length(info.line)))) == Some(info)
  {
  }

  /** The selected cells of a segment at their places in its row. */
  ghost function PlacedCells(l: OrderedLine, valid: seq<Part>): set<int> {
    Shifted(Cells(valid), l.begin)
  }

  /** The edges of the row between two coordinates. */
  ghost function RowCells(l: OrderedLine): set<int> {
    set k | l.begin <= k < l.end && InLine(l, k)
  }

  predicate InLine(l: OrderedLine, k: int) { l.begin <= k < l.end }

  /** Copying the cells of a part to the sub-line of that part leaves them at their places. */
  lemma CopiedToSubLine(l: OrderedLine, part: Part, cells: set<int>)
    requires part.end <= Length(l)
    ensures var def := CopyDefinition(ToPart(ToLine(l, part)), part);
      Shifted(CopiedCells(cells, def), l.begin + part.begin) == Shifted(cells, l.begin) * RowCells(ToLine(l, part))
  {
    var def := CopyDefinition(ToPart(ToLine(l, part)), part);
    var r := ToLine(l, part);
    forall k ensures k in Shifted(CopiedCells(cells, def), r.begin) <==> k in Shifted(cells, l.begin) * RowCells(r) {
      CopiedAt(cells, def, k - r.begin);
      ShiftedAt(CopiedCells(cells, def), r.begin, k);
      ShiftedAt(cells, l.begin, k);
    }
  }

  lemma ShiftedAt(cells: set<int>, shift: int, k: int)
    ensures k in Shifted(cells, shift) <==> k - shift in cells
  {
    if k - shift in cells {
      assert (k - shift) + shift == k;
    }
  }

  lemma CopiedAt(cells: set<int>, def: CopyDefinition, k: int)
    ensures k in CopiedCells(cells, def) <==>
      var from := k - (def.destination.begin - def.source.begin);
      from in cells && def.source.begin <= from < def.source.end
  {
    ShiftedAt(cells * Range(def.source), def.destination.begin - def.source.begin, k);
  }

  /** Copying all cells of a line into a longer line leaves them at their places. */
  lemma CopiedToLongerLine(full: OrderedLine, l: OrderedLine, cells: set<int>)
    requires IsSubLine(full, l) && cells <= Range(ToPart(l))
    ensures var def := CopyDefinition(SubPart(full, l), ToPart(l));
      Shifted(CopiedCells(cells, def), full.begin) == Shifted(cells, l.begin)
  {
    var def := CopyDefinition(SubPart(full, l), ToPart(l));
    forall k ensures k in Shifted(CopiedCells(cells, def), full.begin) <==> k in Shifted(cells, l.begin) {
      CopiedAt(cells, def, k - full.begin);
      ShiftedAt(CopiedCells(cells, def), full.begin, k);
      ShiftedAt(cells, l.begin, k);
    }
  }
}

/** A collection of segments with valid parts, and cached counts of its connections. */
module SegmentTrees {
  import opened Wrappers
  import opened ShiftedSets
  import opened PartSelections
  import opened Geometry
  import opened LayoutMessages
  import opened SegmentInfos

  //
  // Counting
  //

  function PointsOfType(info: SegmentInfo, t: PointType): multiset<Point> {
    (if info.p0Type == t then multiset{P0(info.line)} else multiset{}) +
    (if info.p1Type == t then multiset{P1(info.line)} else multiset{})
  }

  /** The positions of all end points of the type, with repetitions. */
  function AllPoints(segments: seq<SegmentInfo>, t: PointType): multiset<Point> {
    if segments == [] then multiset{}
    else AllPoints(segments[..|segments| - 1], t) + PointsOfType(segments[|segments| - 1], t)
  }

  lemma {:induction false} AllPointsConcat(a: seq<SegmentInfo>, b: seq<SegmentInfo>, t: PointType)
    ensures AllPoints(a + b, t) == AllPoints(a, t) + AllPoints(b, t)
  {
    if b == [] {
      assert a + b == a;
    } else {
      var n := |b| - 1;
      assert (a + b)[..|a + b| - 1] == a + b[..n];
      AllPointsConcat(a, b[..n], t);
    }
  }

  lemma AllPointsUpdated(s: seq<SegmentInfo>, i: nat, info: SegmentInfo, t: PointType)
    requires i < |s|
    ensures AllPoints(s[i := info], t) == AllPoints(s, t) - PointsOfType(s[i], t) + PointsOfType(info, t)
    ensures PointsOfType(s[i], t) <= AllPoints(s, t)
  {
    hide PointsOfType;
    AllPointsAround(s, i, t);
    AllPointsAround(s[i := info], i, t);
    assert s[i := info][..i] == s[..i] && s[i := info][i + 1..] == s[i + 1..];
  }

  lemma AllPointsAround(s: seq<SegmentInfo>, i: nat, t: PointType)
    requires i < |s|
    ensures AllPoints(s, t) == AllPoints(s[..i], t) + PointsOfType(s[i], t) + AllPoints(s[i + 1..], t)
  {
    hide PointsOfType;
    assert s == s[..i + 1] + s[i + 1..] && s[..i + 1][..i] == s[..i];
    AllPointsConcat(s[..i + 1], s[i + 1..], t);
  }

  /** The list without the entry, which the last entry replaces. */
  function SwapRemoved<T>(s: seq<T>, i: nat): (r: seq<T>)
    requires i < |s|
    ensures |r| == |s| - 1
    ensures multiset(r) == multiset(s) - multiset{s[i]}
  {
    var n := |s| - 1;
    assert s == s[..n] + [s[n]];
    assert i < n ==> s[..n] == s[..i] + [s[i]] + s[i + 1..n];
    assert i < n ==> s[i := s[n]][..n] == s[..i] + [s[n]] + s[i + 1..n];
    s[i := s[n]][..n]
  }

  /** The last entry is at index i now, and all others are where they were. */
  ghost predicate IsSwapRemoval<T>(was: seq<T>, i: nat, now: seq<T>) {
    && |was| == |now| + 1
    && forall j :: 0 <= j < |now| ==> now[j] == if j == i then was[|now|] else was[j]
  }

  lemma AllPointsOfLast(s: seq<SegmentInfo>, t: PointType)
    requires s != []
    ensures AllPoints(s, t) == AllPoints(s[..|s| - 1], t) + PointsOfType(s[|s| - 1], t)
  {
  }

  lemma CancelPoints(a: multiset<Point>, b: multiset<Point>, c: multiset<Point>)
    requires a + c == b + c
    ensures a == b
  {
    assert a == (a + c) - c && b == (b + c) - c;
  }

  lemma AllPointsSwapRemoved(s: seq<SegmentInfo>, i: nat, t: PointType)
    requires i < |s|
    ensures AllPoints(SwapRemoved(s, i), t) == AllPoints(s, t) - PointsOfType(s[i], t)
    ensures PointsOfType(s[i], t) <= AllPoints(s, t)
  {
    hide PointsOfType, AllPoints;
    var n := |s| - 1;
    var swapped := s[i := s[n]];
    AllPointsUpdated(s, i, s[n], t);
    AllPointsOfLast(swapped, t);
    CancelPoints(AllPoints(swapped[..n], t), AllPoints(s, t) - PointsOfType(s[i], t), PointsOfType(s[n], t));
  }

  ghost function AsMultiset(p: Option<Point>): multiset<Point> {
    if p.Some? then multiset{p.value} else multiset{}
  }

  //
  // The value of a tree
  //

  /** The cached input position is the only end point of type input, and the count the number of outputs. */
  ghost predicate CountsAre(segments: seq<SegmentInfo>, inputPosition: Option<Point>, outputCount: int) {
    && AllPoints(segments, InputPoint) == AsMultiset(inputPosition)
    && |AllPoints(segments, OutputPoint)| == outputCount
  }

  ghost predicate IsValidFor(valid: seq<Part>, l: OrderedLine) {
    Canonical(valid) && Cells(valid) <= Range(ToPart(l))
  }

  ghost predicate ValidWithinLines(segments: seq<SegmentInfo>, validParts: seq<seq<Part>>) {
    |segments| == |validParts| && forall i :: 0 <= i < |segments| ==> IsValidFor(validParts[i], segments[i].line)
  }

  /** The tree accepts no second input. */
  ghost predicate HasOneInput(segments: seq<SegmentInfo>) {
    |AllPoints(segments, InputPoint)| <= 1
  }

  lemma ReplacedCounts(s: seq<SegmentInfo>, i: nat, info: SegmentInfo, inputPosition: Option<Point>, outputCount: int)
    requires i < |s| && CountsAre(s, inputPosition, outputCount)
    ensures PointsOfType(s[i], InputPoint) <= AsMultiset(inputPosition)
    ensures forall p: Option<Point> ::
      AsMultiset(p) == AsMultiset(inputPosition) - PointsOfType(s[i], InputPoint) + PointsOfType(info, InputPoint) ==>
        CountsAre(s[i := info], p, outputCount - |PointsOfType(s[i], OutputPoint)| + |PointsOfType(info, OutputPoint)|)
    ensures HasOneInput(s[i := info]) <==>
      |AsMultiset(inputPosition) - PointsOfType(s[i], InputPoint) + PointsOfType(info, InputPoint)| <= 1
  {
    hide PointsOfType, AsMultiset, AllPoints;
    AllPointsUpdated(s, i, info, InputPoint);
    AllPointsUpdated(s, i, info, OutputPoint);
    SizeWithout(AllPoints(s, OutputPoint), PointsOfType(s[i], OutputPoint));
  }

  lemma SizeWithout(a: multiset<Point>, b: multiset<Point>)
    requires b <= a
    ensures |a - b| == |a| - |b|
  {
    assert a == (a - b) + b;
  }

  lemma RemovedCounts(s: seq<SegmentInfo>, i: nat, inputPosition: Option<Point>, outputCount: int)
    requires i < |s| && CountsAre(s, inputPosition, outputCount)
    ensures PointsOfType(s[i], InputPoint) <= AsMultiset(inputPosition)
    ensures forall p: Option<Point> ::
      AsMultiset(p) == AsMultiset(inputPosition) - PointsOfType(s[i], InputPoint) ==>
        CountsAre(SwapRemoved(s, i), p, outputCount - |PointsOfType(s[i], OutputPoint)|)
  {
    hide PointsOfType, AsMultiset, AllPoints, SwapRemoved;
    AllPointsSwapRemoved(s, i, InputPoint);
    AllPointsSwapRemoved(s, i, OutputPoint);
    SizeWithout(AllPoints(s, OutputPoint), PointsOfType(s[i], OutputPoint));
  }

  lemma AddedCounts(s: seq<SegmentInfo>, more: seq<SegmentInfo>, inputPosition: Option<Point>, outputCount: int)
    requires CountsAre(s, inputPosition, outputCount)
    ensures forall p: Option<Point> ::
      AsMultiset(p) == AsMultiset(inputPosition) + AllPoints(more, InputPoint) ==>
        CountsAre(s + more, p, outputCount + |AllPoints(more, OutputPoint)|)
    ensures HasOneInput(s + more) <==> |AsMultiset(inputPosition) + AllPoints(more, InputPoint)| <= 1
  {
    hide PointsOfType, AsMultiset, AllPoints;
    AllPointsConcat(s, more, InputPoint);
    AllPointsConcat(s, more, OutputPoint);
  }

  lemma PointsOfOne(info: SegmentInfo, t: PointType)
    ensures AllPoints([info], t) == PointsOfType(info, t)
  {
    assert [info][..0] == [];
  }

  /** A part of a segment has no connections the segment does not have. */
  lemma CutConnections(was: SegmentInfo, part: Part, now: SegmentInfo, t: PointType)
    requires IsCutTo(was, part, now) && t != ShadowPoint
    ensures PointsOfType(now, t) <= PointsOfType(was, t)
    ensures |PointsOfType(now, t)| <= |PointsOfType(was, t)|
  {
    SizeWithout(PointsOfType(was, t), PointsOfType(now, t));
  }

  //
  // What is counted
  //

  /** An end point of segment i, the first or the second one, has the type. */
  ghost predicate IsEnd(segments: seq<SegmentInfo>, t: PointType, i: int, second: bool) {
    0 <= i < |segments| && (if second then segments[i].p1Type else segments[i].p0Type) == t
  }

  ghost function Ends(segments: seq<SegmentInfo>, t: PointType): set<(int, bool)> {
    set i, second | 0 <= i < |segments| && IsEnd(segments, t, i, second) :: (i, second)
  }

  ghost predicate IsPosition(segments: seq<SegmentInfo>, t: PointType, i: int, second: bool, p: Point) {
    IsEnd(segments, t, i, second) && p == (if second then P1(segments[i].line) else P0(segments[i].line))
  }

  ghost function OwnEnds(info: SegmentInfo, t: PointType, i: int): set<(int, bool)> {
    (if info.p0Type == t then {(i, false)} else {}) + (if info.p1Type == t then {(i, true)} else {})
  }

  lemma IsEndOneMore(front: seq<SegmentInfo>, last: SegmentInfo, t: PointType, i: int, second: bool)
    ensures IsEnd(front + [last], t, i, second) <==>
      IsEnd(front, t, i, second) || (i, second) in OwnEnds(last, t, |front|)
  {
  }

  lemma EndsOneMore(front: seq<SegmentInfo>, last: SegmentInfo, t: PointType)
    ensures Ends(front + [last], t) == Ends(front, t) + OwnEnds(last, t, |front|)
    ensures Ends(front, t) !! OwnEnds(last, t, |front|)
  {
    hide IsEnd;
    EndsBounded(front, t);
    forall i: int, second ensures (i, second) in Ends(front + [last], t) <==>
      (i, second) in Ends(front, t) || (i, second) in OwnEnds(last, t, |front|)
    {
      IsEndOneMore(front, last, t, i, second);
      EndsAre(front, t, i, second);
      EndsAre(front + [last], t, i, second);
    }
  }

  lemma EndsAre(segments: seq<SegmentInfo>, t: PointType, i: int, second: bool)
    ensures (i, second) in Ends(segments, t) <==> IsEnd(segments, t, i, second)
  {
  }

  lemma EndsBounded(segments: seq<SegmentInfo>, t: PointType)
    ensures forall end :: end in Ends(segments, t) ==> end.0 < |segments|
  {
  }

  lemma OwnEndsCount(info: SegmentInfo, t: PointType, i: int)
    ensures |OwnEnds(info, t, i)| == |PointsOfType(info, t)|
  {
    if info.p0Type == t && info.p1Type == t {
      assert OwnEnds(info, t, i) == {(i, false), (i, true)};
      assert PointsOfType(info, t) == multiset{P0(info.line), P1(info.line)};
    }
  }

  /** The counted points are the positions of the ends of the type, one for each end. */
  lemma {:induction false} EndsAreCounted(segments: seq<SegmentInfo>, t: PointType)
    ensures |AllPoints(segments, t)| == |Ends(segments, t)|
    ensures forall p :: p in AllPoints(segments, t) <==> exists i, second :: IsPosition(segments, t, i, second, p)
  {
    if segments == [] {
      assert Ends(segments, t) == {};
    } else {
      hide Ends, OwnEnds, PointsOfType, IsPosition;
      var front, last := segments[..|segments| - 1], segments[|segments| - 1];
      assert segments == front + [last];
      EndsAreCounted(front, t);
      EndsOneMore(front, last, t);
      OwnEndsCount(last, t, |front|);
      forall p ensures p in AllPoints(segments, t) <==> exists i, second :: IsPosition(segments, t, i, second, p) {
        PositionOneMore(front, last, t, p);
      }
    }
  }

  lemma PositionOneMore(front: seq<SegmentInfo>, last: SegmentInfo, t: PointType, p: Point)
    ensures (exists i, second :: IsPosition(front + [last], t, i, second, p)) <==>
      (exists i, second :: IsPosition(front, t, i, second, p)) || p in PointsOfType(last, t)
  {
    var segments := front + [last];
    forall i, second ensures IsPosition(segments, t, i, second, p) <==>
      IsPosition(front, t, i, second, p) || (i == |front| && IsPosition(segments, t, |front|, second, p))
    {
    }
    assert p in PointsOfType(last, t) <==>
      IsPosition(segments, t, |front|, false, p) || IsPosition(segments, t, |front|, true, p);
  }

  /** There is one input at most exactly if no two ends of the segments are inputs. */
  lemma HasOneInputIff(segments: seq<SegmentInfo>)
    ensures HasOneInput(segments) <==>
      forall i, a, j, b :: IsEnd(segments, InputPoint, i, a) && IsEnd(segments, InputPoint, j, b) ==> i == j && a == b
  {
    EndsAreCounted(segments, InputPoint);
    var ends := Ends(segments, InputPoint);
    hide AllPoints, Ends, IsEnd;
    forall i, a ensures IsEnd(segments, InputPoint, i, a) <==> (i, a) in ends {
      EndsAre(segments, InputPoint, i, a);
    }
    AtMostOne(ends);
  }

  lemma AtMostOne(ends: set<(int, bool)>)
    ensures |ends| <= 1 <==> forall i, a, j, b :: (i, a) in ends && (j, b) in ends ==> i == j && a == b
  {
    if forall i, a, j, b :: (i, a) in ends && (j, b) in ends ==> i == j && a == b {
      if ends != {} {
        var one :| one in ends;
        assert one == (one.0, one.1);
        forall other | other in ends ensures other == one {
          assert other == (other.0, other.1);
        }
        assert ends == {one};
      }
    } else {
      var i, a, j, b :| (i, a) in ends && (j, b) in ends && (i != j || a != b);
      SmallerOrEqual({(i, a), (j, b)}, ends);
    }
  }

  lemma SmallerOrEqual<T>(a: set<T>, b: set<T>)
    requires a <= b
    ensures |a| <= |b|
  {
    assert b == a + (b - a);
  }

  /** What the caches of a valid tree say about its segments. */
  lemma CachesAre(segments: seq<SegmentInfo>, inputPosition: Option<Point>, outputCount: int)
    requires CountsAre(segments, inputPosition, outputCount)
    ensures outputCount == |Ends(segments, OutputPoint)|
    ensures inputPosition.None? <==> forall i, second :: !IsEnd(segments, InputPoint, i, second)
    ensures inputPosition.Some? ==>
      exists i, second :: IsPosition(segments, InputPoint, i, second, inputPosition.value)
    ensures forall i, a, j, b ::
      IsEnd(segments, InputPoint, i, a) && IsEnd(segments, InputPoint, j, b) ==> i == j && a == b
  {
    EndsAreCounted(segments, InputPoint);
    EndsAreCounted(segments, OutputPoint);
    InputCountIs(inputPosition);
    HasOneInputIff(segments);
    if inputPosition.Some? {
      assert inputPosition.value in AllPoints(segments, InputPoint);
    } else {
      assert Ends(segments, InputPoint) == {};
      forall i, second ensures !IsEnd(segments, InputPoint, i, second) {
        EndsAre(segments, InputPoint, i, second);
      }
    }
  }

  lemma FewerThanBefore(a: multiset<Point>, b: multiset<Point>, c: multiset<Point>)
    requires b <= a && c <= b
    ensures |a - b + c| <= |a|
  {
    assert a == (a - b + c) + (b - c);
  }

  class SegmentTree {
    var segments: seq<SegmentInfo>
    var validParts: seq<seq<Part>>
    var inputPosition: Option<Point>
    var outputCount: int

    ghost predicate Valid()
      reads this
    {
      ValidWithinLines(segments, validParts) && CountsAre(segments, inputPosition, outputCount)
    }

    constructor ()
      ensures Valid() && segments == []
    {
      segments, validParts, inputPosition, outputCount := [], [], None, 0;
    }

    method Clear()
      modifies this
      ensures Valid() && segments == []
    {
      segments, validParts, inputPosition, outputCount := [], [], None, 0;
    }

    /** Returns false if there is an input already. */
    method SetInputChecked(point: Point) returns (ok: bool)
      modifies this`inputPosition
      ensures ok <==> old(inputPosition).None?
      ensures ok ==> inputPosition == Some(point)
    {
      if inputPosition.Some? {
        return false;
      }
      inputPosition := Some(point);
      return true;
    }

    method RegisterPoint(point: Point, t: PointType) returns (ok: bool)
      modifies this`inputPosition, this`outputCount
      ensures ok <==> !(t == InputPoint && old(inputPosition).Some?)
      ensures ok ==> inputPosition == (if t == InputPoint then Some(point) else old(inputPosition))
      ensures ok ==> outputCount == old(outputCount) + if t == OutputPoint then 1 else 0
    {
      ok := true;
      if t == InputPoint {
        ok := SetInputChecked(point);
      } else if t == OutputPoint {
        outputCount := outputCount + 1;
      }
    }

    /** Adds the connections of a segment to the counts, unless that makes two inputs. */
    method RegisterSegment(info: SegmentInfo) returns (ok: bool)
      modifies this`inputPosition, this`outputCount
      ensures ok <==> |AsMultiset(old(inputPosition)) + PointsOfType(info, InputPoint)| <= 1
      ensures ok ==> AsMultiset(inputPosition) == AsMultiset(old(inputPosition)) + PointsOfType(info, InputPoint)
      ensures ok ==> outputCount == old(outputCount) + |PointsOfType(info, OutputPoint)|
    {
      ok := RegisterPoint(P0(info.line), info.p0Type);
      if ok {
        ok := RegisterPoint(P1(info.line), info.p1Type);
      }
    }

    method UnregisterPoint(point: Point, t: PointType)
      requires t == InputPoint ==> inputPosition == Some(point)
      modifies this`inputPosition, this`outputCount
      ensures inputPosition == if t == InputPoint then None else old(inputPosition)
      ensures outputCount == old(outputCount) - if t == OutputPoint then 1 else 0
    {
      if t == InputPoint {
        inputPosition := None;
      } else if t == OutputPoint {
        outputCount := outputCount - 1;
      }
    }

    /** Takes the connections of a segment out of the counts; they were counted before. */
    method UnregisterSegment(info: SegmentInfo)
      requires PointsOfType(info, InputPoint) <= AsMultiset(inputPosition)
      modifies this`inputPosition, this`outputCount
      ensures AsMultiset(inputPosition) == AsMultiset(old(inputPosition)) - PointsOfType(info, InputPoint)
      ensures outputCount == old(outputCount) - |PointsOfType(info, OutputPoint)|
    {
      InputsOfOne(info, inputPosition);
      UnregisterPoint(P0(info.line), info.p0Type);
      UnregisterPoint(P1(info.line), info.p1Type);
    }

    /** Returns false if the tree gets a second input; it is then not usable anymore. */
    method AddSegment(info: SegmentInfo) returns (ok: bool)
      requires Valid()
      modifies this
      ensures ok <==> HasOneInput(old(segments) + [info])
      ensures ok ==> Valid() && segments == old(segments) + [info] && validParts == old(validParts) + [[]]
      ensures ok ==> outputCount == old(outputCount) + |PointsOfType(info, OutputPoint)|
    {
      hide AllPoints, PointsOfType, AsMultiset;
      AddedCounts(segments, [info], inputPosition, outputCount);
      PointsOfOne(info, InputPoint);
      PointsOfOne(info, OutputPoint);
      segments := segments + [info];
      validParts := validParts + [[]];
      ok := RegisterSegment(info);
    }

    method AddTree(tree: SegmentTree) returns (ok: bool)
      requires Valid() && tree.Valid() && tree != this
      modifies this
      ensures ok <==> HasOneInput(old(segments) + tree.segments)
      ensures ok ==> Valid() && segments == old(segments) + tree.segments && validParts == old(validParts) + tree.validParts
    {
      hide AllPoints, PointsOfType;
      AddedCounts(segments, tree.segments, inputPosition, outputCount);
      ok := true;
      if tree.inputPosition.Some? {
        ok := SetInputChecked(tree.inputPosition.value);
        if !ok {
          return;
        }
      }
      outputCount := outputCount + tree.outputCount;
      segments := segments + tree.segments;
      validParts := validParts + tree.validParts;
    }

    /** Returns false if the length changes or the tree gets a second input. */
    method UpdateSegment(index: nat, info: SegmentInfo) returns (ok: bool)
      requires Valid() && index < |segments|
      modifies this
      ensures ok <==> Length(info.line) == Length(old(segments)[index].line) && HasOneInput(old(segments)[index := info])
      ensures ok ==> Valid() && segments == old(segments)[index := info] && validParts == old(validParts)
      ensures Length(info.line) != Length(old(segments)[index].line) ==>
        Valid() && segments == old(segments) && validParts == old(validParts)
        && inputPosition == old(inputPosition) && outputCount == old(outputCount)
    {
      hide AllPoints, PointsOfType, AsMultiset, HasOneInput, Canonical, Cells;
      if ToPart(info.line) != ToPart(segments[index].line) {
        return false;
      }
      ReplacedCounts(segments, index, info, inputPosition, outputCount);
      UnregisterSegment(segments[index]);
      segments := segments[index := info];
      ok := RegisterSegment(info);
    }

    method CopySegment(tree: SegmentTree, index: nat) returns (ok: bool)
      requires Valid() && tree.Valid() && index < |tree.segments|
      modifies this
      ensures ok <==> HasOneInput(old(segments) + [old(tree.segments)[index]])
      ensures ok ==> Valid() && segments == old(segments) + [old(tree.segments)[index]]
      ensures ok ==> validParts == old(validParts) + [old(tree.validParts)[index]]
    {
      hide AllPoints, PointsOfType, AsMultiset, HasOneInput, CountsAre, Canonical, Cells;
      var info, valid := tree.segments[index], tree.validParts[index];
      ok := AddSegment(info);
      if ok {
        validParts := validParts[|validParts| - 1 := valid];
      }
    }

    /** Copies a part of a segment: the copy keeps the valid cells of that part at their places. */
    method CopySegmentPart(tree: SegmentTree, index: nat, part: Part) returns (ok: bool)
      requires Valid() && tree.Valid() && index < |tree.segments|
      modifies this
      ensures ok == (part.end <= Length(old(tree.segments)[index].line) &&
                     HasOneInput(old(segments) + [Adjust(old(tree.segments)[index], part)]))
      ensures ok ==> Valid() && segments == old(segments) + [Adjust(old(tree.segments)[index], part)]
      ensures ok ==> |validParts| == |old(validParts)| + 1 && validParts[..|old(validParts)|] == old(validParts)
      ensures ok ==>
        KeepsPlacedCells(old(tree.segments)[index].line, old(tree.validParts)[index], part, validParts[|validParts| - 1])
      ensures ok ==>
        var was, now := old(tree.segments)[index], segments[|segments| - 1];
        && IsCutTo(was, part, now)
        && PointsOfType(now, InputPoint) <= PointsOfType(was, InputPoint)
        && PointsOfType(now, OutputPoint) <= PointsOfType(was, OutputPoint)
        && outputCount == old(outputCount) + |PointsOfType(now, OutputPoint)|
    {
      hide AllPoints, PointsOfType, AsMultiset, HasOneInput, CountsAre, Canonical, Cells, KeepsPlacedCells, IsCutTo;
      if part.end > Length(tree.segments[index].line) {
        return false;
      }
      var info, valid := tree.segments[index], tree.validParts[index];
      assert IsValidFor(valid, info.line);
      var newInfo := Adjust(info, part);
      AdjustedIsCut(info, part);
      CutConnections(info, part, newInfo, InputPoint);
      CutConnections(info, part, newInfo, OutputPoint);
      ok := AddSegment(newInfo);
      if ok {
        var copied := CopiedParts(info.line, valid, part);
        validParts := validParts[|validParts| - 1 := copied];
      }
    }

    /** The segment becomes the part, with exactly those valid cells that lie in it, at their places. */
    method ShrinkSegment(index: nat, part: Part) returns (ok: bool)
      requires Valid() && index < |segments|
      modifies this
      ensures Valid() && ok == (part.end <= Length(old(segments)[index].line))
      ensures !ok ==> segments == old(segments) && validParts == old(validParts)
      ensures ok ==> segments == old(segments)[index := Adjust(old(segments)[index], part)]
      ensures ok ==> validParts == old(validParts)[index := validParts[index]]
      ensures ok ==> KeepsPlacedCells(old(segments)[index].line, old(validParts)[index], part, validParts[index])
      ensures ok ==>
        && IsCutTo(old(segments)[index], part, segments[index])
        && PointsOfType(segments[index], InputPoint) <= PointsOfType(old(segments)[index], InputPoint)
        && PointsOfType(segments[index], OutputPoint) <= PointsOfType(old(segments)[index], OutputPoint)
        && outputCount <= old(outputCount)
    {
      hide AllPoints, PointsOfType, AsMultiset, HasOneInput, Canonical, Cells, KeepsPlacedCells, IsCutTo;
      var info, valid := segments[index], validParts[index];
      if part.end > Length(info.line) {
        return false;
      }
      assert IsValidFor(valid, info.line);
      var newInfo := Adjust(info, part);
      ReplacedCounts(segments, index, newInfo, inputPosition, outputCount);
      AdjustedIsCut(info, part);
      CutConnections(info, part, newInfo, InputPoint);
      CutConnections(info, part, newInfo, OutputPoint);
      FewerThanBefore(AsMultiset(inputPosition), PointsOfType(info, InputPoint), PointsOfType(newInfo, InputPoint));
      InputCountIs(inputPosition);
      UnregisterSegment(info);
      segments := segments[index := newInfo];
      ok := RegisterSegment(newInfo);
      var copied := CopiedParts(info.line, valid, part);
      validParts := validParts[index := copied];
    }

    /** Deletes a segment; the last one takes its place. */
    method SwapAndDeleteSegment(index: nat)
      requires Valid() && index < |segments|
      modifies this
      ensures Valid()
      ensures segments == SwapRemoved(old(segments), index) && validParts == SwapRemoved(old(validParts), index)
      ensures IsSwapRemoval(old(segments), index, segments) && IsSwapRemoval(old(validParts), index, validParts)
      ensures outputCount == old(outputCount) - |PointsOfType(old(segments)[index], OutputPoint)|
    {
      hide AllPoints, PointsOfType, AsMultiset, Canonical, Cells;
      RemovedCounts(segments, index, inputPosition, outputCount);
      var lastIndex := |segments| - 1;
      UnregisterSegment(segments[index]);
      if index != lastIndex {
        segments := segments[index := segments[lastIndex]];
        validParts := validParts[index := validParts[lastIndex]];
      }
      segments := segments[..lastIndex];
      validParts := validParts[..lastIndex];
      assert segments == SwapRemoved(old(segments), index);
      assert validParts == SwapRemoved(old(validParts), index);
    }

    /**
     Merges a segment into another one and deletes it; the last segment takes its place.
     The merged segment has exactly the valid cells of both, at their places.
     */
    method SwapAndMergeSegment(mergeTo: nat, deleted: nat) returns (ok: bool)
      requires Valid() && mergeTo < |segments| && deleted < |segments|
      modifies this
      ensures Valid()
      ensures ok <==> mergeTo < deleted && MergeTouching(old(segments)[mergeTo], old(segments)[deleted]).Some?
      ensures !ok ==> segments == old(segments) && validParts == old(validParts)
      ensures ok ==> var merged := MergeTouching(old(segments)[mergeTo], old(segments)[deleted]).value;
        && segments == SwapRemoved(old(segments), deleted)[mergeTo := merged]
        && validParts == SwapRemoved(old(validParts), deleted)[mergeTo := validParts[mergeTo]]
        && PlacedCells(merged.line, validParts[mergeTo]) ==
             PlacedCells(old(segments)[mergeTo].line, old(validParts)[mergeTo]) +
             PlacedCells(old(segments)[deleted].line, old(validParts)[deleted])
      ensures ok ==>
        var x, y, now := old(segments)[mergeTo], old(segments)[deleted], segments[mergeTo];
        && IsJoinOf(x, y, now)
        && PointsOfType(now, InputPoint) <= PointsOfType(x, InputPoint) + PointsOfType(y, InputPoint)
        && PointsOfType(now, OutputPoint) <= PointsOfType(x, OutputPoint) + PointsOfType(y, OutputPoint)
        && outputCount <= old(outputCount)
      ensures ok ==>
        && |segments| == |validParts| == |old(segments)| - 1
        && forall j :: 0 <= j < |segments| && j != mergeTo ==>
             && segments[j] == old(segments)[if j == deleted then |segments| else j]
             && validParts[j] == old(validParts)[if j == deleted then |segments| else j]
    {
      hide AllPoints, PointsOfType, AsMultiset, Canonical, Cells, PlacedCells, SwapRemoved, MergeTouching, HasOneInput,
        IsJoinOf;
      if mergeTo >= deleted {
        return false;
      }
      var x, y := segments[mergeTo], segments[deleted];
      assert IsValidFor(validParts[mergeTo], x.line) && IsValidFor(validParts[deleted], y.line);
      var mergedInfo := MergeTouching(x, y);
      if mergedInfo.None? {
        return false;
      }
      var mergedParts := MergedParts(x, y, validParts[mergeTo], validParts[deleted]);
      SwapRemovedKeeps(segments, mergeTo, deleted);
      SwapRemovedKeeps(validParts, mergeTo, deleted);
      CountsHaveOneInput(segments, inputPosition, outputCount);
      MergedHasOneInput(segments, mergeTo, deleted);
      MergedIsJoin(x, y);
      MergedConnections(x, y, InputPoint);
      MergedConnections(x, y, OutputPoint);
      NoMoreThanSum(PointsOfType(mergedInfo.value, OutputPoint), PointsOfType(x, OutputPoint), PointsOfType(y, OutputPoint));
      SwapAndDeleteSegment(deleted);
      ReplacedCounts(segments, mergeTo, mergedInfo.value, inputPosition, outputCount);
      UnregisterSegment(segments[mergeTo]);
      segments := segments[mergeTo := mergedInfo.value];
      ok := RegisterSegment(mergedInfo.value);
      validParts := validParts[mergeTo := mergedParts];
    }

    method MarkValid(index: nat, part: Part) returns (ok: bool)
      requires Valid() && index < |segments|
      modifies this
      ensures Valid() && segments == old(segments) && ok == (part.end <= Length(segments[index].line))
      ensures !ok ==> validParts == old(validParts)
      ensures ok ==> validParts == old(validParts)[index := validParts[index]]
      ensures ok ==> Cells(validParts[index]) == Cells(old(validParts)[index]) + Range(part)
    {
      hide AllPoints, PointsOfType, AsMultiset, Canonical, Cells;
      if part.end > Length(segments[index].line) {
        return false;
      }
      assert IsValidFor(validParts[index], segments[index].line);
      var selection := new PartSelection.Copy(validParts[index]);
      selection.AddPart(part);
      validParts := validParts[index := selection.parts];
      return true;
    }

    method UnmarkValid(index: nat, part: Part) returns (ok: bool)
      requires Valid() && index < |segments|
      modifies this
      ensures Valid() && segments == old(segments) && ok == (part.end <= Length(segments[index].line))
      ensures !ok ==> validParts == old(validParts)
      ensures ok ==> validParts == old(validParts)[index := validParts[index]]
      ensures ok ==> Cells(validParts[index]) == Cells(old(validParts)[index]) - Range(part)
    {
      hide AllPoints, PointsOfType, AsMultiset, Canonical, Cells;
      if part.end > Length(segments[index].line) {
        return false;
      }
      assert IsValidFor(validParts[index], segments[index].line);
      var selection := new PartSelection.Copy(validParts[index]);
      selection.RemovePart(part);
      validParts := validParts[index := selection.parts];
      return true;
    }
  }

  /** The cells of the part of the line stay selected at their places, and no others. */
  ghost predicate KeepsPlacedCells(l: OrderedLine, valid: seq<Part>, part: Part, copied: seq<Part>) {
    && part.end <= Length(l)
    && PlacedCells(ToLine(l, part), copied) == PlacedCells(l, valid) * RowCells(ToLine(l, part))
  }

  method CopiedParts(l: OrderedLine, valid: seq<Part>, part: Part) returns (copied: seq<Part>)
    requires IsValidFor(valid, l) && part.end <= Length(l)
    ensures IsValidFor(copied, ToLine(l, part)) && KeepsPlacedCells(l, valid, part, copied)
  {
    hide Cells, CopiedCells, Range, Shifted, RowCells;
    var selection := new PartSelection();
    var def := CopyDefinition(ToPart(ToLine(l, part)), part);
    EmptyCells([]);
    var ok := selection.CopyParts(valid, def);
    CopiedInside(Cells(valid), def);
    CopiedToSubLine(l, part, Cells(valid));
    return selection.parts;
  }

  method MergedParts(x: SegmentInfo, y: SegmentInfo, validX: seq<Part>, validY: seq<Part>) returns (merged: seq<Part>)
    requires IsValidFor(validX, x.line) && IsValidFor(validY, y.line) && MergeTouching(x, y).Some?
    ensures var l := MergeTouching(x, y).value.line;
      IsValidFor(merged, l) && PlacedCells(l, merged) == PlacedCells(x.line, validX) + PlacedCells(y.line, validY)
  {
    hide Cells, CopiedCells, Range, Shifted, RowCells;
    MergeTouchingIff(x, y);
    var l := MergeTouching(x, y).value.line;
    var defX, defY := CopyDefinition(SubPart(l, x.line), ToPart(x.line)), CopyDefinition(SubPart(l, y.line), ToPart(y.line));
    EmptyCells([]);
    var selection := new PartSelection();
    var ok := selection.CopyParts(validX, defX);
    ok := selection.CopyParts(validY, defY);
    CopiedInside(Cells(validX), defX);
    CopiedInside(Cells(validY), defY);
    SubPartsInside(l, x.line);
    SubPartsInside(l, y.line);
    CopiedToLongerLine(l, x.line, Cells(validX));
    CopiedToLongerLine(l, y.line, Cells(validY));
    ShiftedUnion(CopiedCells(Cells(validX), defX), CopiedCells(Cells(validY), defY), l.begin);
    return selection.parts;
  }

  lemma SubPartsInside(full: OrderedLine, l: OrderedLine)
    requires IsSubLine(full, l)
    ensures Range(SubPart(full, l)) <= Range(ToPart(full))
  {
  }

  lemma ShiftedUnion(a: set<int>, b: set<int>, shift: int)
    ensures Shifted(a + b, shift) == Shifted(a, shift) + Shifted(b, shift)
  {
  }

  lemma InputCountIs(p: Option<Point>)
    ensures |AsMultiset(p)| <= 1
  {
  }

  lemma SwapRemovedKeeps<T>(s: seq<T>, i: nat, removed: nat)
    requires i < removed < |s|
    ensures SwapRemoved(s, removed)[i] == s[i]
  {
  }

  lemma MergedConnections(x: SegmentInfo, y: SegmentInfo, t: PointType)
    requires MergeTouching(x, y).Some?
    ensures PointsOfType(MergeTouching(x, y).value, t) <= PointsOfType(x, t) + PointsOfType(y, t)
  {
  }

  lemma NoMoreThanSum(merged: multiset<Point>, x: multiset<Point>, y: multiset<Point>)
    requires merged <= x + y
    ensures |merged| <= |x| + |y|
  {
    SizeWithout(x + y, merged);
  }

  lemma NotMoreThanBefore(all: multiset<Point>, x: multiset<Point>, y: multiset<Point>, merged: multiset<Point>)
    requires y <= all && x <= all - y && merged <= x + y
    ensures |all - y - x + merged| <= |all|
  {
    var rest := all - y - x;
    assert all == rest + (x + y);
    assert x + y == merged + (x + y - merged);
  }

  /** Merging makes no second input: the merged segment has only connections of the two. */
  lemma MergedHasOneInput(s: seq<SegmentInfo>, i: nat, removed: nat)
    requires i < removed < |s| && HasOneInput(s) && MergeTouching(s[i], s[removed]).Some?
    ensures HasOneInput(SwapRemoved(s, removed)[i := MergeTouching(s[i], s[removed]).value])
  {
    hide PointsOfType, MergeTouching, AllPoints, SwapRemoved;
    var x, y, all := PointsOfType(s[i], InputPoint), PointsOfType(s[removed], InputPoint), AllPoints(s, InputPoint);
    var merged := MergeTouching(s[i], s[removed]).value;
    MergedConnections(s[i], s[removed], InputPoint);
    SwapRemovedKeeps(s, i, removed);
    AllPointsSwapRemoved(s, removed, InputPoint);
    AllPointsUpdated(SwapRemoved(s, removed), i, merged, InputPoint);
    NotMoreThanBefore(all, x, y, PointsOfType(merged, InputPoint));
  }

  lemma CountsHaveOneInput(s: seq<SegmentInfo>, inputPosition: Option<Point>, outputCount: int)
    requires CountsAre(s, inputPosition, outputCount)
    ensures HasOneInput(s)
  {
  }

  lemma InputsOfOne(info: SegmentInfo, inputPosition: Option<Point>)
    requires PointsOfType(info, InputPoint) <= AsMultiset(inputPosition)
    ensures !(info.p0Type == InputPoint && info.p1Type == InputPoint)
    ensures info.p0Type == InputPoint ==> inputPosition == Some(P0(info.line))
    ensures info.p1Type == InputPoint ==> inputPosition == Some(P1(info.line))
  {
    var all := AsMultiset(inputPosition);
    if info.p0Type == InputPoint {
      assert P0(info.line) in all;
    }
    if info.p1Type == InputPoint {
      assert P1(info.line) in all;
    }
    assert all == PointsOfType(info, InputPoint) + (all - PointsOfType(info, InputPoint));
  }
}
