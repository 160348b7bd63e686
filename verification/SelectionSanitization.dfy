/**
 Shrinks or expands selected parts so that none of their ends lies where two wires cross.
 Only such parts can be taken out of a circuit safely.
 */
module SelectionSanitization {
  import opened Wrappers
  import opened PartSelections
  import opened Geometry
  import opened LayoutMessages
  import opened Selections

  datatype SanitizeMode = Expand | Shrink

  /** The points where wires cross, seen along a line. */
  datatype CrossingIndex = CrossingIndex(crossings: set<Point>, line: OrderedLine)

  function MaxOffset(index: CrossingIndex): nat { Length(index.line) }

  predicate IsSafe(index: CrossingIndex, offset: int) {
    At(index.line.axis, index.line.row, index.line.begin + offset) !in index.crossings
  }

  predicate HasSafeEnds(index: CrossingIndex, part: Part) {
    IsSafe(index, part.begin) && IsSafe(index, part.end)
  }

  ghost predicate AllEndsSafe(index: CrossingIndex, parts: seq<Part>) {
    forall p :: p in parts ==> HasSafeEnds(index, p)
  }

  ghost predicate WithinLine(index: CrossingIndex, parts: seq<Part>) {
    forall p :: p in parts ==> p.end <= MaxOffset(index)
  }

  method FindLower(offset: nat, index: CrossingIndex, limit: nat) returns (r: nat)
    requires limit <= offset
    ensures limit <= r <= offset && (r == offset ==> offset == limit)
    ensures forall k :: r < k < offset ==> !IsSafe(index, k)
    ensures r < offset && !IsSafe(index, r) ==> r == limit
  {
    r := offset;
    while r > limit
      invariant limit <= r <= offset
      invariant forall k :: r <= k < offset ==> !IsSafe(index, k)
    {
      r := r - 1;
      if IsSafe(index, r) {
        return;
      }
    }
  }

  method FindHigher(offset: nat, index: CrossingIndex, limit: nat) returns (r: nat)
    requires offset <= limit
    ensures offset <= r <= limit && (r == offset ==> offset == limit)
    ensures forall k :: offset < k < r ==> !IsSafe(index, k)
    ensures offset < r && !IsSafe(index, r) ==> r == limit
  {
    r := offset;
    while r < limit
      invariant offset <= r <= limit
      invariant forall k :: offset < k <= r ==> !IsSafe(index, k)
    {
      r := r + 1;
      if IsSafe(index, r) {
        return;
      }
    }
  }

  /** There is no result exactly if no two offsets are safe; otherwise it holds all safe offsets between safe ends. */
  ghost predicate IsShrunk(index: CrossingIndex, part: Part, r: Option<Part>) {
    match r
    case None => forall x, y :: part.begin <= x < y <= part.end ==> !(IsSafe(index, x) && IsSafe(index, y))
    case Some(p) =>
      && Inside(p, part) && HasSafeEnds(index, p)
      && (forall k :: part.begin <= k <= part.end && IsSafe(index, k) ==> p.begin <= k <= p.end)
  }

  /** Each end of the result is the closest safe offset outside, or the end of the line if there is none. */
  ghost predicate IsExpanded(index: CrossingIndex, part: Part, p: Part) {
    && Inside(part, p) && p.end <= MaxOffset(index)
    && (forall k :: p.begin < k <= part.begin ==> !IsSafe(index, k))
    && (forall k :: part.end <= k < p.end ==> !IsSafe(index, k))
    && (IsSafe(index, p.begin) || p.begin == 0)
    && (IsSafe(index, p.end) || p.end == MaxOffset(index))
  }

  ghost predicate IsSanitizedPart(index: CrossingIndex, part: Part, mode: SanitizeMode, r: Option<Part>) {
    if mode == Shrink then IsShrunk(index, part, r) else r.Some? && IsExpanded(index, part, r.value)
  }

  method FindSanitizedPart(part: Part, index: CrossingIndex, mode: SanitizeMode) returns (r: Option<Part>)
    requires part.end <= MaxOffset(index)
    ensures IsSanitizedPart(index, part, mode, r)
  {
    hide IsSafe;
    var begin, end := part.begin, part.end;
    if mode == Expand {
      if !IsSafe(index, part.begin) {
        begin := FindLower(part.begin, index, 0);
      }
      if !IsSafe(index, part.end) {
        end := FindHigher(part.end, index, MaxOffset(index));
      }
    } else {
      if !IsSafe(index, part.begin) {
        begin := FindHigher(part.begin, index, part.end);
      }
      if !IsSafe(index, part.end) {
        end := FindLower(part.end, index, part.begin);
      }
    }
    r := if begin < end then Some(Part(begin, end)) else None;
  }

  /** The shrunk part is the largest one with safe ends, and there is one unless there is none at all. */
  lemma ShrunkIsLargest(index: CrossingIndex, part: Part, r: Option<Part>)
    requires IsShrunk(index, part, r)
    ensures forall q :: Inside(q, part) && HasSafeEnds(index, q) ==> r.Some? && Inside(q, r.value)
  {
    hide IsSafe;
  }

  /** The expanded part is the smallest one with safe ends, if there is one at all. */
  lemma ExpandedIsSmallest(index: CrossingIndex, part: Part, p: Part)
    requires IsExpanded(index, part, p) && part.end <= MaxOffset(index)
    ensures forall q :: Inside(part, q) && HasSafeEnds(index, q) && q.end <= MaxOffset(index) ==> Inside(p, q)
    ensures HasSafeEnds(index, p) <==> exists q :: Inside(part, q) && HasSafeEnds(index, q) && q.end <= MaxOffset(index)
  {
    hide IsSafe;
    forall q | Inside(part, q) && HasSafeEnds(index, q) && q.end <= MaxOffset(index)
      ensures Inside(p, q) && HasSafeEnds(index, p)
    {
    }
  }

  //
  // Lists of parts
  //

  /** Merging makes no new ends. */
  lemma MergedEnds(parts: seq<Part>, merged: seq<Part>, m: Part)
    requires Canonical(merged) && Cells(merged) == Cells(parts) && m in merged
    ensures (exists p :: p in parts && p.begin == m.begin) && (exists p :: p in parts && p.end == m.end)
  {
    hide Cells, Canonical;
    var i :| 0 <= i < |merged| && merged[i] == m;
    EdgesOfPart(merged, i);
    var a := MemberWithCell(parts, m.begin);
    var b := MemberWithCell(parts, m.end - 1);
    if HasCell(a, m.begin - 1) {
      CellOfMember(parts, a, m.begin - 1);
      assert false;
    }
    if HasCell(b, m.end) {
      CellOfMember(parts, b, m.end);
      assert false;
    }
    assert a.begin == m.begin && b.end == m.end;
  }

  /** A part of a canonical list is surrounded by gaps. */
  lemma EdgesOfPart(parts: seq<Part>, i: nat)
    requires Canonical(parts) && i < |parts|
    ensures parts[i].begin in Cells(parts) && parts[i].end - 1 in Cells(parts)
    ensures parts[i].begin - 1 !in Cells(parts) && parts[i].end !in Cells(parts)
  {
    CellsAre(parts, parts[i].begin);
    CellsAre(parts, parts[i].end - 1);
    CellsAre(parts, parts[i].begin - 1);
    CellsAre(parts, parts[i].end);
  }

  /** Every part has its result in the list, and every entry of the list is such a result. */
  ghost predicate AreSanitized(index: CrossingIndex, parts: seq<Part>, mode: SanitizeMode, list: seq<Part>) {
    && (forall p :: p in list ==> exists part :: part in parts && IsSanitizedPart(index, part, mode, Some(p)))
    && (forall part :: part in parts ==>
          (IsSanitizedPart(index, part, mode, None) || exists p :: p in list && IsSanitizedPart(index, part, mode, Some(p))))
  }

  lemma SanitizedOneMore(index: CrossingIndex, parts: seq<Part>, mode: SanitizeMode, list: seq<Part>,
                         part: Part, r: Option<Part>)
    requires AreSanitized(index, parts, mode, list) && IsSanitizedPart(index, part, mode, r)
    ensures AreSanitized(index, parts + [part], mode, if r.Some? then list + [r.value] else list)
  {
    hide IsSanitizedPart;
    var more := if r.Some? then list + [r.value] else list;
    forall p | p in more ensures exists x :: x in parts + [part] && IsSanitizedPart(index, x, mode, Some(p)) {
      if p in list {
        var x :| x in parts && IsSanitizedPart(index, x, mode, Some(p));
        assert x in parts + [part];
      } else {
        assert part in parts + [part];
      }
    }
    forall x | x in parts + [part]
      ensures IsSanitizedPart(index, x, mode, None) || exists p :: p in more && IsSanitizedPart(index, x, mode, Some(p))
    {
      if x in parts && !IsSanitizedPart(index, x, mode, None) {
        var p :| p in list && IsSanitizedPart(index, x, mode, Some(p));
        assert p in more;
      } else if x == part && r.Some? {
        assert r.value in more;
      }
    }
  }

  lemma CellsOfMember(parts: seq<Part>, p: Part)
    requires p in parts
    ensures Range(p) <= Cells(parts)
  {
    var i :| 0 <= i < |parts| && parts[i] == p;
    forall k | k in Range(p) ensures k in Cells(parts) {
      CellsAre(parts, k);
    }
  }

  /** What sanitizing makes of the selected cells. */
  ghost predicate CellsFit(parts: seq<Part>, mode: SanitizeMode, cells: set<int>) {
    if mode == Shrink then cells <= Cells(parts) else Cells(parts) <= cells
  }

  lemma MemberWithCell(parts: seq<Part>, k: int) returns (p: Part)
    requires k in Cells(parts)
    ensures p in parts && HasCell(p, k)
  {
    CellsAre(parts, k);
    var i :| 0 <= i < |parts| && parts[i].begin <= k < parts[i].end;
    p := parts[i];
  }

  lemma CellOfMember(parts: seq<Part>, p: Part, k: int)
    requires p in parts && HasCell(p, k)
    ensures k in Cells(parts)
  {
    CellsOfMember(parts, p);
    assert k in Range(p);
  }

  lemma SanitizedInside(index: CrossingIndex, part: Part, mode: SanitizeMode, p: Part)
    requires IsSanitizedPart(index, part, mode, Some(p))
    ensures if mode == Shrink then Inside(p, part) else Inside(part, p)
  {
  }

  lemma SanitizedCellsFit(index: CrossingIndex, parts: seq<Part>, mode: SanitizeMode, list: seq<Part>)
    requires AreSanitized(index, parts, mode, list)
    ensures CellsFit(parts, mode, Cells(list))
  {
    hide Cells, IsShrunk, IsExpanded;
    if mode == Shrink {
      forall k | k in Cells(list) ensures k in Cells(parts) {
        var p := MemberWithCell(list, k);
        var part :| part in parts && IsSanitizedPart(index, part, mode, Some(p));
        SanitizedInside(index, part, mode, p);
        CellOfMember(parts, part, k);
      }
    } else {
      forall k | k in Cells(parts) ensures k in Cells(list) {
        var part := MemberWithCell(parts, k);
        var p :| p in list && IsSanitizedPart(index, part, mode, Some(p));
        SanitizedInside(index, part, mode, p);
        CellOfMember(list, p, k);
      }
    }
  }

  /** After merging, still no end is at a crossing; for expanding this needs the line to end at no crossing. */
  lemma SanitizedEndsAreSafe(index: CrossingIndex, parts: seq<Part>, mode: SanitizeMode, list: seq<Part>, merged: seq<Part>)
    requires AreSanitized(index, parts, mode, list) && WithinLine(index, parts)
    requires Canonical(merged) && Cells(merged) == Cells(list)
    requires mode == Shrink || (IsSafe(index, 0) && IsSafe(index, MaxOffset(index)))
    ensures AllEndsSafe(index, merged)
  {
    hide IsSafe;
    forall m | m in merged ensures HasSafeEnds(index, m) {
      MergedEnds(list, merged, m);
      var a :| a in list && a.begin == m.begin;
      var b :| b in list && b.end == m.end;
      var x :| x in parts && IsSanitizedPart(index, x, mode, Some(a));
      var y :| y in parts && IsSanitizedPart(index, y, mode, Some(b));
      assert IsSafe(index, a.begin) && IsSafe(index, b.end);
    }
  }

  lemma SanitizedWithinLine(index: CrossingIndex, parts: seq<Part>, mode: SanitizeMode, list: seq<Part>, merged: seq<Part>)
    requires AreSanitized(index, parts, mode, list) && WithinLine(index, parts)
    requires Canonical(merged) && Cells(merged) == Cells(list)
    ensures WithinLine(index, merged)
  {
    hide IsSafe;
    forall m | m in merged ensures m.end <= MaxOffset(index) {
      MergedEnds(list, merged, m);
      var b :| b in list && b.end == m.end;
      var y :| y in parts && IsSanitizedPart(index, y, mode, Some(b));
    }
  }

  /** Shrinking keeps every sub-part with safe ends. */
  lemma ShrunkKeepsSafeParts(index: CrossingIndex, parts: seq<Part>, list: seq<Part>, q: Part)
    requires AreSanitized(index, parts, Shrink, list) && HasSafeEnds(index, q)
    requires exists part :: part in parts && Inside(q, part)
    ensures Range(q) <= Cells(list)
  {
    hide IsSafe, HasSafeEnds;
    var part :| part in parts && Inside(q, part);
    var r := if p :| p in list && IsSanitizedPart(index, part, Shrink, Some(p)) then Some(p) else None;
    ShrunkIsLargest(index, part, r);
    CellsOfMember(list, r.value);
  }

  //
  // Operations
  //

  /** The cell lies in what one of the parts becomes. */
  ghost predicate IsInSanitized(index: CrossingIndex, parts: seq<Part>, mode: SanitizeMode, k: int) {
    exists part, p :: part in parts && IsSanitizedPart(index, part, mode, Some(p)) && HasCell(p, k)
  }

  /** No end is at a crossing, except maybe where the line ends. */
  ghost predicate HasFinalEnds(index: CrossingIndex, p: Part) {
    (IsSafe(index, p.begin) || p.begin == 0) && (IsSafe(index, p.end) || p.end == MaxOffset(index))
  }

  /** A part becomes one part at most. */
  lemma SanitizedIsUnique(index: CrossingIndex, part: Part, mode: SanitizeMode, p: Part, r: Option<Part>)
    requires IsSanitizedPart(index, part, mode, Some(p)) && IsSanitizedPart(index, part, mode, r)
    ensures r == Some(p)
  {
    hide IsSafe;
    if mode == Shrink {
      assert HasSafeEnds(index, p);
    }
  }

  lemma SanitizedCellsAre(index: CrossingIndex, parts: seq<Part>, mode: SanitizeMode, list: seq<Part>)
    requires AreSanitized(index, parts, mode, list)
    ensures forall k :: k in Cells(list) <==> IsInSanitized(index, parts, mode, k)
  {
    hide Cells, IsSanitizedPart;
    forall k ensures k in Cells(list) <==> IsInSanitized(index, parts, mode, k) {
      if k in Cells(list) {
        var p := MemberWithCell(list, k);
        var part :| part in parts && IsSanitizedPart(index, part, mode, Some(p));
      }
      if part, p :| part in parts && IsSanitizedPart(index, part, mode, Some(p)) && HasCell(p, k) {
        if IsSanitizedPart(index, part, mode, None) {
          SanitizedIsUnique(index, part, mode, p, None);
          assert false;
        }
        var q :| q in list && IsSanitizedPart(index, part, mode, Some(q));
        SanitizedIsUnique(index, part, mode, p, Some(q));
        CellOfMember(list, p, k);
      }
    }
  }

  lemma SanitizedEndsAreFinal(index: CrossingIndex, parts: seq<Part>, mode: SanitizeMode, list: seq<Part>, merged: seq<Part>)
    requires AreSanitized(index, parts, mode, list)
    requires Canonical(merged) && Cells(merged) == Cells(list)
    ensures forall m :: m in merged ==> HasFinalEnds(index, m)
  {
    hide IsSafe;
    forall m | m in merged ensures HasFinalEnds(index, m) {
      MergedEnds(list, merged, m);
      var a :| a in list && a.begin == m.begin;
      var b :| b in list && b.end == m.end;
      var x :| x in parts && IsSanitizedPart(index, x, mode, Some(a));
      var y :| y in parts && IsSanitizedPart(index, y, mode, Some(b));
      assert HasFinalEnds(index, a) && HasFinalEnds(index, b);
    }
  }

  /** What the result means for the selected parts of one segment: exactly the cells of what the parts become. */
  ghost predicate IsSanitization(index: CrossingIndex, parts: seq<Part>, mode: SanitizeMode, r: seq<Part>) {
    && Canonical(r) && WithinLine(index, r)
    && (forall k :: k in Cells(r) <==> IsInSanitized(index, parts, mode, k))
    && (forall p :: p in r ==> HasFinalEnds(index, p))
    && CellsFit(parts, mode, Cells(r))
    && (mode == Shrink || (IsSafe(index, 0) && IsSafe(index, MaxOffset(index))) ==> AllEndsSafe(index, r))
    && (mode == Shrink ==>
          forall q, part :: part in parts && Inside(q, part) && HasSafeEnds(index, q) ==> Range(q) <= Cells(r))
  }

  lemma SanitizedIsSanitization(index: CrossingIndex, parts: seq<Part>, mode: SanitizeMode, list: seq<Part>, merged: seq<Part>)
    requires AreSanitized(index, parts, mode, list) && WithinLine(index, parts)
    requires Canonical(merged) && Cells(merged) == Cells(list)
    ensures IsSanitization(index, parts, mode, merged)
  {
    hide IsSafe, AreSanitized, Cells, Canonical, AllEndsSafe, WithinLine, Range, HasSafeEnds, HasFinalEnds, IsInSanitized;
    SanitizedCellsAre(index, parts, mode, list);
    SanitizedEndsAreFinal(index, parts, mode, list, merged);
    SanitizedCellsFit(index, parts, mode, list);
    SanitizedWithinLine(index, parts, mode, list, merged);
    if mode == Shrink || (IsSafe(index, 0) && IsSafe(index, MaxOffset(index))) {
      SanitizedEndsAreSafe(index, parts, mode, list, merged);
    }
    if mode == Shrink {
      forall q, part | part in parts && Inside(q, part) && HasSafeEnds(index, q) ensures Range(q) <= Cells(merged) {
        ShrunkKeepsSafeParts(index, parts, list, q);
      }
    }
  }

  method FindSanitizedParts(parts: seq<Part>, index: CrossingIndex, mode: SanitizeMode) returns (r: seq<Part>)
    requires WithinLine(index, parts)
    ensures IsSanitization(index, parts, mode, r)
  {
    hide IsSanitizedPart, IsSanitization, Cells, Canonical, IsSafe;
    var newParts: seq<Part> := [];
    NothingSanitized(index, mode);
    for i := 0 to |parts|
      invariant AreSanitized(index, parts[..i], mode, newParts)
    {
      assert parts[i] in parts && parts[..i + 1] == parts[..i] + [parts[i]];
      var newPart := FindSanitizedPart(parts[i], index, mode);
      SanitizedOneMore(index, parts[..i], mode, newParts, parts[i], newPart);
      if newPart.Some? {
        newParts := newParts + [newPart.value];
      }
    }
    assert parts[..|parts|] == parts;
    var selection := new PartSelection.FromParts(newParts);
    SanitizedIsSanitization(index, parts, mode, newParts, selection.parts);
    return selection.parts;
  }

  lemma NothingSanitized(index: CrossingIndex, mode: SanitizeMode)
    ensures AreSanitized(index, [], mode, [])
  {
  }

  method AnyColliding(parts: seq<Part>, index: CrossingIndex) returns (colliding: bool)
    ensures colliding <==> !AllEndsSafe(index, parts)
  {
    hide IsSafe;
    for i := 0 to |parts|
      invariant forall j :: 0 <= j < i ==> HasSafeEnds(index, parts[j])
    {
      if !HasSafeEnds(index, parts[i]) {
        assert parts[i] in parts;
        return true;
      }
    }
    return false;
  }

  /** The lines of the segments, and the points where wires cross. */
  datatype Layout = Layout(lines: map<Segment, OrderedLine>, crossings: set<Point>)

  predicate IsInserted(s: Segment) { s.wire >= FIRST_INSERTED_WIRE }

  function IndexOf(layout: Layout, s: Segment): CrossingIndex
    requires s in layout.lines
  {
    CrossingIndex(layout.crossings, layout.lines[s])
  }

  /** Selected parts lie within their lines. */
  ghost predicate FitsLayout(selected: map<Segment, seq<Part>>, layout: Layout) {
    forall s :: s in selected ==> s in layout.lines && WithinLine(IndexOf(layout, s), selected[s])
  }

  ghost predicate NeedsSanitizing(parts: seq<Part>, layout: Layout, s: Segment)
    requires s in layout.lines
  {
    IsInserted(s) && !AllEndsSafe(IndexOf(layout, s), parts)
  }

  /** New parts if the segment needs them. */
  method NewSanitizeParts(s: Segment, parts: seq<Part>, layout: Layout, mode: SanitizeMode) returns (r: Option<seq<Part>>)
    requires s in layout.lines && WithinLine(IndexOf(layout, s), parts)
    ensures r.Some? <==> NeedsSanitizing(parts, layout, s)
    ensures r.Some? ==> IsSanitization(IndexOf(layout, s), parts, mode, r.value)
  {
    hide IsSanitization, AllEndsSafe;
    if !IsInserted(s) {
      return None;
    }
    var index := IndexOf(layout, s);
    var colliding := AnyColliding(parts, index);
    if colliding {
      var found := FindSanitizedParts(parts, index, mode);
      return Some(found);
    }
    return None;
  }

  /** The entry of one segment after sanitizing: unchanged, or sanitized, and gone if nothing is left. */
  ghost predicate EntryIsSanitized(was: map<Segment, seq<Part>>, now: map<Segment, seq<Part>>,
                                   layout: Layout, mode: SanitizeMode, s: Segment)
    requires FitsLayout(was, layout)
  {
    if s !in was then s !in now
    else if !NeedsSanitizing(was[s], layout, s) then s in now && now[s] == was[s]
    else IsSanitization(IndexOf(layout, s), was[s], mode, if s in now then now[s] else [])
  }

  /** Entries that were handled are sanitized; the ones that become empty wait for their deletion. */
  ghost predicate HandledSoFar(was: map<Segment, seq<Part>>, now: map<Segment, seq<Part>>, layout: Layout, mode: SanitizeMode,
                               todo: set<Segment>, toDelete: seq<Segment>)
    requires FitsLayout(was, layout)
  {
    && now.Keys == was.Keys && todo <= was.Keys
    && NoDuplicates(toDelete)
    && (forall s :: s in todo ==> now[s] == was[s] && s !in toDelete)
    && (forall s :: s in toDelete ==>
          s in was && NeedsSanitizing(was[s], layout, s) && IsSanitization(IndexOf(layout, s), was[s], mode, []))
    && (forall s :: s in was && s !in todo && s !in toDelete ==> EntryIsSanitized(was, now, layout, mode, s))
  }

  lemma HandledOneMore(was: map<Segment, seq<Part>>, now: map<Segment, seq<Part>>, layout: Layout, mode: SanitizeMode,
                       todo: set<Segment>, toDelete: seq<Segment>, s: Segment, r: Option<seq<Part>>)
    requires FitsLayout(was, layout) && HandledSoFar(was, now, layout, mode, todo, toDelete) && s in todo
    requires r.Some? <==> NeedsSanitizing(was[s], layout, s)
    requires r.Some? ==> IsSanitization(IndexOf(layout, s), was[s], mode, r.value)
    ensures HandledSoFar(was, if r.Some? && r.value != [] then now[s := r.value] else now, layout, mode, todo - {s},
                         if r.Some? && r.value == [] then toDelete + [s] else toDelete)
  {
    hide IsSanitization, NeedsSanitizing, WithinLine;
  }

  /**
   Shrinking keeps as much as possible with safe ends, expanding adds as little as possible. A segment without crossings
   at the ends of its parts stays as it is.
   */
  method SanitizeSelection(selection: Selection, layout: Layout, mode: SanitizeMode)
    requires selection.Valid() && FitsLayout(selection.selectedSegments, layout)
    modifies selection
    ensures selection.Valid()
    ensures forall s :: EntryIsSanitized(old(selection.selectedSegments), selection.selectedSegments, layout, mode, s)
  {
    hide WellKept, FitsLayout, EntryIsSanitized, IsSanitization, NeedsSanitizing, Canonical, Cells;
    var entries := selection.selectedSegments;
    var todo, toDelete: seq<Segment> := entries.Keys, [];
    SanitizingStarts(entries, layout, mode);
    while todo != {}
      invariant selection.Valid()
      invariant HandledSoFar(entries, selection.selectedSegments, layout, mode, todo, toDelete)
    {
      var s :| s in todo;
      EntryFits(entries, layout, s);
      var newParts := NewSanitizeParts(s, entries[s], layout, mode);
      HandledOneMore(entries, selection.selectedSegments, layout, mode, todo, toDelete, s, newParts);
      if newParts.Some? {
        SanitizationIsCanonical(IndexOf(layout, s), entries[s], mode, newParts.value);
        if newParts.value == [] {
          toDelete := toDelete + [s];
        } else {
          selection.SetSelection(s, newParts.value);
        }
      }
      todo := todo - {s};
    }
    ghost var handled := selection.selectedSegments;
    for i := 0 to |toDelete|
      invariant selection.Valid()
      invariant forall s :: s in selection.selectedSegments <==> s in handled && s !in toDelete[..i]
      invariant forall s :: s in selection.selectedSegments ==> selection.selectedSegments[s] == handled[s]
    {
      EmptyIsCanonical();
      assert toDelete[i] in toDelete && toDelete[i] !in toDelete[..i];
      selection.SetSelection(toDelete[i], []);
    }
    assert toDelete[..|toDelete|] == toDelete;
    DeletedAreSanitized(entries, handled, selection.selectedSegments, layout, mode, toDelete);
  }

  lemma EmptyIsCanonical()
    ensures Canonical([])
  {
  }

  lemma SanitizingStarts(was: map<Segment, seq<Part>>, layout: Layout, mode: SanitizeMode)
    requires FitsLayout(was, layout)
    ensures HandledSoFar(was, was, layout, mode, was.Keys, [])
  {
  }

  lemma EntryFits(was: map<Segment, seq<Part>>, layout: Layout, s: Segment)
    requires FitsLayout(was, layout) && s in was
    ensures s in layout.lines && WithinLine(IndexOf(layout, s), was[s])
  {
  }

  lemma SanitizationIsCanonical(index: CrossingIndex, parts: seq<Part>, mode: SanitizeMode, r: seq<Part>)
    requires IsSanitization(index, parts, mode, r)
    ensures Canonical(r)
  {
  }

  lemma DeletedAreSanitized(was: map<Segment, seq<Part>>, handled: map<Segment, seq<Part>>, now: map<Segment, seq<Part>>,
                            layout: Layout, mode: SanitizeMode, toDelete: seq<Segment>)
    requires FitsLayout(was, layout) && HandledSoFar(was, handled, layout, mode, {}, toDelete)
    requires forall s :: s in now <==> s in handled && s !in toDelete
    requires forall s :: s in now ==> now[s] == handled[s]
    ensures forall s :: EntryIsSanitized(was, now, layout, mode, s)
  {
    hide IsSanitization, NeedsSanitizing, FitsLayout;
    forall s ensures EntryIsSanitized(was, now, layout, mode, s) {
      if s in was && s !in toDelete {
        assert EntryIsSanitized(was, handled, layout, mode, s);
      }
    }
  }

  /** Expanding parts whose ends are final changes nothing. */
  lemma FinalPartsStay(index: CrossingIndex, parts: seq<Part>, r: seq<Part>)
    requires Canonical(parts) && WithinLine(index, parts) && forall p :: p in parts ==> HasFinalEnds(index, p)
    requires IsSanitization(index, parts, Expand, r)
    ensures r == parts
  {
    hide Cells, Canonical, IsSafe, CellsFit, AllEndsSafe;
    forall p | p in parts ensures IsSanitizedPart(index, p, Expand, Some(p)) {
    }
    forall k ensures k in Cells(r) <==> k in Cells(parts) {
      assert k in Cells(r) <==> IsInSanitized(index, parts, Expand, k);
      if k in Cells(parts) {
        var p := MemberWithCell(parts, k);
        assert IsSanitizedPart(index, p, Expand, Some(p));
      }
      if part, p :| part in parts && IsSanitizedPart(index, part, Expand, Some(p)) && HasCell(p, k) {
        SanitizedIsUnique(index, part, Expand, part, Some(p));
        CellOfMember(parts, part, k);
      }
    }
    CanonicalIsUnique(r, parts);
  }

  lemma SanitizedTwice(index: CrossingIndex, parts: seq<Part>, mode: SanitizeMode, once: seq<Part>, twice: seq<Part>)
    requires IsSanitization(index, parts, mode, once) && !AllEndsSafe(index, once)
    requires IsSanitization(index, once, mode, twice)
    ensures twice == once
  {
    FinalPartsStay(index, once, twice);
  }

  /** Sanitizing a sanitized selection again changes nothing, also on lines that end at crossings. */
  lemma SanitizingIsIdempotent(was: map<Segment, seq<Part>>, once: map<Segment, seq<Part>>, twice: map<Segment, seq<Part>>,
                               layout: Layout, mode: SanitizeMode)
    requires FitsLayout(was, layout) && FitsLayout(once, layout)
    requires forall s :: EntryIsSanitized(was, once, layout, mode, s)
    requires forall s :: EntryIsSanitized(once, twice, layout, mode, s)
    ensures twice == once
  {
    hide IsSanitization, WithinLine, HasSafeEnds;
    forall s ensures s in once <==> s in twice
             ensures s in once ==> twice[s] == once[s]
    {
      assert EntryIsSanitized(was, once, layout, mode, s) && EntryIsSanitized(once, twice, layout, mode, s);
      if s in once && NeedsSanitizing(once[s], layout, s) {
        SanitizedTwice(IndexOf(layout, s), was[s], mode, once[s], if s in twice then twice[s] else []);
      }
    }
  }
}
