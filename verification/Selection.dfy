/**
 A selection of segment parts that follows a stream of layout messages. Its meaning is the set of selected
 places: pairs of a segment and a unit cell of it.
 */
module Selections {
  import opened Wrappers
  import opened PartSelections
  import opened ShiftedSets
  import opened Geometry
  import opened LayoutMessages
  import opened MessageValidators

  /** The selected cells of each selected segment. */
  type Contents = map<Segment, set<int>>

  ghost predicate NoneEmpty(c: Contents) {
    forall s :: s in c ==> c[s] != {}
  }

  /** Entries without cells are not kept. */
  ghost function WithCells(c: Contents, s: Segment, cells: set<int>): Contents {
    if cells == {} then c - {s} else c[s := cells]
  }

  ghost function CellsAt(c: Contents, s: Segment): set<int> {
    if s in c then c[s] else {}
  }

  ghost function FollowIdUpdated(c: Contents, new_: Segment, old_: Segment): Option<Contents> {
    if old_ !in c then Some(c)
    else if new_ in c - {old_} then None
    else Some((c - {old_})[new_ := c[old_]])
  }

  ghost function FollowPartMoved(c: Contents, destination: SegmentPart, source: SegmentPart): Option<Contents> {
    var s, d := source.segment, destination.segment;
    var def := CopyDefinition(destination.part, source.part);
    if s !in c then Some(c)
    else if Distance(destination.part) != Distance(source.part) then None
    else if s == d then
      var cells := (c[s] - Range(source.part)) + CopiedCells(c[s], def);
      if cells == {} then None else Some(c[s := cells])
    else
      var rest := WithCells(c, s, c[s] - Range(source.part));
      var moved := CellsAt(c, d) + CopiedCells(c[s], def);
      if moved == {} then Some(rest) else Some(rest[d := moved])
  }

  ghost function FollowRemoved(c: Contents, s: Segment, part: Part): Contents {
    if s in c then WithCells(c, s, c[s] - Range(part)) else c
  }

  /** What a message does to the selected cells, or None when a contract of the selection fails. */
  ghost function Follow(c: Contents, m: Message): Option<Contents> {
    match m
    case SegmentIdUpdated(new_, old_) => FollowIdUpdated(c, new_, old_)
    case SegmentPartMoved(destination, source, _, _) => FollowPartMoved(c, destination, source)
    case SegmentPartDeleted(segmentPart, _) => Some(FollowRemoved(c, segmentPart.segment, segmentPart.part))
    case _ => Some(c)
  }

  ghost function FollowAll(c: Contents, messages: seq<Message>): Option<Contents>
    decreases |messages|
  {
    if messages == [] then Some(c)
    else
      var next := Follow(c, messages[0]);
      if next.None? then None else FollowAll(next.value, messages[1..])
  }

  //
  // Following the messages that the validator accepts
  //

  /** Only known segments are selected, and only cells of their current parts. */
  ghost predicate Fits(v: State, c: Contents) {
    NoneEmpty(c) && forall s :: s in c ==> s in v.all && c[s] <= Range(v.all[s].part)
  }

  /** A deletion that names all of the segment that it deletes. */
  ghost predicate DeletesWhole(v: State, m: Message) {
    m.SegmentPartDeleted? && m.segmentPart.segment in v.all ==>
      Inside(v.all[m.segmentPart.segment].part, m.segmentPart.part)
  }

  ghost predicate AllDeleteWhole(v: State, messages: seq<Message>)
    requires AcceptAll(v, messages).Some?
    decreases |messages|
  {
    messages == [] || (DeletesWhole(v, messages[0]) && AllDeleteWhole(Accept(v, messages[0]).value, messages[1..]))
  }

  lemma CopiedAre(cells: set<int>, def: CopyDefinition, k: int)
    ensures k in CopiedCells(cells, def) <==>
      var from := k - (def.destination.begin - def.source.begin);
      from in cells && HasCell(def.source, from)
  {
    var shift := def.destination.begin - def.source.begin;
    if k - shift in cells && HasCell(def.source, k - shift) {
      assert k - shift in cells * Range(def.source);
    }
  }

  lemma CopiedFit(cells: set<int>, def: CopyDefinition)
    requires Distance(def.destination) == Distance(def.source)
    ensures CopiedCells(cells, def) <= Range(def.destination)
    ensures cells <= Range(def.source) && cells != {} ==> CopiedCells(cells, def) != {}
  {
    forall k | k in CopiedCells(cells, def) ensures k in Range(def.destination) {
      CopiedAre(cells, def, k);
    }
    if cells <= Range(def.source) && cells != {} {
      var k := Pick(cells);
      CopiedAre(cells, def, k + (def.destination.begin - def.source.begin));
    }
  }

  lemma MovedWithinFits(v: State, c: Contents, m: Message)
    requires m.SegmentPartMoved? && m.source.segment == m.destination.segment
    requires Accept(v, m).Some? && Fits(v, c)
    ensures Follow(c, m).Some? && Fits(Accept(v, m).value, Follow(c, m).value)
  {
    var s := m.source.segment;
    if s in c {
      var def := CopyDefinition(m.destination.part, m.source.part);
      CopiedFit(c[s], def);
      hide Range, CopiedCells;
      assert c[s] - Range(m.source.part) == {};
    }
  }

  lemma ShrunkKeeps(full: Part, moved: Part, cells: set<int>)
    requires cells <= Range(full) && !ShrinkSource(full, moved).NotAtAnEnd?
    ensures ShrinkSource(full, moved).Gone? ==> cells - Range(moved) == {}
    ensures ShrinkSource(full, moved).Left? ==> cells - Range(moved) <= Range(ShrinkSource(full, moved).part)
  {
  }

  lemma GrownKeeps(full: Part, added: Part)
    requires ExpandDestination(full, added).Some?
    ensures Range(full) <= Range(ExpandDestination(full, added).value)
    ensures Range(added) <= Range(ExpandDestination(full, added).value)
    ensures Range(full) !! Range(added)
  {
  }

  lemma MovedBetweenFits(v: State, c: Contents, m: Message)
    requires m.SegmentPartMoved? && m.source.segment != m.destination.segment
    requires Accept(v, m).Some? && Fits(v, c)
    ensures Follow(c, m).Some? && Fits(Accept(v, m).value, Follow(c, m).value)
  {
    var s, d := m.source.segment, m.destination.segment;
    var now := Accept(v, m).value;
    if d in v.all {
      GrownKeeps(v.all[d].part, m.destination.part);
    }
    if s in c {
      CopiedFit(c[s], CopyDefinition(m.destination.part, m.source.part));
      ShrunkKeeps(v.all[s].part, m.source.part, c[s]);
    }
    hide Range, CopiedCells;
  }

  /** Unless a deletion names less than the segment it deletes, an accepted message keeps selection and validator in step. */
  lemma FollowFits(v: State, c: Contents, m: Message)
    requires Accept(v, m).Some? && Fits(v, c) && DeletesWhole(v, m)
    ensures Follow(c, m).Some? && Fits(Accept(v, m).value, Follow(c, m).value)
  {
    match m
    case SegmentPartMoved(destination, source, _, _) =>
      if source.segment == destination.segment {
        MovedWithinFits(v, c, m);
      } else {
        MovedBetweenFits(v, c, m);
      }
    case _ =>
  }

  /** For every accepted stream no contract of the selection fails, and it only names what exists. */
  lemma {:induction false} FollowAllFits(v: State, c: Contents, messages: seq<Message>)
    requires AcceptAll(v, messages).Some? && AllDeleteWhole(v, messages) && Fits(v, c)
    ensures FollowAll(c, messages).Some? && Fits(AcceptAll(v, messages).value, FollowAll(c, messages).value)
    decreases |messages|
  {
    if messages != [] {
      FollowFits(v, c, messages[0]);
      FollowAllFits(Accept(v, messages[0]).value, Follow(c, messages[0]).value, messages[1..]);
    }
  }

  /** Exactly the deletions that name the whole segment keep every fitting selection in step. */
  lemma DeletionFitsIff(v: State, m: Message)
    requires m.SegmentPartDeleted? && Accept(v, m).Some?
    ensures (forall c :: Fits(v, c) ==> Follow(c, m).Some? && Fits(Accept(v, m).value, Follow(c, m).value))
      <==> DeletesWhole(v, m)
  {
    if DeletesWhole(v, m) {
      forall c | Fits(v, c) ensures Follow(c, m).Some? && Fits(Accept(v, m).value, Follow(c, m).value) {
        FollowFits(v, c, m);
      }
    } else {
      var s, part := m.segmentPart.segment, m.segmentPart.part;
      var full := v.all[s].part;
      var c: Contents := map[s := Range(full)];
      assert full.begin in Range(full);
      var left := if full.begin < part.begin then full.begin else full.end - 1;
      assert left in Range(full) - Range(part);
      assert Fits(v, c) && s in Follow(c, m).value;
    }
  }

  lemma AcceptFirst(v: State, m: Message, rest: seq<Message>)
    requires Accept(v, m).Some?
    ensures AcceptAll(v, [m] + rest) == AcceptAll(Accept(v, m).value, rest)
  {
    hide Accept;
    assert ([m] + rest)[1..] == rest;
  }

  /** A deletion of half a segment is accepted, the other half stays selected, and a later rename then fails. */
  lemma PartialDeletionIsAccepted()
    ensures var a, b := Segment(0, 0), Segment(0, 1);
      var messages := [SegmentCreated(a, 2), SegmentCreated(b, 2),
                       SegmentPartDeleted(SegmentPart(a, Part(0, 1)), true), SegmentIdUpdated(a, b)];
      var c: Contents := map[a := {0, 1}, b := {0, 1}];
      && AcceptAll(EMPTY_STATE, messages).Some?
      && AcceptAll(EMPTY_STATE, messages[..2]).Some? && Fits(AcceptAll(EMPTY_STATE, messages[..2]).value, c)
      && FollowAll(c, messages[2..]).None?
  {
    var a, b := Segment(0, 0), Segment(0, 1);
    var m0, m1 := SegmentCreated(a, 2), SegmentCreated(b, 2);
    var m2, m3 := SegmentPartDeleted(SegmentPart(a, Part(0, 1)), true), SegmentIdUpdated(a, b);
    var messages := [m0, m1, m2, m3];
    var v1 := Accept(EMPTY_STATE, m0).value;
    var v2 := Accept(v1, m1).value;
    var v3 := Accept(v2, m2).value;
    assert Accept(v3, m3).Some?;
    AcceptFirst(v3, m3, []);
    AcceptFirst(v2, m2, [m3]);
    AcceptFirst(v1, m1, [m2, m3]);
    AcceptFirst(EMPTY_STATE, m0, [m1, m2, m3]);
    AcceptFirst(v1, m1, []);
    AcceptFirst(EMPTY_STATE, m0, [m1]);
    assert messages == [m0] + [m1, m2, m3] && [m1, m2, m3] == [m1] + [m2, m3] && [m2, m3] == [m2] + [m3] && [m3] == [m3] + [];
    assert messages[..2] == [m0] + [m1] && [m1] == [m1] + [];
    var c: Contents := map[a := {0, 1}, b := {0, 1}];
    assert Range(Part(0, 2)) == {0, 1} by {
      assert forall k :: HasCell(Part(0, 2), k) <==> k == 0 || k == 1;
    }
    assert 1 in c[a] - Range(Part(0, 1));
    assert messages[2..] == [m2, m3];
    assert a in Follow(c, m2).value;
  }

  //
  // A validator that compares deleted parts with the segment
  //

  /** Deletions shrink the segment the way moves shrink their source. */
  function AcceptComparing(v: State, m: Message): Option<State> {
    if !m.SegmentPartDeleted? then Accept(v, m)
    else
      var s := m.segmentPart.segment;
      if s !in v.all || s in v.inserted then None
      else
        var shrunk := ShrinkSource(v.all[s].part, m.segmentPart.part);
        if shrunk.NotAtAnEnd? || shrunk.Gone? != m.deleteSegment then None
        else Some(v.(all := if shrunk.Gone? then v.all - {s} else v.all[s := v.all[s].(part := shrunk.part)]))
  }

  function AcceptAllComparing(v: State, messages: seq<Message>): Option<State>
    decreases |messages|
  {
    if messages == [] then Some(v)
    else
      var next := AcceptComparing(v, messages[0]);
      if next.None? then None else AcceptAllComparing(next.value, messages[1..])
  }

  /** Neither validator looks at the part, or both look at the same thing. */
  predicate DeletionIsClear(v: State, deleted: SegmentPart, deleteSegment: bool) {
    || deleted.segment !in v.all || deleted.segment in v.inserted
    || deleted.part == v.all[deleted.segment].part
    || (!deleteSegment && ShrinkSource(v.all[deleted.segment].part, deleted.part).NotAtAnEnd?)
  }

  /**
   The comparison makes a difference exactly for deletions, of a segment that may be deleted, that name another part
   than the whole segment, unless both validators refuse them: the part is not at an end, and the segment should stay.
   */
  lemma ComparingAgreesIff(v: State, m: Message)
    ensures AcceptComparing(v, m) == Accept(v, m) <==>
      (m.SegmentPartDeleted? ==> DeletionIsClear(v, m.segmentPart, m.deleteSegment))
  {
    if m.SegmentPartDeleted? && m.segmentPart.segment in v.all {
      var s := m.segmentPart.segment;
      assert s !in v.all - {s};
    }
  }

  /** A deletion of half a segment that leaves the other half is refused, although its announcement is right. */
  lemma PartialDeletionIsRefused()
    ensures var a := Segment(0, 0);
      var messages := [SegmentCreated(a, 2), SegmentPartDeleted(SegmentPart(a, Part(0, 1)), false)];
      && AcceptAll(EMPTY_STATE, messages).None?
      && AcceptAllComparing(EMPTY_STATE, messages) == Some(State(map[a := Known(0, Part(1, 2))], map[], 1))
  {
    var a := Segment(0, 0);
    var m0, m1 := SegmentCreated(a, 2), SegmentPartDeleted(SegmentPart(a, Part(0, 1)), false);
    var messages := [m0, m1];
    assert messages[1..] == [m1] && [m1][1..] == [];
    var v := Accept(EMPTY_STATE, m0).value;
    assert v.all == map[a := Known(0, Part(0, 2))];
    assert Accept(v, m1).None? && AcceptAll(v, [m1]).None?;
    var next := AcceptComparing(v, m1).value;
    assert next.all == map[a := Known(0, Part(1, 2))];
    assert AcceptAllComparing(next, []) == Some(next) && AcceptAllComparing(v, [m1]) == Some(next);
  }

  lemma ComparingFits(v: State, c: Contents, m: Message)
    requires AcceptComparing(v, m).Some? && Fits(v, c)
    ensures Follow(c, m).Some? && Fits(AcceptComparing(v, m).value, Follow(c, m).value)
  {
    if m.SegmentPartDeleted? {
      var s := m.segmentPart.segment;
      if s in c {
        ShrunkKeeps(v.all[s].part, m.segmentPart.part, c[s]);
      }
      hide Range, ShrinkSource;
    } else {
      FollowFits(v, c, m);
    }
  }

  /** With the comparison, a selection stays in step on every accepted stream. */
  lemma {:induction false} ComparingAllFits(v: State, c: Contents, messages: seq<Message>)
    requires AcceptAllComparing(v, messages).Some? && Fits(v, c)
    ensures FollowAll(c, messages).Some? && Fits(AcceptAllComparing(v, messages).value, FollowAll(c, messages).value)
    decreases |messages|
  {
    hide AcceptComparing, Follow, Fits;
    if messages != [] {
      ComparingFits(v, c, messages[0]);
      ComparingAllFits(AcceptComparing(v, messages[0]).value, Follow(c, messages[0]).value, messages[1..]);
    }
  }

  //
  // What happens to each selected place
  //

  datatype Place = Place(segment: Segment, cell: int)

  ghost predicate Selected(c: Contents, p: Place) {
    p.segment in c && p.cell in c[p.segment]
  }

  /** Where a message moves a place of the layout. */
  function Relabel(m: Message, p: Place): Place {
    match m
    case SegmentIdUpdated(new_, old_) => if p.segment == old_ then Place(new_, p.cell) else p
    case SegmentPartMoved(destination, source, _, _) =>
      if p.segment == source.segment && HasCell(source.part, p.cell)
      then Place(destination.segment, p.cell - source.part.begin + destination.part.begin)
      else p
    case _ => p
  }

  /** The place whose contents a message brings to p, if any. */
  function Origin(m: Message, p: Place): Option<Place> {
    match m
    case SegmentIdUpdated(new_, old_) =>
      if p.segment == new_ then Some(Place(old_, p.cell)) else if p.segment == old_ then None else Some(p)
    case SegmentPartMoved(destination, source, _, _) =>
      if p.segment == destination.segment && HasCell(destination.part, p.cell)
      then Some(Place(source.segment, p.cell - destination.part.begin + source.part.begin))
      else if p.segment == source.segment && HasCell(source.part, p.cell) then None
      else Some(p)
    case SegmentPartDeleted(segmentPart, _) =>
      if p.segment == segmentPart.segment && HasCell(segmentPart.part, p.cell) then None else Some(p)
    case _ => Some(p)
  }

  lemma MovedWithinRelabels(v: State, c: Contents, m: Message, p: Place)
    requires m.SegmentPartMoved? && m.source.segment == m.destination.segment
    requires Accept(v, m).Some? && Fits(v, c) && Follow(c, m).Some?
    ensures Selected(Follow(c, m).value, p) <==> Origin(m, p).Some? && Selected(c, Origin(m, p).value)
  {
    var s := m.source.segment;
    if s in c {
      CopiedAre(c[s], CopyDefinition(m.destination.part, m.source.part), p.cell);
      assert forall k :: k in c[s] ==> HasCell(m.source.part, k);
      hide CopiedCells;
      assert s == p.segment ==> (Selected(Follow(c, m).value, p) <==>
        p.cell in CopiedCells(c[s], CopyDefinition(m.destination.part, m.source.part)));
    }
  }

  /** Before a move nothing is selected where it moves to. */
  lemma DestinationIsFree(v: State, c: Contents, m: Message, k: int)
    requires m.SegmentPartMoved? && m.source.segment != m.destination.segment
    requires Accept(v, m).Some? && Fits(v, c) && HasCell(m.destination.part, k)
    ensures k !in CellsAt(c, m.destination.segment)
  {
    var d := m.destination.segment;
    if d in v.all {
      GrownKeeps(v.all[d].part, m.destination.part);
      assert k in Range(m.destination.part);
    }
  }

  lemma MovedBetweenRelabels(v: State, c: Contents, m: Message, p: Place)
    requires m.SegmentPartMoved? && m.source.segment != m.destination.segment
    requires Accept(v, m).Some? && Fits(v, c) && Follow(c, m).Some?
    ensures Selected(Follow(c, m).value, p) <==> Origin(m, p).Some? && Selected(c, Origin(m, p).value)
  {
    var s, d := m.source.segment, m.destination.segment;
    var def := CopyDefinition(m.destination.part, m.source.part);
    if p.segment == d && HasCell(m.destination.part, p.cell) {
      DestinationIsFree(v, c, m, p.cell);
    }
    if s in c {
      CopiedAre(c[s], def, p.cell);
      assert p.cell in Range(m.source.part) <==> HasCell(m.source.part, p.cell);
      hide CopiedCells, Fits, Accept, Range;
      var now := Follow(c, m).value;
      if p.segment == d {
        assert Selected(now, p) <==> p.cell in CellsAt(c, d) + CopiedCells(c[s], def);
      } else if p.segment == s {
        assert Selected(now, p) <==> p.cell in c[s] - Range(m.source.part);
      } else {
        assert Selected(now, p) <==> Selected(c, p);
      }
    } else {
      assert p.segment == d && HasCell(m.destination.part, p.cell) ==> !Selected(c, p);
    }
  }

  lemma RemovedRelabels(c: Contents, s: Segment, part: Part, p: Place)
    ensures Selected(FollowRemoved(c, s, part), p) <==> Selected(c, p) && !(p.segment == s && HasCell(part, p.cell))
  {
    if s in c && p.segment == s {
      var cells := c[s] - Range(part);
      assert p.cell in cells <==> p.cell in c[s] && !HasCell(part, p.cell);
      assert Selected(WithCells(c, s, cells), p) <==> p.cell in cells;
    }
  }

  /** The selection can follow: a renamed entry does not meet another one, and a moved part keeps its length. */
  ghost predicate CanFollow(c: Contents, m: Message) {
    match m
    case SegmentIdUpdated(new_, old_) => old_ in c && new_ in c ==> new_ == old_
    case SegmentPartMoved(destination, source, _, _) =>
      source.segment in c ==>
        destination.part.end - destination.part.begin == source.part.end - source.part.begin
    case _ => true
  }

  /** The place is selected after the message: what a move or a new name brings there, and what was there and stays. */
  ghost predicate SelectedAfter(c: Contents, m: Message, p: Place) {
    match m
    case SegmentIdUpdated(new_, old_) =>
      if old_ !in c then Selected(c, p)
      else if p.segment == new_ then Selected(c, Place(old_, p.cell))
      else p.segment != old_ && Selected(c, p)
    case SegmentPartMoved(destination, source, _, _) =>
      || (p.segment == destination.segment && HasCell(destination.part, p.cell)
          && Selected(c, Place(source.segment, p.cell - destination.part.begin + source.part.begin)))
      || (Selected(c, p) && !(p.segment == source.segment && HasCell(source.part, p.cell)))
    case SegmentPartDeleted(deleted, _) =>
      Selected(c, p) && !(p.segment == deleted.segment && HasCell(deleted.part, p.cell))
    case _ => Selected(c, p)
  }

  lemma MovedCells(c: Contents, destination: SegmentPart, source: SegmentPart, p: Place)
    requires FollowPartMoved(c, destination, source).Some?
    ensures source.segment in c ==>
      destination.part.end - destination.part.begin == source.part.end - source.part.begin
    ensures Selected(FollowPartMoved(c, destination, source).value, p) <==>
      SelectedAfter(c, SegmentPartMoved(destination, source, false, false), p)
  {
    var s, d := source.segment, destination.segment;
    var def := CopyDefinition(destination.part, source.part);
    if s in c {
      CopiedAre(c[s], def, p.cell);
      assert p.cell in Range(source.part) <==> HasCell(source.part, p.cell);
      hide CopiedCells, Range;
      var now := FollowPartMoved(c, destination, source).value;
      var rest, moved := c[s] - Range(source.part), CopiedCells(c[s], def);
      if p.segment == d {
        assert Selected(now, p) <==> p.cell in (if s == d then rest else CellsAt(c, d)) + moved;
      } else if p.segment == s {
        assert Selected(now, p) <==> p.cell in rest;
      } else {
        assert Selected(now, p) <==> Selected(c, p);
      }
    }
  }

  lemma MovedIff(c: Contents, destination: SegmentPart, source: SegmentPart)
    requires NoneEmpty(c)
    ensures FollowPartMoved(c, destination, source).Some? <==>
      (source.segment in c ==> destination.part.end - destination.part.begin == source.part.end - source.part.begin)
  {
    var s := source.segment;
    var def := CopyDefinition(destination.part, source.part);
    if s in c && Distance(destination.part) == Distance(source.part) {
      var k := Pick(c[s]);
      CopiedAre(c[s], def, k + (destination.part.begin - source.part.begin));
      assert k in c[s] - Range(source.part) || k + (destination.part.begin - source.part.begin) in CopiedCells(c[s], def);
    }
  }

  /** Following succeeds exactly if it can, and selects exactly the places that the message leaves or brings there. */
  lemma FollowedIff(c: Contents, m: Message)
    requires NoneEmpty(c)
    ensures Follow(c, m).Some? <==> CanFollow(c, m)
    ensures Follow(c, m).Some? ==> forall p :: Selected(Follow(c, m).value, p) <==> SelectedAfter(c, m, p)
  {
    hide FollowPartMoved, FollowRemoved, Range;
    if m.SegmentPartMoved? {
      MovedIff(c, m.destination, m.source);
    }
    if Follow(c, m).Some? {
      forall p ensures Selected(Follow(c, m).value, p) <==> SelectedAfter(c, m, p) {
        if m.SegmentPartMoved? {
          MovedCells(c, m.destination, m.source, p);
        } else if m.SegmentPartDeleted? {
          RemovedRelabels(c, m.segmentPart.segment, m.segmentPart.part, p);
        }
      }
    }
  }

  /** A place is selected afterwards if and only if the place it came from was selected. */
  lemma FollowRelabels(v: State, c: Contents, m: Message, p: Place)
    requires Accept(v, m).Some? && Fits(v, c) && Follow(c, m).Some?
    ensures Selected(Follow(c, m).value, p) <==> Origin(m, p).Some? && Selected(c, Origin(m, p).value)
  {
    match m
    case SegmentPartMoved(destination, source, _, _) =>
      if source.segment == destination.segment {
        MovedWithinRelabels(v, c, m, p);
      } else {
        MovedBetweenRelabels(v, c, m, p);
      }
    case SegmentIdUpdated(new_, old_) =>
      assert new_ != old_ ==> new_ !in c;
    case SegmentPartDeleted(deleted, _) =>
      RemovedRelabels(c, deleted.segment, deleted.part, p);
    case _ =>
  }

  /** Renaming and moving lose no place and bring no two places together. */
  lemma RelabelInjective(v: State, c: Contents, m: Message, p: Place, q: Place)
    requires Accept(v, m).Some? && Fits(v, c) && Selected(c, p) && Selected(c, q) && Relabel(m, p) == Relabel(m, q)
    ensures p == q
  {
    match m
    case SegmentIdUpdated(_, _) =>
    case SegmentPartMoved(destination, source, _, _) =>
      var d := destination.segment;
      assert HasCell(v.all[p.segment].part, p.cell) && HasCell(v.all[q.segment].part, q.cell);
      if d != source.segment && d in v.all {
        GrownKeeps(v.all[d].part, destination.part);
      }
    case _ =>
  }

  ghost function Places(c: Contents): set<Place> {
    set s, k | s in c && k in c[s] :: Place(s, k)
  }

  ghost function Relabeled(places: set<Place>, m: Message): set<Place> {
    set p | p in places :: Relabel(m, p)
  }

  /** A message that deletes nothing keeps the number of selected cells. */
  lemma FollowConserves(v: State, c: Contents, m: Message)
    requires Accept(v, m).Some? && Fits(v, c) && Follow(c, m).Some? && !m.SegmentPartDeleted?
    ensures |Places(Follow(c, m).value)| == |Places(c)|
  {
    hide Places, Selected, Follow, Accept, Relabel, Origin, Fits;
    var next := Follow(c, m).value;
    forall p | p in Places(c) ensures Relabel(m, p) in Places(next) {
      SelectedArePlaces(c, p);
      SelectedArePlaces(next, Relabel(m, p));
      RelabelIsOrigin(v, c, m, p);
      FollowRelabels(v, c, m, Relabel(m, p));
    }
    forall q | q in Places(next) ensures q in Relabeled(Places(c), m) {
      SelectedArePlaces(next, q);
      FollowRelabels(v, c, m, q);
      OriginIsRelabel(v, c, m, q);
      SelectedArePlaces(c, Origin(m, q).value);
    }
    assert Relabeled(Places(c), m) == Places(next);
    forall p, q | p in Places(c) && q in Places(c) && Relabel(m, p) == Relabel(m, q) ensures p == q {
      SelectedArePlaces(c, p);
      SelectedArePlaces(c, q);
      RelabelInjective(v, c, m, p, q);
    }
    ImageSize(Places(c), m);
  }

  lemma SelectedArePlaces(c: Contents, p: Place)
    ensures p in Places(c) <==> Selected(c, p)
  {
    assert p == Place(p.segment, p.cell);
  }

  lemma RelabelIsOrigin(v: State, c: Contents, m: Message, p: Place)
    requires Accept(v, m).Some? && Fits(v, c) && Selected(c, p) && !m.SegmentPartDeleted?
    ensures Origin(m, Relabel(m, p)) == Some(p)
  {
    assert HasCell(v.all[p.segment].part, p.cell);
    if m.SegmentPartMoved? && m.destination.segment != m.source.segment && m.destination.segment in v.all {
      GrownKeeps(v.all[m.destination.segment].part, m.destination.part);
      assert !(HasCell(v.all[m.destination.segment].part, p.cell) && HasCell(m.destination.part, p.cell)) by {
        if HasCell(v.all[m.destination.segment].part, p.cell) {
          assert p.cell in Range(v.all[m.destination.segment].part);
        }
      }
    }
  }

  lemma OriginIsRelabel(v: State, c: Contents, m: Message, q: Place)
    requires Accept(v, m).Some? && Fits(v, c) && !m.SegmentPartDeleted?
    requires Origin(m, q).Some? && Selected(c, Origin(m, q).value)
    ensures Relabel(m, Origin(m, q).value) == q
  {
  }

  lemma {:induction false} ImageSize(places: set<Place>, m: Message)
    requires forall p, q :: p in places && q in places && Relabel(m, p) == Relabel(m, q) ==> p == q
    ensures |Relabeled(places, m)| == |places|
    decreases |places|
  {
    hide Relabel;
    if |places| > 0 {
      var p := Pick(places);
      var rest := places - {p};
      ImageSize(rest, m);
      assert Relabel(m, p) !in Relabeled(rest, m);
      assert Relabeled(places, m) == Relabeled(rest, m) + {Relabel(m, p)};
    }
  }

  //
  // The selection as the program keeps it
  //

  ghost function ContentsOf(segments: map<Segment, seq<Part>>): Contents {
    map s | s in segments :: Cells(segments[s])
  }

  ghost predicate WellKept(segments: map<Segment, seq<Part>>) {
    forall s :: s in segments ==> segments[s] != [] && Canonical(segments[s])
  }

  lemma NoEmptyEntries(segments: map<Segment, seq<Part>>)
    requires WellKept(segments)
    ensures NoneEmpty(ContentsOf(segments))
  {
    forall s | s in segments ensures Cells(segments[s]) != {} {
      EmptyCells(segments[s]);
    }
  }

  class Selection {
    var selectedSegments: map<Segment, seq<Part>>

    ghost predicate Valid()
      reads this
    {
      WellKept(selectedSegments)
    }

    ghost function Value(): Contents
      reads this
    {
      ContentsOf(selectedSegments)
    }

    constructor ()
      ensures Valid() && Value() == map[]
    {
      selectedSegments := map[];
    }

    /** Stores the parts of one segment, or removes the entry when there are none. */
    method Store(s: Segment, parts: seq<Part>)
      requires Valid() && Canonical(parts)
      modifies this
      ensures Valid() && Value() == WithCells(old(Value()), s, Cells(parts))
      ensures selectedSegments == if parts == [] then old(selectedSegments) - {s} else old(selectedSegments)[s := parts]
    {
      EmptyCells(parts);
      hide Cells, Canonical;
      if parts == [] {
        selectedSegments := selectedSegments - {s};
      } else {
        selectedSegments := selectedSegments[s := parts];
      }
    }

    method AddSegment(p: SegmentPart)
      requires Valid()
      modifies this
      ensures Valid() && Value() == old(Value())[p.segment := CellsAt(old(Value()), p.segment) + Range(p.part)]
    {
      hide Cells, Range;
      var entries: PartSelection;
      if p.segment !in selectedSegments {
        entries := new PartSelection.FromPart(p.part);
        assert {} + Range(p.part) == Range(p.part);
      } else {
        entries := new PartSelection.Copy(selectedSegments[p.segment]);
        assert selectedSegments[p.segment] != [];
        entries.AddPart(p.part);
      }
      RangeNotEmpty(p.part);
      EmptyCells(entries.parts);
      selectedSegments := selectedSegments[p.segment := entries.parts];
    }

    lemma RangeNotEmpty(p: Part)
      ensures Range(p) != {}
    {
      assert p.begin in Range(p);
    }

    method RemoveSegment(p: SegmentPart)
      requires Valid()
      modifies this
      ensures Valid() && Value() == FollowRemoved(old(Value()), p.segment, p.part)
    {
      if p.segment in selectedSegments {
        var entries := new PartSelection.Copy(selectedSegments[p.segment]);
        entries.RemovePart(p.part);
        Store(p.segment, entries.parts);
      }
    }

    /** Replaces the parts of a segment. An empty list may only be given for a segment that is selected. */
    method SetSelection(s: Segment, parts: seq<Part>)
      requires Valid() && Canonical(parts) && (s !in selectedSegments ==> parts != [])
      modifies this
      ensures Valid() && Value() == WithCells(old(Value()), s, Cells(parts))
      ensures selectedSegments == if parts == [] then old(selectedSegments) - {s} else old(selectedSegments)[s := parts]
    {
      Store(s, parts);
    }

    /** Returns false when a contract of the selection fails. */
    method Submit(m: Message) returns (ok: bool)
      requires Valid()
      modifies this
      ensures Valid()
      ensures ok <==> Follow(old(Value()), m).Some?
      ensures ok ==> Value() == Follow(old(Value()), m).value
      ensures ok <==> CanFollow(old(Value()), m)
      ensures ok ==> forall p :: Selected(Value(), p) <==> SelectedAfter(old(Value()), m, p)
    {
      hide CanFollow, SelectedAfter, Selected;
      NoEmptyEntries(selectedSegments);
      FollowedIff(Value(), m);
      match m
      case SegmentIdUpdated(new_, old_) => ok := HandleIdUpdated(new_, old_);
      case SegmentPartMoved(destination, source, _, _) =>
        if source.segment == destination.segment {
          ok := HandleMoveSameSegment(destination, source);
        } else {
          ok := HandleMoveDifferentSegment(destination, source);
        }
      case SegmentPartDeleted(segmentPart, _) =>
        RemoveSegment(segmentPart);
        ok := true;
      case _ => ok := true;
    }

    method HandleIdUpdated(new_: Segment, old_: Segment) returns (ok: bool)
      requires Valid()
      modifies this
      ensures Valid()
      ensures ok <==> FollowIdUpdated(old(Value()), new_, old_).Some?
      ensures ok ==> Value() == FollowIdUpdated(old(Value()), new_, old_).value
    {
      if old_ !in selectedSegments {
        return true;
      }
      var parts := selectedSegments[old_];
      selectedSegments := selectedSegments - {old_};
      if new_ in selectedSegments {
        return false;
      }
      selectedSegments := selectedSegments[new_ := parts];
      return true;
    }

    method HandleMoveDifferentSegment(destination: SegmentPart, source: SegmentPart) returns (ok: bool)
      requires Valid() && source.segment != destination.segment
      modifies this
      ensures Valid()
      ensures ok <==> FollowPartMoved(old(Value()), destination, source).Some?
      ensures ok ==> Value() == FollowPartMoved(old(Value()), destination, source).value
    {
      var s, d := source.segment, destination.segment;
      if s !in selectedSegments {
        return true;
      }
      var sourceEntries := new PartSelection.Copy(selectedSegments[s]);
      var destinationEntries := new PartSelection.Copy(if d in selectedSegments then selectedSegments[d] else []);
      var moved := MoveParts(destinationEntries, sourceEntries, CopyDefinition(destination.part, source.part));
      if moved.Err? {
        return false;
      }
      hide Cells, CopiedCells, Range;
      Store(s, sourceEntries.parts);
      EmptyCells(destinationEntries.parts);
      if destinationEntries.parts != [] {
        Store(d, destinationEntries.parts);
      }
      return true;
    }

    method HandleMoveSameSegment(destination: SegmentPart, source: SegmentPart) returns (ok: bool)
      requires Valid() && source.segment == destination.segment
      modifies this
      ensures Valid()
      ensures ok <==> FollowPartMoved(old(Value()), destination, source).Some?
      ensures ok ==> Value() == FollowPartMoved(old(Value()), destination, source).value
    {
      var s := source.segment;
      if s !in selectedSegments {
        return true;
      }
      var entries := new PartSelection.Copy(selectedSegments[s]);
      var moved := MovePartsWithin(entries, CopyDefinition(destination.part, source.part));
      if moved.Err? {
        return false;
      }
      EmptyCells(entries.parts);
      assert Value()[s] == Cells(selectedSegments[s]);
      if entries.parts == [] {
        return false;
      }
      Store(s, entries.parts);
      return true;
    }
  }
}
