/** The reference state of a stream of layout messages: it accepts exactly the consistent streams. */
module MessageValidators {
  import opened Wrappers
  import opened PartSelections
  import opened Geometry
  import opened LayoutMessages

  datatype Known = Known(id: nat, part: Part)

  datatype Inserted = Inserted(id: nat, info: SegmentInfo)

  datatype State = State(all: map<Segment, Known>, inserted: map<Segment, Inserted>, nextId: nat)

  const EMPTY_STATE := State(map[], map[], 0)

  /** The part of the source that is left, or None when nothing is; an error when the part cuts out its middle. */
  datatype Shrunk = Gone | Left(part: Part) | NotAtAnEnd

  function ShrinkSource(full: Part, moved: Part): Shrunk {
    if moved == full then Gone
    else if moved.begin == full.begin then
      if moved.end < full.end then Left(Part(moved.end, full.end)) else NotAtAnEnd
    else if moved.end == full.end then
      if full.begin < moved.begin then Left(Part(full.begin, moved.begin)) else NotAtAnEnd
    else NotAtAnEnd
  }

  /** The part of the destination with the new part attached at one of its ends. */
  function ExpandDestination(full: Part, added: Part): Option<Part> {
    if full.begin == added.end then Some(Part(added.begin, full.end))
    else if full.end == added.begin then Some(Part(full.begin, added.end))
    else None
  }

  function AcceptMovedWithin(v: State, m: Message): Option<State>
    requires m.SegmentPartMoved? && m.source.segment == m.destination.segment
  {
    var s := m.source.segment;
    if s !in v.all || m.source.part != v.all[s].part || m.deleteSource || m.createDestination || s in v.inserted then None
    else Some(v.(all := v.all[s := v.all[s].(part := m.destination.part)]))
  }

  function AcceptMovedBetween(v: State, m: Message): Option<State>
    requires m.SegmentPartMoved? && m.source.segment != m.destination.segment
  {
    var s, d := m.source.segment, m.destination.segment;
    if s !in v.all || s in v.inserted || d in v.inserted then None
    else
      var shrunk := ShrinkSource(v.all[s].part, m.source.part);
      if shrunk.NotAtAnEnd? || shrunk.Gone? != m.deleteSource || (d !in v.all) != m.createDestination then None
      else
        var rest := if shrunk.Gone? then v.all - {s} else v.all[s := v.all[s].(part := shrunk.part)];
        if d !in v.all then
          Some(v.(all := rest[d := Known(v.nextId, m.destination.part)], nextId := v.nextId + 1))
        else
          var grown := ExpandDestination(v.all[d].part, m.destination.part);
          if grown.None? then None else Some(v.(all := rest[d := v.all[d].(part := grown.value)]))
  }

  /** The next state, or None when a contract of the validator fails. */
  function Accept(v: State, m: Message): Option<State> {
    match m
    case SegmentCreated(s, size) =>
      if size == 0 || s in v.all || s in v.inserted then None
      else Some(v.(all := v.all[s := Known(v.nextId, Part(0, size))], nextId := v.nextId + 1))
    case SegmentIdUpdated(new_, old_) =>
      if old_ !in v.all || new_ in v.all - {old_} then None
      else if old_ in v.inserted && !(v.all[old_].id == v.inserted[old_].id
                                      && v.all[old_].part == ToPart(v.inserted[old_].info.line)) then None
      else Some(v.(all := (v.all - {old_})[new_ := v.all[old_]]))
    case SegmentPartMoved(destination, source, _, _) =>
      if Distance(destination.part) != Distance(source.part) then None
      else if source.segment == destination.segment then AcceptMovedWithin(v, m)
      else AcceptMovedBetween(v, m)
    case SegmentPartDeleted(segmentPart, deleteSegment) =>
      // the part is not compared with the part of the segment, so always the complete segment is deleted
      if segmentPart.segment !in v.all || !deleteSegment || segmentPart.segment in v.inserted then None
      else Some(v.(all := v.all - {segmentPart.segment}))
    case SegmentInserted(s, info) =>
      if s !in v.all || v.all[s].part != ToPart(info.line) || s in v.inserted then None
      else Some(v.(inserted := v.inserted[s := Inserted(v.all[s].id, info)]))
    case InsertedSegmentIdUpdated(new_, old_, info) =>
      if old_ !in v.inserted || v.inserted[old_].info != info || new_ in v.inserted - {old_} then None
      else if new_ !in v.all || v.all[new_].id != v.inserted[old_].id || v.all[new_].part != ToPart(info.line) then None
      else Some(v.(inserted := (v.inserted - {old_})[new_ := v.inserted[old_]]))
    case InsertedEndPointsUpdated(s, newInfo, oldInfo) =>
      if s !in v.inserted || v.inserted[s].info != oldInfo || oldInfo.line != newInfo.line then None
      else if s !in v.all || v.all[s].id != v.inserted[s].id || v.all[s].part != ToPart(oldInfo.line) then None
      else Some(v.(inserted := v.inserted[s := v.inserted[s].(info := newInfo)]))
    case SegmentUninserted(s, info) =>
      if s !in v.inserted || v.inserted[s].info != info then None
      else if s !in v.all || v.all[s].id != v.inserted[s].id || v.all[s].part != ToPart(info.line) then None
      else Some(v.(inserted := v.inserted - {s}))
  }

  /** The state after a whole stream. */
  function AcceptAll(v: State, messages: seq<Message>): Option<State>
    decreases |messages|
  {
    if messages == [] then Some(v)
    else
      var next := Accept(v, messages[0]);
      if next.None? then None else AcceptAll(next.value, messages[1..])
  }

  lemma {:induction false} AcceptAllConcat(v: State, a: seq<Message>, b: seq<Message>)
    requires AcceptAll(v, a).Some?
    ensures AcceptAll(v, a + b) == AcceptAll(AcceptAll(v, a).value, b)
    decreases |a|
  {
    if a == [] {
      assert a + b == b;
    } else {
      assert (a + b)[1..] == a[1..] + b;
      AcceptAllConcat(Accept(v, a[0]).value, a[1..], b);
    }
  }

  //
  // What every accepted stream keeps
  //

  /** Ids are never given twice. */
  ghost predicate IdsUnique(v: State) {
    && (forall s :: s in v.all ==> v.all[s].id < v.nextId)
    && (forall s, r :: s in v.all && r in v.all && v.all[s].id == v.all[r].id ==> s == r)
  }

  lemma MovedKeepsIdsUnique(v: State, m: Message)
    requires IdsUnique(v) && m.SegmentPartMoved? && Accept(v, m).Some?
    ensures IdsUnique(Accept(v, m).value)
  {
    hide ShrinkSource, ExpandDestination, Distance;
  }

  lemma AcceptKeepsIdsUnique(v: State, m: Message)
    requires IdsUnique(v) && Accept(v, m).Some?
    ensures IdsUnique(Accept(v, m).value)
  {
    hide ToPart, AcceptMovedWithin, AcceptMovedBetween;
    if m.SegmentPartMoved? {
      MovedKeepsIdsUnique(v, m);
    }
  }

  //
  // Which messages are accepted, and what they do
  //

  /** The entry of segment s in both maps has the same id, and the part of the first is the line of the second. */
  ghost predicate EntriesAgree(known: Known, inserted: Inserted) {
    known.id == inserted.id && known.part.begin == 0 && known.part.end == inserted.info.line.end - inserted.info.line.begin
  }

  /**
   A part moves to another segment if it lies at an end of its segment, and the destination is new or touches the place
   the part moves to. The message has to tell truly whether the destination is new and the source is used up.
   */
  ghost predicate CanMoveBetween(v: State, destination: SegmentPart, source: SegmentPart, create: bool, delete_: bool) {
    var s, d := source.segment, destination.segment;
    && s != d && s in v.all && s !in v.inserted && d !in v.inserted
    && source.part.end - source.part.begin == destination.part.end - destination.part.begin
    && Inside(source.part, v.all[s].part)
    && (source.part.begin == v.all[s].part.begin || source.part.end == v.all[s].part.end)
    && (d in v.all ==> destination.part.end == v.all[d].part.begin || destination.part.begin == v.all[d].part.end)
    && create == (d !in v.all) && delete_ == (source.part == v.all[s].part)
  }

  /** A segment that is not inserted moves as a whole. */
  ghost predicate CanMoveWithin(v: State, destination: SegmentPart, source: SegmentPart, create: bool, delete_: bool) {
    var s := source.segment;
    && s == destination.segment && s in v.all && s !in v.inserted && source.part == v.all[s].part
    && source.part.end - source.part.begin == destination.part.end - destination.part.begin
    && !create && !delete_
  }

  ghost predicate CanRename(v: State, new_: Segment, old_: Segment) {
    && old_ in v.all && (new_ in v.all ==> new_ == old_)
    && (old_ in v.inserted ==> EntriesAgree(v.all[old_], v.inserted[old_]))
  }

  /** A segment is inserted with this information, and known with the same id and length. */
  ghost predicate IsInserted(v: State, s: Segment, info: SegmentInfo) {
    s in v.inserted && v.inserted[s].info == info && s in v.all && EntriesAgree(v.all[s], v.inserted[s])
  }

  ghost predicate IsAllowed(v: State, m: Message) {
    match m
    case SegmentCreated(s, size) => size > 0 && s !in v.all && s !in v.inserted
    case SegmentIdUpdated(new_, old_) => CanRename(v, new_, old_)
    case SegmentPartMoved(destination, source, create, delete_) =>
      if source.segment != destination.segment then CanMoveBetween(v, destination, source, create, delete_)
      else CanMoveWithin(v, destination, source, create, delete_)
    case SegmentPartDeleted(part, deleteSegment) =>
      part.segment in v.all && part.segment !in v.inserted && deleteSegment
    case SegmentInserted(s, info) =>
      s in v.all && s !in v.inserted && EntriesAgree(v.all[s], Inserted(v.all[s].id, info))
    case InsertedSegmentIdUpdated(new_, old_, info) =>
      && old_ in v.inserted && v.inserted[old_].info == info && (new_ in v.inserted ==> new_ == old_)
      && new_ in v.all && EntriesAgree(v.all[new_], v.inserted[old_])
    case InsertedEndPointsUpdated(s, newInfo, oldInfo) => IsInserted(v, s, oldInfo) && oldInfo.line == newInfo.line
    case SegmentUninserted(s, info) => IsInserted(v, s, info)
  }

  /** Apart from the named segments, the two maps have the same entries. */
  ghost predicate SameBut<T(!new)>(was: map<Segment, T>, now: map<Segment, T>, names: set<Segment>) {
    forall s :: s !in names ==> (s in now <==> s in was) && (s in was ==> now[s] == was[s])
  }

  /** The source loses the cells of the part, and is gone without any; the destination gains those of its part. */
  ghost predicate MovesBetween(v: State, destination: SegmentPart, source: SegmentPart, w: State) {
    var s, d := source.segment, destination.segment;
    && s in v.all && SameBut(v.all, w.all, {s, d}) && w.inserted == v.inserted
    && d in w.all
    && (if s in w.all
        then w.all[s].id == v.all[s].id && Range(w.all[s].part) == Range(v.all[s].part) - Range(source.part)
        else Range(v.all[s].part) <= Range(source.part))
    && (if d in v.all
        then w.all[d].id == v.all[d].id && Range(w.all[d].part) == Range(v.all[d].part) + Range(destination.part)
             && w.nextId == v.nextId
        else w.all[d] == Known(v.nextId, destination.part) && w.nextId == v.nextId + 1)
  }

  /** What an allowed message changes. */
  ghost predicate Changes(v: State, m: Message, w: State) {
    match m
    case SegmentCreated(s, size) =>
      && SameBut(v.all, w.all, {s}) && s in w.all && w.all[s] == Known(v.nextId, Part(0, if size == 0 then 1 else size))
      && w.inserted == v.inserted && w.nextId == v.nextId + 1
    case SegmentIdUpdated(new_, old_) =>
      && SameBut(v.all, w.all, {new_, old_}) && old_ in v.all && new_ in w.all && w.all[new_] == v.all[old_]
      && (new_ != old_ ==> old_ !in w.all) && w.inserted == v.inserted && w.nextId == v.nextId
    case SegmentPartMoved(destination, source, _, _) =>
      if source.segment != destination.segment then MovesBetween(v, destination, source, w)
      else
        var s := source.segment;
        && s in v.all && s in w.all && w.all[s] == Known(v.all[s].id, destination.part)
        && SameBut(v.all, w.all, {s}) && w.inserted == v.inserted && w.nextId == v.nextId
    case SegmentPartDeleted(part, _) =>
      && SameBut(v.all, w.all, {part.segment}) && part.segment !in w.all && w.inserted == v.inserted && w.nextId == v.nextId
    case SegmentInserted(s, info) =>
      && s in v.all && SameBut(v.inserted, w.inserted, {s}) && s in w.inserted
      && w.inserted[s] == Inserted(v.all[s].id, info) && w.all == v.all && w.nextId == v.nextId
    case InsertedSegmentIdUpdated(new_, old_, _) =>
      && SameBut(v.inserted, w.inserted, {new_, old_}) && old_ in v.inserted && new_ in w.inserted
      && w.inserted[new_] == v.inserted[old_] && (new_ != old_ ==> old_ !in w.inserted)
      && w.all == v.all && w.nextId == v.nextId
    case InsertedEndPointsUpdated(s, newInfo, _) =>
      && SameBut(v.inserted, w.inserted, {s}) && s in v.inserted && s in w.inserted
      && w.inserted[s] == Inserted(v.inserted[s].id, newInfo) && w.all == v.all && w.nextId == v.nextId
    case SegmentUninserted(s, _) =>
      && SameBut(v.inserted, w.inserted, {s}) && s !in w.inserted && w.all == v.all && w.nextId == v.nextId
  }

  lemma ShrunkCells(full: Part, moved: Part)
    ensures ShrinkSource(full, moved).NotAtAnEnd? <==>
      !(Inside(moved, full) && (moved.begin == full.begin || moved.end == full.end))
    ensures ShrinkSource(full, moved).Gone? <==> moved == full
    ensures ShrinkSource(full, moved).Left? ==> Range(ShrinkSource(full, moved).part) == Range(full) - Range(moved)
  {
  }

  lemma ExpandedCells(full: Part, added: Part)
    ensures ExpandDestination(full, added).Some? <==> full.begin == added.end || full.end == added.begin
    ensures ExpandDestination(full, added).Some? ==> Range(ExpandDestination(full, added).value) == Range(full) + Range(added)
  {
  }

  /** A move between segments is accepted exactly if it is allowed, and moves exactly the cells of the part. */
  lemma MovedBetween(v: State, m: Message)
    requires m.SegmentPartMoved? && m.source.segment != m.destination.segment
    ensures Accept(v, m).Some? <==> CanMoveBetween(v, m.destination, m.source, m.createDestination, m.deleteSource)
    ensures Accept(v, m).Some? ==> MovesBetween(v, m.destination, m.source, Accept(v, m).value)
  {
    hide ShrinkSource, ExpandDestination, Range, Inside;
    var s, d := m.source.segment, m.destination.segment;
    if s in v.all {
      ShrunkCells(v.all[s].part, m.source.part);
      if d in v.all {
        ExpandedCells(v.all[d].part, m.destination.part);
      }
    }
  }

  /** Every message is accepted exactly if it is allowed, and then changes exactly what it says. */
  lemma AcceptedIff(v: State, m: Message)
    ensures Accept(v, m).Some? <==> IsAllowed(v, m)
    ensures Accept(v, m).Some? ==> Changes(v, m, Accept(v, m).value)
  {
    hide AcceptMovedBetween, CanMoveBetween, MovesBetween;
    if m.SegmentPartMoved? && m.source.segment != m.destination.segment {
      MovedBetween(v, m);
    }
  }

  /** The move of the part back to where it came from. */
  function MovedBack(v: State, m: Message): Message
    requires m.SegmentPartMoved?
  {
    SegmentPartMoved(m.source, m.destination, m.deleteSource, m.createDestination)
  }

  lemma EqualStates(v: State, w: State)
    requires forall s :: s in v.all <==> s in w.all
    requires forall s :: s in v.all && s in w.all ==> v.all[s] == w.all[s]
    requires v.inserted == w.inserted && v.nextId == w.nextId
    ensures v == w
  {
    assert v.all == w.all;
  }

  /**
   An end of a segment that was cut off and moved to a new segment, or to a touching one, can be moved back. Both
   segments are then as before; only ids were used up.
   */
  lemma CutAndMovedBack(v: State, m: Message)
    requires m.SegmentPartMoved? && m.source.segment != m.destination.segment && !m.deleteSource
    requires CanMoveBetween(v, m.destination, m.source, m.createDestination, m.deleteSource)
    ensures Accept(v, m).Some?
    ensures Accept(Accept(v, m).value, MovedBack(v, m)) == Some(v.(nextId := Accept(v, m).value.nextId))
  {
    hide ShrinkSource, ExpandDestination;
    var s, d := m.source.segment, m.destination.segment;
    var full, part, at := v.all[s].part, m.source.part, m.destination.part;
    ShrunkAndExpanded(full, part);
    if d in v.all {
      ExpandedAndShrunk(v.all[d].part, at);
    } else {
      ShrunkCells(at, at);
    }
    MovedBetween(v, m);
    var w := Accept(v, m).value;
    MovedBetween(w, MovedBack(v, m));
    EqualStates(Accept(w, MovedBack(v, m)).value, v.(nextId := w.nextId));
  }

  lemma ShrunkAndExpanded(full: Part, moved: Part)
    requires Inside(moved, full) && moved != full && (moved.begin == full.begin || moved.end == full.end)
    ensures ShrinkSource(full, moved).Left?
    ensures ExpandDestination(ShrinkSource(full, moved).part, moved) == Some(full)
  {
  }

  lemma ExpandedAndShrunk(full: Part, added: Part)
    requires full.begin == added.end || full.end == added.begin
    ensures ExpandDestination(full, added).Some?
    ensures ShrinkSource(ExpandDestination(full, added).value, added) == Left(full)
  {
  }

  /** Insertion and removal, renaming there and back, and a new end point and the old one again, undo each other. */
  lemma Undone(v: State, m: Message, back: Message)
    requires Accept(v, m).Some?
    requires match m
      case SegmentInserted(s, info) => back == SegmentUninserted(s, info)
      case SegmentUninserted(s, info) => back == SegmentInserted(s, info)
      case InsertedEndPointsUpdated(s, newInfo, oldInfo) => back == InsertedEndPointsUpdated(s, oldInfo, newInfo)
      case SegmentIdUpdated(new_, old_) => back == SegmentIdUpdated(old_, new_) && new_ !in v.inserted
      case SegmentPartMoved(destination, source, _, _) =>
        source.segment == destination.segment && back == SegmentPartMoved(source, destination, false, false)
      case _ => false
    ensures Accept(Accept(v, m).value, back) == Some(v)
  {
    hide AcceptMovedBetween;
    var w := Accept(v, m).value;
    AcceptedIff(v, m);
    AcceptedIff(w, back);
    assert Accept(w, back).Some?;
    assert Accept(w, back).value.all == v.all;
    assert Accept(w, back).value.inserted == v.inserted;
  }

  class MessageValidator {
    var allSegments: map<Segment, Known>
    var insertedSegments: map<Segment, Inserted>
    var nextUniqueId: nat

    ghost function Value(): State
      reads this
    {
      State(allSegments, insertedSegments, nextUniqueId)
    }

    constructor ()
      ensures Value() == EMPTY_STATE
    {
      allSegments, insertedSegments, nextUniqueId := map[], map[], 0;
    }

    method GetNextUniqueId() returns (id: nat)
      modifies this`nextUniqueId
      ensures id == old(nextUniqueId) && nextUniqueId == old(nextUniqueId) + 1
    {
      id := nextUniqueId;
      nextUniqueId := nextUniqueId + 1;
    }

    /** Returns false when a contract fails; the validator is then not usable anymore. */
    method Submit(m: Message) returns (ok: bool)
      modifies this
      ensures ok <==> Accept(old(Value()), m).Some?
      ensures ok ==> Value() == Accept(old(Value()), m).value
      ensures ok <==> IsAllowed(old(Value()), m)
      ensures ok ==> Changes(old(Value()), m, Value())
    {
      hide IsAllowed, Changes;
      AcceptedIff(Value(), m);
      match m
      case SegmentCreated(_, _) => ok := HandleCreated(m);
      case SegmentIdUpdated(_, _) => ok := HandleIdUpdated(m);
      case SegmentPartMoved(_, _, _, _) => ok := HandlePartMoved(m);
      case SegmentPartDeleted(_, _) => ok := HandlePartDeleted(m);
      case SegmentInserted(_, _) => ok := HandleInserted(m);
      case InsertedSegmentIdUpdated(_, _, _) => ok := HandleInsertedIdUpdated(m);
      case InsertedEndPointsUpdated(_, _, _) => ok := HandleEndPointsUpdated(m);
      case SegmentUninserted(_, _) => ok := HandleUninserted(m);
    }

    method HandleCreated(m: Message) returns (ok: bool)
      requires m.SegmentCreated?
      modifies this
      ensures ok <==> Accept(old(Value()), m).Some?
      ensures ok ==> Value() == Accept(old(Value()), m).value
      ensures ok <==> IsAllowed(old(Value()), m)
      ensures ok ==> Changes(old(Value()), m, Value())
    {
      hide IsAllowed, Changes;
      AcceptedIff(Value(), m);
      if m.size == 0 {
        return false;
      }
      var id := GetNextUniqueId();
      if m.created in allSegments {
        return false;
      }
      allSegments := allSegments[m.created := Known(id, Part(0, m.size))];
      return m.created !in insertedSegments;
    }

    method HandleIdUpdated(m: Message) returns (ok: bool)
      requires m.SegmentIdUpdated?
      modifies this
      ensures ok <==> Accept(old(Value()), m).Some?
      ensures ok ==> Value() == Accept(old(Value()), m).value
      ensures ok <==> IsAllowed(old(Value()), m)
      ensures ok ==> Changes(old(Value()), m, Value())
    {
      hide IsAllowed, Changes;
      AcceptedIff(Value(), m);
      if m.oldSegment !in allSegments {
        return false;
      }
      var value := allSegments[m.oldSegment];
      allSegments := allSegments - {m.oldSegment};
      if m.newSegment in allSegments {
        return false;
      }
      allSegments := allSegments[m.newSegment := value];
      if m.oldSegment in insertedSegments {
        var inserted := insertedSegments[m.oldSegment];
        return value.id == inserted.id && value.part == ToPart(inserted.info.line);
      }
      return true;
    }

    method HandlePartMoved(m: Message) returns (ok: bool)
      requires m.SegmentPartMoved?
      modifies this
      ensures ok <==> Accept(old(Value()), m).Some?
      ensures ok ==> Value() == Accept(old(Value()), m).value
      ensures ok <==> IsAllowed(old(Value()), m)
      ensures ok ==> Changes(old(Value()), m, Value())
    {
      hide IsAllowed, Changes;
      AcceptedIff(Value(), m);
      var s, d := m.source.segment, m.destination.segment;
      if Distance(m.destination.part) != Distance(m.source.part) || s !in allSegments {
        return false;
      }
      var source := allSegments[s];
      if s == d {
        if m.source.part != source.part {
          return false;
        }
        allSegments := allSegments[s := source.(part := m.destination.part)];
      } else {
        var shrunk := ShrinkSource(source.part, m.source.part);
        match shrunk
        case Gone => allSegments := allSegments - {s};
        case Left(part) => allSegments := allSegments[s := source.(part := part)];
        case NotAtAnEnd => return false;
      }
      if (s !in allSegments) != m.deleteSource || (d !in allSegments) != m.createDestination {
        return false;
      }
      if s != d {
        if d !in allSegments {
          var id := GetNextUniqueId();
          allSegments := allSegments[d := Known(id, m.destination.part)];
        } else {
          var grown := ExpandDestination(allSegments[d].part, m.destination.part);
          if grown.None? {
            return false;
          }
          allSegments := allSegments[d := allSegments[d].(part := grown.value)];
        }
      }
      return s !in insertedSegments && d !in insertedSegments;
    }

    method HandlePartDeleted(m: Message) returns (ok: bool)
      requires m.SegmentPartDeleted?
      modifies this
      ensures ok <==> Accept(old(Value()), m).Some?
      ensures ok ==> Value() == Accept(old(Value()), m).value
      ensures ok <==> IsAllowed(old(Value()), m)
      ensures ok ==> Changes(old(Value()), m, Value())
    {
      hide IsAllowed, Changes;
      AcceptedIff(Value(), m);
      var s := m.segmentPart.segment;
      if s !in allSegments {
        return false;
      }
      allSegments := allSegments - {s};
      return m.deleteSegment && s !in insertedSegments;
    }

    method HandleInserted(m: Message) returns (ok: bool)
      requires m.SegmentInserted?
      modifies this
      ensures ok <==> Accept(old(Value()), m).Some?
      ensures ok ==> Value() == Accept(old(Value()), m).value
      ensures ok <==> IsAllowed(old(Value()), m)
      ensures ok ==> Changes(old(Value()), m, Value())
    {
      hide IsAllowed, Changes;
      AcceptedIff(Value(), m);
      if m.inserted !in allSegments {
        return false;
      }
      var uninserted := allSegments[m.inserted];
      if uninserted.part != ToPart(m.info.line) || m.inserted in insertedSegments {
        return false;
      }
      insertedSegments := insertedSegments[m.inserted := Inserted(uninserted.id, m.info)];
      return true;
    }

    method HandleInsertedIdUpdated(m: Message) returns (ok: bool)
      requires m.InsertedSegmentIdUpdated?
      modifies this
      ensures ok <==> Accept(old(Value()), m).Some?
      ensures ok ==> Value() == Accept(old(Value()), m).value
      ensures ok <==> IsAllowed(old(Value()), m)
      ensures ok ==> Changes(old(Value()), m, Value())
    {
      hide IsAllowed, Changes;
      AcceptedIff(Value(), m);
      if m.oldInserted !in insertedSegments {
        return false;
      }
      var value := insertedSegments[m.oldInserted];
      if value.info != m.keptInfo {
        return false;
      }
      insertedSegments := insertedSegments - {m.oldInserted};
      if m.newInserted in insertedSegments {
        return false;
      }
      insertedSegments := insertedSegments[m.newInserted := value];
      if m.newInserted !in allSegments {
        return false;
      }
      var uninserted := allSegments[m.newInserted];
      return uninserted.id == value.id && uninserted.part == ToPart(value.info.line);
    }

    method HandleEndPointsUpdated(m: Message) returns (ok: bool)
      requires m.InsertedEndPointsUpdated?
      modifies this
      ensures ok <==> Accept(old(Value()), m).Some?
      ensures ok ==> Value() == Accept(old(Value()), m).value
      ensures ok <==> IsAllowed(old(Value()), m)
      ensures ok ==> Changes(old(Value()), m, Value())
    {
      hide IsAllowed, Changes;
      AcceptedIff(Value(), m);
      if m.changed !in insertedSegments {
        return false;
      }
      var value := insertedSegments[m.changed];
      if value.info != m.oldInfo || value.info.line != m.newInfo.line {
        return false;
      }
      insertedSegments := insertedSegments[m.changed :=
        value.(info := SegmentInfo(value.info.line, m.newInfo.p0Type, m.newInfo.p1Type))];
      if m.changed !in allSegments {
        return false;
      }
      var uninserted := allSegments[m.changed];
      return uninserted.id == value.id && uninserted.part == ToPart(value.info.line);
    }

    method HandleUninserted(m: Message) returns (ok: bool)
      requires m.SegmentUninserted?
      modifies this
      ensures ok <==> Accept(old(Value()), m).Some?
      ensures ok ==> Value() == Accept(old(Value()), m).value
      ensures ok <==> IsAllowed(old(Value()), m)
      ensures ok ==> Changes(old(Value()), m, Value())
    {
      hide IsAllowed, Changes;
      AcceptedIff(Value(), m);
      if m.uninserted !in insertedSegments {
        return false;
      }
      var value := insertedSegments[m.uninserted];
      if value.info != m.lastInfo || m.uninserted !in allSegments {
        return false;
      }
      var uninserted := allSegments[m.uninserted];
      if uninserted.id != value.id || uninserted.part != ToPart(value.info.line) {
        return false;
      }
      insertedSegments := insertedSegments - {m.uninserted};
      return true;
    }
  }
}
