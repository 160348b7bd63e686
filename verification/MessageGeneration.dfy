/** All messages that build a given layout, and the validator that receives them. */
module MessageGeneration {
  import opened Wrappers
  import opened PartSelections
  import opened Geometry
  import opened LayoutMessages
  import opened MessageValidators

  /** The segments of each wire. */
  type Layout = seq<seq<SegmentInfo>>

  predicate HasSegment(layout: Layout, s: Segment) {
    s.wire < |layout| && s.index < |layout[s.wire]|
  }

  function InfoAt(layout: Layout, s: Segment): SegmentInfo
    requires HasSegment(layout, s)
  {
    layout[s.wire][s.index]
  }

  /** Segment s comes before segment `index` of wire `wire`. */
  predicate Before(s: Segment, wire: nat, index: nat) {
    s.wire < wire || (s.wire == wire && s.index < index)
  }

  ghost predicate AllSegmentsMatch(v: State, layout: Layout) {
    forall s :: HasSegment(layout, s) ==> s in v.all && v.all[s].part == ToPart(InfoAt(layout, s).line)
  }

  ghost predicate InsertedSegmentsMatch(v: State, layout: Layout) {
    forall s :: HasSegment(layout, s) && FIRST_INSERTED_WIRE <= s.wire ==>
      s in v.inserted && v.inserted[s].info == InfoAt(layout, s)
  }

  ghost predicate SegmentDataMatches(v: State) {
    forall s :: s in v.inserted ==>
      s in v.all && v.all[s].id == v.inserted[s].id && v.all[s].part == ToPart(v.inserted[s].info.line)
  }

  ghost predicate LayoutMatchesState(v: State, layout: Layout) {
    AllSegmentsMatch(v, layout) && InsertedSegmentsMatch(v, layout) && SegmentDataMatches(v)
  }

  /** The comparison with the layout does not look for segments the layout does not have. */
  ghost predicate HoldsNothingElse(v: State, layout: Layout) {
    && (forall s :: s in v.all ==> HasSegment(layout, s))
    && (forall s :: s in v.inserted ==> HasSegment(layout, s) && FIRST_INSERTED_WIRE <= s.wire)
  }

  //
  // What the comparison misses
  //

  ghost function SegmentsOf(layout: Layout): set<Segment> {
    set wire, index | 0 <= wire < |layout| && 0 <= index < |layout[wire]| :: Segment(wire, index)
  }

  ghost function InsertedOf(layout: Layout): set<Segment> {
    set s | s in SegmentsOf(layout) && FIRST_INSERTED_WIRE <= s.wire
  }

  lemma SegmentsOfAre(layout: Layout, s: Segment)
    ensures s in SegmentsOf(layout) <==> HasSegment(layout, s)
  {
    if HasSegment(layout, s) {
      assert s == Segment(s.wire, s.index);
    }
  }

  lemma SubsetOfSameSize<T>(a: set<T>, b: set<T>)
    requires a <= b
    ensures |a| == |b| <==> a == b
  {
    assert b == a + (b - a);
  }

  /**
   For a state that passes the comparison, the sizes tell whether it holds anything else: the size tests that the
   comparison makes for logic items are exactly what it lacks for segments.
   */
  lemma ComparisonIsExactIff(v: State, layout: Layout)
    requires LayoutMatchesState(v, layout)
    ensures HoldsNothingElse(v, layout) <==> |v.all| == |SegmentsOf(layout)| && |v.inserted| == |InsertedOf(layout)|
  {
    hide ToPart, SegmentsOf;
    forall s ensures s in SegmentsOf(layout) <==> HasSegment(layout, s) {
      SegmentsOfAre(layout, s);
    }
    SubsetOfSameSize(SegmentsOf(layout), v.all.Keys);
    SubsetOfSameSize(InsertedOf(layout), v.inserted.Keys);
  }

  /** An accepted segment that the empty layout does not have goes unnoticed. */
  lemma ComparisonMissesSegment()
    ensures var v := Accept(EMPTY_STATE, SegmentCreated(Segment(0, 0), 2));
      v.Some? && LayoutMatchesState(v.value, []) && !HoldsNothingElse(v.value, [])
  {
    assert Segment(0, 0) in Accept(EMPTY_STATE, SegmentCreated(Segment(0, 0), 2)).value.all;
  }

  //
  // The stream
  //

  function CreatedMessage(layout: Layout, wire: nat, index: nat): Message
    requires wire < |layout| && index < |layout[wire]|
  {
    SegmentCreated(Segment(wire, index), ToPart(layout[wire][index].line).end)
  }

  function InsertedMessage(layout: Layout, wire: nat, index: nat): Message
    requires wire < |layout| && index < |layout[wire]|
  {
    SegmentInserted(Segment(wire, index), layout[wire][index])
  }

  predicate IsPosition(layout: Layout, wire: nat, index: nat) {
    index == 0 || (wire < |layout| && index <= |layout[wire]|)
  }

  /** The messages that create the segments before the given one, wire by wire. */
  function CreatedMessages(layout: Layout, wire: nat, index: nat): seq<Message>
    requires wire <= |layout| && IsPosition(layout, wire, index)
    decreases wire, index
  {
    if index > 0 then CreatedMessages(layout, wire, index - 1) + [CreatedMessage(layout, wire, index - 1)]
    else if wire > 0 then CreatedMessages(layout, wire - 1, |layout[wire - 1]|)
    else []
  }

  /** The messages that insert the segments of inserted wires before the given one, wire by wire. */
  function InsertedMessages(layout: Layout, wire: nat, index: nat): seq<Message>
    requires wire <= |layout| && IsPosition(layout, wire, index) && (index > 0 ==> FIRST_INSERTED_WIRE <= wire)
    decreases wire, index
  {
    if index > 0 then InsertedMessages(layout, wire, index - 1) + [InsertedMessage(layout, wire, index - 1)]
    else if wire > FIRST_INSERTED_WIRE then InsertedMessages(layout, wire - 1, |layout[wire - 1]|)
    else []
  }

  /** Everything that is sent for the wires of a layout: all segments are created before any is inserted. */
  function AllWireMessages(layout: Layout): seq<Message> {
    CreatedMessages(layout, |layout|, 0) + InsertedMessages(layout, |layout|, 0)
  }

  /** Exactly the segments before the given one were created, and none was inserted. */
  ghost predicate Created(v: State, layout: Layout, wire: nat, index: nat) {
    && v.inserted == map[]
    && (forall s :: s in v.all <==> HasSegment(layout, s) && Before(s, wire, index))
    && (forall s :: s in v.all ==> v.all[s].part == ToPart(InfoAt(layout, s).line))
  }

  /** All segments were created, and exactly the ones of inserted wires before the given one were inserted. */
  ghost predicate InsertedUpTo(v: State, layout: Layout, wire: nat, index: nat) {
    && (forall s :: s in v.all <==> HasSegment(layout, s))
    && (forall s :: s in v.all ==> v.all[s].part == ToPart(InfoAt(layout, s).line))
    && (forall s :: s in v.inserted <==>
          HasSegment(layout, s) && FIRST_INSERTED_WIRE <= s.wire && Before(s, wire, index))
    && (forall s :: s in v.inserted ==> v.inserted[s] == Inserted(v.all[s].id, InfoAt(layout, s)))
  }

  /** A segment that was not created yet is accepted by the validator, and is then created. */
  lemma CreatedStep(v: State, layout: Layout, wire: nat, index: nat)
    requires Created(v, layout, wire, index) && wire < |layout| && index < |layout[wire]|
    ensures Accept(v, CreatedMessage(layout, wire, index)).Some?
    ensures Created(Accept(v, CreatedMessage(layout, wire, index)).value, layout, wire, index + 1)
  {
    var s := Segment(wire, index);
    assert s !in v.all;
    forall r | HasSegment(layout, r) && Before(r, wire, index + 1) ensures r == s || Before(r, wire, index) {
      assert r == Segment(r.wire, r.index);
    }
  }

  /** A created segment of an inserted wire is accepted as an inserted one. */
  lemma InsertedStep(v: State, layout: Layout, wire: nat, index: nat)
    requires InsertedUpTo(v, layout, wire, index) && FIRST_INSERTED_WIRE <= wire < |layout| && index < |layout[wire]|
    ensures Accept(v, InsertedMessage(layout, wire, index)).Some?
    ensures InsertedUpTo(Accept(v, InsertedMessage(layout, wire, index)).value, layout, wire, index + 1)
  {
    hide ToPart;
    var s := Segment(wire, index);
    assert HasSegment(layout, s) && s in v.all && s !in v.inserted;
    assert v.all[s].part == ToPart(layout[wire][index].line);
    forall r | HasSegment(layout, r) && Before(r, wire, index + 1) ensures r == s || Before(r, wire, index) {
      assert r == Segment(r.wire, r.index);
    }
  }

  lemma CreatedWire(v: State, layout: Layout, wire: nat)
    requires wire < |layout| && Created(v, layout, wire, |layout[wire]|)
    ensures Created(v, layout, wire + 1, 0)
  {
    forall s | HasSegment(layout, s)
      ensures Before(s, wire, |layout[wire]|) <==> Before(s, wire + 1, 0)
    {
    }
  }

  lemma InsertedWire(v: State, layout: Layout, wire: nat)
    requires wire < |layout| && InsertedUpTo(v, layout, wire, |layout[wire]|)
    ensures InsertedUpTo(v, layout, wire + 1, 0)
  {
    hide ToPart;
    forall s | HasSegment(layout, s)
      ensures Before(s, wire, |layout[wire]|) <==> Before(s, wire + 1, 0)
    {
    }
  }

  /** Once all wires are created, no segment of an inserted wire is inserted yet. */
  lemma CreatedIsReadyForInsertion(v: State, layout: Layout)
    requires Created(v, layout, |layout|, 0)
    ensures InsertedUpTo(v, layout, FIRST_INSERTED_WIRE, 0)
  {
    hide ToPart;
    forall s | HasSegment(layout, s) ensures Before(s, |layout|, 0) {
    }
  }

  /** What is known of all the segments is what the validator compares with the layout; it holds no others. */
  lemma FinishedMatches(v: State, layout: Layout, wire: nat)
    requires InsertedUpTo(v, layout, wire, 0) && wire >= |layout|
    ensures LayoutMatchesState(v, layout) && HoldsNothingElse(v, layout)
  {
    hide ToPart;
    forall s | HasSegment(layout, s) ensures Before(s, wire, 0) {
    }
  }

  lemma AcceptOneMore(v: State, messages: seq<Message>, m: Message)
    requires AcceptAll(v, messages).Some? && Accept(AcceptAll(v, messages).value, m).Some?
    ensures AcceptAll(v, messages + [m]) == Accept(AcceptAll(v, messages).value, m)
  {
    hide Accept;
    AcceptAllConcat(v, messages, [m]);
    assert [m][1..] == [];
    var now := AcceptAll(v, messages).value;
    assert AcceptAll(now, [m]) == Some(Accept(now, m).value);
  }

  lemma {:induction false} CreatedAreAccepted(layout: Layout, wire: nat, index: nat)
    requires wire <= |layout| && IsPosition(layout, wire, index)
    ensures var v := AcceptAll(EMPTY_STATE, CreatedMessages(layout, wire, index));
      v.Some? && Created(v.value, layout, wire, index)
    decreases wire, index
  {
    hide Accept, AcceptAll, Created;
    if index > 0 {
      CreatedAreAccepted(layout, wire, index - 1);
      CreatedStep(AcceptAll(EMPTY_STATE, CreatedMessages(layout, wire, index - 1)).value, layout, wire, index - 1);
      AcceptOneMore(EMPTY_STATE, CreatedMessages(layout, wire, index - 1), CreatedMessage(layout, wire, index - 1));
    } else if wire > 0 {
      CreatedAreAccepted(layout, wire - 1, |layout[wire - 1]|);
      CreatedWire(AcceptAll(EMPTY_STATE, CreatedMessages(layout, wire, 0)).value, layout, wire - 1);
    } else {
      NothingCreated(layout);
    }
  }

  lemma NothingCreated(layout: Layout)
    ensures AcceptAll(EMPTY_STATE, []) == Some(EMPTY_STATE) && Created(EMPTY_STATE, layout, 0, 0)
  {
  }

  lemma {:induction false} InsertedAreAccepted(layout: Layout, wire: nat, index: nat)
    requires wire <= |layout| && IsPosition(layout, wire, index) && (index > 0 ==> FIRST_INSERTED_WIRE <= wire)
    ensures var v := AcceptAll(EMPTY_STATE, CreatedMessages(layout, |layout|, 0) + InsertedMessages(layout, wire, index));
      v.Some? && InsertedUpTo(v.value, layout, if wire < FIRST_INSERTED_WIRE then FIRST_INSERTED_WIRE else wire, index)
    decreases wire, index
  {
    hide Accept, AcceptAll, InsertedUpTo, Created, CreatedMessages;
    var created := CreatedMessages(layout, |layout|, 0);
    if index > 0 {
      var before := InsertedMessages(layout, wire, index - 1);
      var m := InsertedMessage(layout, wire, index - 1);
      InsertedAreAccepted(layout, wire, index - 1);
      InsertedStep(AcceptAll(EMPTY_STATE, created + before).value, layout, wire, index - 1);
      AcceptOneMore(EMPTY_STATE, created + before, m);
      assert created + (before + [m]) == (created + before) + [m];
    } else if wire > FIRST_INSERTED_WIRE {
      InsertedAreAccepted(layout, wire - 1, |layout[wire - 1]|);
      InsertedWire(AcceptAll(EMPTY_STATE, created + InsertedMessages(layout, wire, 0)).value, layout, wire - 1);
    } else {
      CreatedAreAccepted(layout, |layout|, 0);
      CreatedIsReadyForInsertion(AcceptAll(EMPTY_STATE, created).value, layout);
      assert created + [] == created;
    }
  }

  /** The messages of any layout are accepted, and the state that they lead to is that of the layout. */
  lemma ReplayIsAccepted(layout: Layout)
    ensures var v := AcceptAll(EMPTY_STATE, AllWireMessages(layout));
      v.Some? && LayoutMatchesState(v.value, layout) && HoldsNothingElse(v.value, layout)
  {
    hide Accept, AcceptAll, InsertedUpTo, CreatedMessages, InsertedMessages, LayoutMatchesState, HoldsNothingElse;
    InsertedAreAccepted(layout, |layout|, 0);
    var v := AcceptAll(EMPTY_STATE, AllWireMessages(layout)).value;
    FinishedMatches(v, layout, if |layout| < FIRST_INSERTED_WIRE then FIRST_INSERTED_WIRE else |layout|);
  }

  //
  // Operations
  //

  /** The validator received exactly these messages. */
  ghost predicate Received(validator: MessageValidator, messages: seq<Message>)
    reads validator
  {
    AcceptAll(EMPTY_STATE, messages) == Some(validator.Value())
  }

  method SubmitAccepted(validator: MessageValidator, m: Message, ghost sent: seq<Message>)
    requires Received(validator, sent) && AcceptAll(EMPTY_STATE, sent + [m]).Some?
    modifies validator
    ensures Received(validator, sent + [m])
  {
    hide Accept;
    AcceptAllConcat(EMPTY_STATE, sent, [m]);
    assert [m][1..] == [];
    assert AcceptAll(validator.Value(), [m]) ==
      if Accept(validator.Value(), m).None? then None else Some(Accept(validator.Value(), m).value);
    var ok := validator.Submit(m);
  }

  method GenerateCreatedWireMessage(validator: MessageValidator, layout: Layout, wire: nat)
    requires wire < |layout| && Received(validator, CreatedMessages(layout, wire, 0))
    modifies validator
    ensures Received(validator, CreatedMessages(layout, wire + 1, 0))
  {
    hide AcceptAll, Created;
    for index := 0 to |layout[wire]|
      invariant Received(validator, CreatedMessages(layout, wire, index))
    {
      CreatedAreAccepted(layout, wire, index + 1);
      SubmitAccepted(validator, CreatedMessage(layout, wire, index), CreatedMessages(layout, wire, index));
    }
  }

  method GenerateInsertedWireMessage(validator: MessageValidator, layout: Layout, wire: nat)
    requires FIRST_INSERTED_WIRE <= wire < |layout|
    requires Received(validator, CreatedMessages(layout, |layout|, 0) + InsertedMessages(layout, wire, 0))
    modifies validator
    ensures Received(validator, CreatedMessages(layout, |layout|, 0) + InsertedMessages(layout, wire + 1, 0))
  {
    hide AcceptAll, InsertedUpTo, CreatedMessages;
    ghost var created := CreatedMessages(layout, |layout|, 0);
    for index := 0 to |layout[wire]|
      invariant Received(validator, created + InsertedMessages(layout, wire, index))
    {
      InsertedAreAccepted(layout, wire, index + 1);
      ghost var before, m := InsertedMessages(layout, wire, index), InsertedMessage(layout, wire, index);
      assert created + (before + [m]) == (created + before) + [m];
      SubmitAccepted(validator, InsertedMessage(layout, wire, index), created + before);
    }
  }

  /** Creates the segments of all wires, and then inserts those of the inserted wires. */
  method GenerateAllWireMessages(validator: MessageValidator, layout: Layout)
    requires validator.Value() == EMPTY_STATE
    modifies validator
    ensures AcceptAll(EMPTY_STATE, AllWireMessages(layout)) == Some(validator.Value())
  {
    hide InsertedMessages;
    for wire := 0 to |layout|
      invariant Received(validator, CreatedMessages(layout, wire, 0))
    {
      GenerateCreatedWireMessage(validator, layout, wire);
    }
    var wire := FIRST_INSERTED_WIRE;
    if wire >= |layout| {
      NothingInserted(layout, |layout|);
    } else {
      NothingInserted(layout, wire);
    }
    assert CreatedMessages(layout, |layout|, 0) + [] == CreatedMessages(layout, |layout|, 0);
    while wire < |layout|
      invariant FIRST_INSERTED_WIRE <= wire
      invariant wire <= |layout| ==>
        Received(validator, CreatedMessages(layout, |layout|, 0) + InsertedMessages(layout, wire, 0))
      invariant wire > |layout| ==> Received(validator, AllWireMessages(layout))
    {
      GenerateInsertedWireMessage(validator, layout, wire);
      wire := wire + 1;
    }
  }

  lemma NothingInserted(layout: Layout, wire: nat)
    requires wire <= |layout| && wire <= FIRST_INSERTED_WIRE
    ensures InsertedMessages(layout, wire, 0) == []
  {
  }

  /** The constructor of the validator: it replays a layout into an empty one. */
  method FromLayout(layout: Layout) returns (validator: MessageValidator)
    ensures fresh(validator)
    ensures AcceptAll(EMPTY_STATE, AllWireMessages(layout)) == Some(validator.Value())
    ensures LayoutMatchesState(validator.Value(), layout) && HoldsNothingElse(validator.Value(), layout)
  {
    hide AllWireMessages, LayoutMatchesState, HoldsNothingElse;
    validator := new MessageValidator();
    GenerateAllWireMessages(validator, layout);
    ReplayIsAccepted(layout);
  }
}
