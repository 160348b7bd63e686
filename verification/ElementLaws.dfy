/**
 What the moves of a run do, told on the stored values before and after a move alone: which values reach the
 inputs, what each kind of element with memory makes of them, what the elements drive and what they submit.
 */
module ElementLaws {
  import opened Wrappers
  import opened ElementLogic
  import opened Schematics
  import opened SimulationModel
  import opened SimulationRuns
  import opened TickRefinement
  import opened SimulationStart

  /** Element e sees its input k on: the stored value differs from the inverter. */
  ghost predicate Appears(c: Circuit, s: State, e: nat, k: nat) {
    && e < |s.inputs| && k < |s.inputs[e]| && e < |c.inputInverters| && k < |c.inputInverters[e]|
    && s.inputs[e][k] != c.inputInverters[e][k]
  }

  ghost predicate Rises(c: Circuit, s: State, r: State, e: nat, k: nat) {
    !Appears(c, s, e, k) && Appears(c, r, e, k)
  }

  ghost predicate Falls(c: Circuit, s: State, r: State, e: nat, k: nat) {
    Appears(c, s, e, k) && !Appears(c, r, e, k)
  }

  /** Some input of element e has an event at time t. */
  ghost predicate IsAddressed(s: State, t: int, e: nat) {
    exists ev :: ev in s.queue && ev.time == t && ev.element == e
  }

  /** The element e of the given type, before and after the events of time t. */
  ghost predicate Advances(c: Circuit, s: State, t: int, r: State, e: nat, kind: ElementType) {
    Inv(c, s) && Step(c, s, Advance(t), r) && e < c.Size() && c.types[e] == kind
  }

  //
  // Inputs
  //

  lemma AdvanceIsTick(c: Circuit, s: State, t: int, r: State)
    requires Inv(c, s) && Step(c, s, Advance(t), r)
    ensures CanTick(s, t) && Inv(c, r) && r.time == t && r == Tick(c, s, t)
  {
    hide Inv, TickOver, CanTick, Elements;
    TickKeepsInv(c, s, t);
    TickTime(c, s, t);
  }

  lemma TickTime(c: Circuit, s: State, t: int)
    requires Inv(c, s)
    ensures Tick(c, s, t).time == t
  {
  }

  lemma InvSizes(c: Circuit, s: State)
    requires Inv(c, s)
    ensures Runnable(c) && Shape(c, s)
    ensures |s.inputs| == |s.states| == c.Size() && |c.inputInverters| == |c.inputConnections| == c.Size()
    ensures forall i :: c.HasInput(i) ==> i.element < c.Size() && i.id < |s.inputs[i.element]|
    ensures forall ev :: ev in s.queue ==> c.HasInput(Input(ev.element, ev.input))
  {
  }

  /** The events of the time point set their inputs, all other inputs keep their values. */
  lemma AdvanceSetsInputs(c: Circuit, s: State, t: int, r: State)
    requires Inv(c, s) && Step(c, s, Advance(t), r)
    ensures Inv(c, r) && r.time == t
    ensures forall ev :: ev in s.queue && ev.time == t ==> r.inputs[ev.element][ev.input] == ev.value
    ensures forall i :: c.HasInput(i) && NoneAt(s, t, i) ==>
      r.inputs[i.element][i.id] == s.inputs[i.element][i.id]
  {
    hide Inv, Step, Tick, Shape, Runnable, Circuit.HasInput, NoneAt, InputAfter;
    AdvanceIsTick(c, s, t, r);
    InvSizes(c, s);
    InvSizes(c, r);
    forall ev | ev in s.queue && ev.time == t ensures r.inputs[ev.element][ev.input] == ev.value {
      TickAt(c, s, t, ev.element);
      EventDecides(c, s, t, ev);
    }
    forall i | c.HasInput(i) && NoneAt(s, t, i) ensures r.inputs[i.element][i.id] == s.inputs[i.element][i.id] {
      TickAt(c, s, t, i.element);
      NothingDecides(s, t, i);
    }
  }

  ghost predicate NoneAt(s: State, t: int, i: Input) {
    forall ev :: ev in s.queue && For(ev, i) ==> ev.time != t
  }

  lemma EventDecides(c: Circuit, s: State, t: int, ev: Event)
    requires Inv(c, s) && ev in s.queue && ev.time == t
    ensures ev.element < |s.inputs| && ev.input < |s.inputs[ev.element]|
    ensures InputAfter(s, t, ev.element, ev.input) == ev.value
  {
    hide InWindow, HistoriesFit, Circuit.Valid;
    InvSizes(c, s);
    assert Event(t, ev.element, ev.input, ev.value) == ev;
  }

  lemma NothingDecides(s: State, t: int, i: Input)
    requires NoneAt(s, t, i) && i.element < |s.inputs| && i.id < |s.inputs[i.element]|
    ensures InputAfter(s, t, i.element, i.id) == s.inputs[i.element][i.id]
  {
  }

  lemma AddressedIsActive(s: State, t: int, e: nat)
    ensures IsAddressed(s, t, e) <==> Active(s, t, e)
  {
    if IsAddressed(s, t, e) {
      var ev :| ev in s.queue && ev.time == t && ev.element == e;
      assert Event(t, e, ev.input, ev.value) == ev;
    }
  }

  lemma IdleRow(s: State, t: int, e: nat)
    requires !Active(s, t, e) && e < |s.inputs|
    ensures InputsAfter(s, t, e) == s.inputs[e]
  {
  }

  lemma EffectiveIsAppearance(c: Circuit, s: State, e: nat)
    requires Runnable(c) && Shape(c, s) && e < c.Size()
    ensures |s.inputs[e]| == |c.inputConnections[e]|
    ensures forall k: nat :: k < |c.inputConnections[e]| ==> Effective(c, e, s.inputs[e])[k] == Appears(c, s, e, k)
    ensures CountsValid(c.types[e], |c.inputConnections[e]|, |c.outputConnections[e]|)
    ensures |s.states[e]| == InternalStateSize(c.types[e])
  {
  }

  /**
   An element without events stays as it is. Any other updates its state from what it sees before and what it sees
   after the events.
   */
  lemma AdvanceAt(c: Circuit, s: State, t: int, r: State, e: nat, kind: ElementType) returns (olds: seq<bool>, news: seq<bool>)
    requires Advances(c, s, t, r, e, kind) && HasInternalState(kind)
    ensures |s.states| == |r.states| == c.Size() && e < c.Size() && Inv(c, r)
    ensures |olds| == |news| && CountsValid(kind, |news|, |c.outputConnections[e]|)
    ensures |s.states[e]| == InternalStateSize(kind)
    ensures forall k: nat :: k < |olds| ==> olds[k] == Appears(c, s, e, k) && news[k] == Appears(c, r, e, k)
    ensures !IsAddressed(s, t, e) ==> olds == news && r.states[e] == s.states[e]
    ensures IsAddressed(s, t, e) ==>
      r.states[e] == UpdateInternalState(olds, news, kind, |c.outputConnections[e]|, s.states[e])
  {
    hide Inv, Tick, Shape, Runnable, Appears, InputsAfter, IsAddressed, Active, Step, Effective, UpdateInternalState,
      InternalStateSize, CountsValid;
    AdvanceIsTick(c, s, t, r);
    InvSizes(c, s);
    InvSizes(c, r);
    TickAt(c, s, t, e);
    AddressedIsActive(s, t, e);
    EffectiveIsAppearance(c, s, e);
    EffectiveIsAppearance(c, r, e);
    olds, news := Effective(c, e, s.inputs[e]), Effective(c, e, r.inputs[e]);
    if !Active(s, t, e) {
      IdleRow(s, t, e);
    }
  }

  //
  // Elements with memory
  //

  /** A button stays as it is: only a write changes it. */
  lemma ButtonLaw(c: Circuit, s: State, t: int, r: State, e: nat)
    requires Advances(c, s, t, r, e, Button)
    ensures |r.states| == c.Size() && r.states[e] == s.states[e]
  {
    hide Advances, Appears, IsAddressed, Inv;
    var olds, news := AdvanceAt(c, s, t, r, e, Button);
  }

  /** An enabled latch is transparent, otherwise it holds its state. */
  lemma LatchDLaw(c: Circuit, s: State, t: int, r: State, e: nat)
    requires Advances(c, s, t, r, e, LatchD)
    ensures |r.states| == c.Size()
    ensures IsAddressed(s, t, e) && Appears(c, r, e, 0) ==> r.states[e] == [Appears(c, r, e, 1)]
    ensures !IsAddressed(s, t, e) || !Appears(c, r, e, 0) ==> r.states[e] == s.states[e]
  {
    hide Advances, Appears, IsAddressed, Inv;
    var olds, news := AdvanceAt(c, s, t, r, e, LatchD);
  }

  /** Reset comes before set, and both before the clock, whose rising edge stores the data input. */
  lemma FlipflopDLaw(c: Circuit, s: State, t: int, r: State, e: nat)
    requires Advances(c, s, t, r, e, FlipflopD)
    ensures |r.states| == c.Size()
    ensures !Appears(c, r, e, 2) && !Appears(c, r, e, 3) ==>
      r.states[e] == if Rises(c, s, r, e, 0) then [Appears(c, r, e, 1)] else s.states[e]
    ensures IsAddressed(s, t, e) && Appears(c, r, e, 3) ==> r.states[e] == [false]
    ensures IsAddressed(s, t, e) && Appears(c, r, e, 2) && !Appears(c, r, e, 3) ==> r.states[e] == [true]
    ensures !IsAddressed(s, t, e) ==> r.states[e] == s.states[e]
  {
    hide Advances, Appears, IsAddressed, Inv;
    var olds, news := AdvanceAt(c, s, t, r, e, FlipflopD);
  }

  /** A rising edge stores the data input in the master, a falling edge hands the master to the slave. */
  lemma FlipflopMSDLaw(c: Circuit, s: State, t: int, r: State, e: nat)
    requires Advances(c, s, t, r, e, FlipflopMSD)
    ensures |r.states| == c.Size() && |r.states[e]| == |s.states[e]| == 2
    ensures !Appears(c, r, e, 2) && !Appears(c, r, e, 3) ==>
      && r.states[e][0] == (if Rises(c, s, r, e, 0) then Appears(c, r, e, 1) else s.states[e][0])
      && r.states[e][1] == (if Falls(c, s, r, e, 0) then s.states[e][0] else s.states[e][1])
    ensures IsAddressed(s, t, e) && Appears(c, r, e, 3) ==> r.states[e] == [false, false]
    ensures IsAddressed(s, t, e) && Appears(c, r, e, 2) && !Appears(c, r, e, 3) ==> r.states[e] == [true, true]
    ensures !IsAddressed(s, t, e) ==> r.states[e] == s.states[e]
  {
    hide Advances, Appears, IsAddressed, Inv;
    var olds, news := AdvanceAt(c, s, t, r, e, FlipflopMSD);
  }

  /** At a rising edge J sets, K clears and both toggle the master; a falling edge hands it to the slave. */
  lemma FlipflopJKLaw(c: Circuit, s: State, t: int, r: State, e: nat)
    requires Advances(c, s, t, r, e, FlipflopJK)
    ensures |r.states| == c.Size() && |r.states[e]| == |s.states[e]| == 2
    ensures !Appears(c, r, e, 3) && !Appears(c, r, e, 4) && Rises(c, s, r, e, 0) ==>
      && r.states[e][1] == s.states[e][1]
      && (Appears(c, r, e, 1) && Appears(c, r, e, 2) ==> r.states[e][0] == !s.states[e][1])
      && (Appears(c, r, e, 1) && !Appears(c, r, e, 2) ==> r.states[e][0])
      && (!Appears(c, r, e, 1) && Appears(c, r, e, 2) ==> !r.states[e][0])
      && (!Appears(c, r, e, 1) && !Appears(c, r, e, 2) ==> r.states[e][0] == s.states[e][0])
    ensures !Appears(c, r, e, 3) && !Appears(c, r, e, 4) && !Rises(c, s, r, e, 0) ==>
      && r.states[e][0] == s.states[e][0]
      && r.states[e][1] == (if Falls(c, s, r, e, 0) then s.states[e][0] else s.states[e][1])
    ensures IsAddressed(s, t, e) && Appears(c, r, e, 4) ==> r.states[e] == [false, false]
    ensures IsAddressed(s, t, e) && Appears(c, r, e, 3) && !Appears(c, r, e, 4) ==> r.states[e] == [true, true]
    ensures !IsAddressed(s, t, e) ==> r.states[e] == s.states[e]
  {
    hide Advances, Appears, IsAddressed, Inv;
    var olds, news := AdvanceAt(c, s, t, r, e, FlipflopJK);
  }

  /** A rising edge takes the two data inputs in, a falling edge moves every bit on by two. */
  lemma ShiftRegisterLaw(c: Circuit, s: State, t: int, r: State, e: nat)
    requires Advances(c, s, t, r, e, ShiftRegister)
    ensures |r.states| == c.Size() && |r.states[e]| == |s.states[e]| == 10
    ensures Rises(c, s, r, e, 0) ==>
      && r.states[e][0] == Appears(c, r, e, 1) && r.states[e][1] == Appears(c, r, e, 2)
      && forall j :: 2 <= j < 10 ==> r.states[e][j] == s.states[e][j]
    ensures Falls(c, s, r, e, 0) ==>
      forall j :: 0 <= j < 10 ==> r.states[e][j] == s.states[e][if j < 2 then j else j - 2]
    ensures !Rises(c, s, r, e, 0) && !Falls(c, s, r, e, 0) ==> r.states[e] == s.states[e]
  {
    hide Advances, Appears, IsAddressed, Inv;
    var olds, news := AdvanceAt(c, s, t, r, e, ShiftRegister);
  }

  /** The looped back input k of a generator changed, so the phase it times is over. */
  ghost predicate PhaseOver(c: Circuit, s: State, r: State, e: nat, k: nat) {
    Appears(c, s, e, k) != Appears(c, r, e, k)
  }

  /**
   The state of a generator says whether it runs and what it drives. It switches on when it stands still and is
   enabled, or when the off phase is over and it is enabled. It switches off when the on phase is over. Switching on
   or off toggles the output that times the phase. It stops only when an off phase ends while it is disabled.
   */
  lemma ClockGeneratorLaw(c: Circuit, s: State, t: int, r: State, e: nat)
    requires Advances(c, s, t, r, e, ClockGenerator)
    ensures |r.states| == c.Size() && |r.states[e]| == |s.states[e]| == 4
    ensures var was, now := s.states[e], r.states[e];
      var enabled, onOver, offOver := Appears(c, r, e, 0), PhaseOver(c, s, r, e, 1), PhaseOver(c, s, r, e, 2);
      && (IsAddressed(s, t, e) && enabled && (!was[0] || (!onOver && offOver)) ==> now == [true, true, !was[2], was[3]])
      && (was[0] && onOver ==> now == [true, false, was[2], !was[3]])
      && (was[0] && !onOver && offOver && !enabled ==> now == [false, was[1], was[2], was[3]])
      && (was[0] && !onOver && !offOver ==> now == was)
      && (!was[0] && !enabled ==> now == was)
    ensures !IsAddressed(s, t, e) ==> r.states[e] == s.states[e]
  {
    hide Advances, Appears, IsAddressed, Inv;
    var olds, news := AdvanceAt(c, s, t, r, e, ClockGenerator);
  }

  //
  // What elements drive
  //

  /** The element computes outputs and has the given type. */
  ghost predicate Drives(c: Circuit, s: State, e: nat, kind: ElementType) {
    Inv(c, s) && e < c.Size() && Computes(c, e) && c.types[e] == kind
  }

  /** What the outputs of an element with memory show of its state. */
  lemma OutputsShowState(c: Circuit, s: State, e: nat, kind: ElementType)
    requires Drives(c, s, e, kind) && HasInternalState(kind)
    ensures |s.states| == c.Size() && |s.states[e]| == InternalStateSize(kind)
    ensures var driven, state := DrivenValues(c, s, e), s.states[e];
      && (kind == Button || kind == LatchD || kind == FlipflopD ==> driven == [state[0]])
      && (kind == FlipflopMSD ==> driven == [state[1]])
      && (kind == FlipflopJK ==> driven == [state[1], !state[1]])
      && (kind == ShiftRegister ==> driven == [state[8], state[9]])
      && (kind == ClockGenerator ==> driven == [state[1], state[2], state[3]])
  {
  }

  lemma OutputsFromRow(c: Circuit, s: State, e: nat, kind: ElementType) returns (row: seq<bool>)
    requires Drives(c, s, e, kind) && !HasInternalState(kind)
    ensures Runnable(c) && Shape(c, s) && e < |c.inputConnections|
    ensures |row| == |c.inputConnections[e]| == |s.inputs[e]|
    ensures forall k: nat :: k < |row| ==> row[k] == Appears(c, s, e, k)
    ensures IsCombinational(kind, |row|, |c.outputConnections[e]|)
    ensures DrivenValues(c, s, e) == OutputsFromInputs(row, |c.outputConnections[e]|, kind)
  {
    InvSizes(c, s);
    EffectiveIsAppearance(c, s, e);
    row := Effective(c, e, s.inputs[e]);
  }

  lemma BufferLaw(c: Circuit, s: State, e: nat)
    requires Drives(c, s, e, BufferElement)
    ensures DrivenValues(c, s, e) == [Appears(c, s, e, 0)]
  {
    hide Drives, Appears, DrivenValues;
    var row := OutputsFromRow(c, s, e, BufferElement);
  }

  /** A wire copies its input to all its outputs. */
  lemma WireLaw(c: Circuit, s: State, e: nat)
    requires Drives(c, s, e, Wire)
    ensures |DrivenValues(c, s, e)| == |c.outputConnections[e]|
    ensures forall o :: 0 <= o < |c.outputConnections[e]| ==> DrivenValues(c, s, e)[o] == Appears(c, s, e, 0)
  {
    hide Drives, Appears, DrivenValues;
    var row := OutputsFromRow(c, s, e, Wire);
  }

  lemma AndLaw(c: Circuit, s: State, e: nat)
    requires Drives(c, s, e, AndElement)
    ensures DrivenValues(c, s, e) == [forall k: nat :: k < |c.inputConnections[e]| ==> Appears(c, s, e, k)]
  {
    hide Drives, Appears, DrivenValues;
    var row := OutputsFromRow(c, s, e, AndElement);
  }

  lemma OrLaw(c: Circuit, s: State, e: nat)
    requires Drives(c, s, e, OrElement)
    ensures DrivenValues(c, s, e) == [exists k: nat :: k < |c.inputConnections[e]| && Appears(c, s, e, k)]
  {
    hide Drives, Appears, DrivenValues;
    var row := OutputsFromRow(c, s, e, OrElement);
  }

  /** Position k is the only true one. */
  ghost predicate OnlyTrue(values: seq<bool>, k: nat) {
    k < |values| && values[k] && forall j: nat :: j < |values| && values[j] ==> j == k
  }

  lemma {:induction false} CountsOne(values: seq<bool>)
    ensures CountTrue(values) == 0 <==> forall k: nat :: k < |values| ==> !values[k]
    ensures CountTrue(values) == 1 <==> exists k: nat :: OnlyTrue(values, k)
  {
    if values != [] {
      var rest := values[1..];
      CountsOne(rest);
      assert forall k: nat :: k < |rest| ==> rest[k] == values[k + 1];
      if CountTrue(values) == 1 {
        if values[0] {
          assert forall k: nat :: 0 < k < |values| ==> values[k] == rest[k - 1];
          assert OnlyTrue(values, 0);
        } else {
          var k: nat :| OnlyTrue(rest, k);
          assert forall j: nat :: 0 < j < |values| ==> values[j] == rest[j - 1];
          assert OnlyTrue(values, k + 1);
        }
      }
      if k: nat :| OnlyTrue(values, k) {
        if k == 0 {
          assert forall j: nat :: j < |rest| ==> !rest[j];
        } else {
          assert OnlyTrue(rest, k - 1);
        }
      }
    }
  }

  /** Exactly one input appears on, however many there are. */
  ghost predicate OneAppears(c: Circuit, s: State, e: nat)
    requires e < |c.inputConnections|
  {
    exists k: nat :: OnlyAppears(c, s, e, k)
  }

  ghost predicate OnlyAppears(c: Circuit, s: State, e: nat, k: nat)
    requires e < |c.inputConnections|
  {
    && k < |c.inputConnections[e]| && Appears(c, s, e, k)
    && forall j: nat :: j < |c.inputConnections[e]| && Appears(c, s, e, j) ==> j == k
  }

  lemma XorLaw(c: Circuit, s: State, e: nat)
    requires Drives(c, s, e, XorElement)
    ensures e < |c.inputConnections| && DrivenValues(c, s, e) == [OneAppears(c, s, e)]
  {
    hide Drives, Appears, DrivenValues, CountTrue;
    var row := OutputsFromRow(c, s, e, XorElement);
    CountsOne(row);
    if k: nat :| OnlyTrue(row, k) {
      assert OnlyAppears(c, s, e, k);
    }
    if k: nat :| OnlyAppears(c, s, e, k) {
      assert OnlyTrue(row, k);
    }
  }

  //
  // What elements submit
  //

  /**
   Output o drives another value in r than in s, and ev brings it to the input that o is connected to: as late
   after r as the output is slow.
   */
  ghost predicate Submits(c: Circuit, s: State, r: State, o: Output, ev: Event)
    requires Inv(c, s) && Inv(c, r)
  {
    && c.HasOutput(o) && Computes(c, o.element)
    && DrivenValues(c, s, o.element)[o.id] != DrivenValues(c, r, o.element)[o.id]
    && c.outputConnections[o.element][o.id] == Some(Input(ev.element, ev.input))
    && ev.time == r.time + c.outputDelays[o.element][o.id]
    && ev.value == DrivenValues(c, r, o.element)[o.id]
  }

  lemma TickDrives(c: Circuit, s: State, t: int, e: nat)
    requires Inv(c, s) && Inv(c, Tick(c, s, t)) && e < c.Size() && Computes(c, e)
    ensures DrivenValues(c, Tick(c, s, t), e) == DrivenAfter(c, s, t, e)
    ensures !Active(s, t, e) ==> DrivenValues(c, Tick(c, s, t), e) == DrivenValues(c, s, e)
  {
    TickAt(c, s, t, e);
    if !Active(s, t, e) {
      IdleRow(s, t, e);
    }
  }

  lemma EmittedIsSubmitted(c: Circuit, s: State, t: int, ev: Event)
    requires Inv(c, s) && Inv(c, Tick(c, s, t)) && ev in EmittedByAll(c, s, t, Elements(c))
    ensures exists o :: Submits(c, s, Tick(c, s, t), o, ev)
  {
    hide Inv, TickOver, EmittedByAll, DrivenAfter, DrivenValues, Circuit.Valid, Active;
    InvSizes(c, s);
    RunnableSizes(c);
    var e, o := EmittedSource(c, s, t, ev);
    TickDrives(c, s, t, e);
    TickTime(c, s, t);
    assert Submits(c, s, Tick(c, s, t), Output(e, o), ev);
  }

  lemma SubmittedIsEmitted(c: Circuit, s: State, t: int, o: Output, ev: Event)
    requires Inv(c, s) && Inv(c, Tick(c, s, t)) && Submits(c, s, Tick(c, s, t), o, ev)
    ensures ev in EmittedByAll(c, s, t, Elements(c))
  {
    hide Inv, TickOver, EmittedByAll, DrivenAfter, DrivenValues, Circuit.Valid, Active;
    InvSizes(c, s);
    OutputInSchematic(c, o);
    TickDrives(c, s, t, o.element);
    TickTime(c, s, t);
    EmittedIs(c, s, t, o.element, o.id);
    assert ev == OutputEvent(c, t, Output(o.element, o.id), DrivenAfter(c, s, t, o.element)[o.id]);
  }

  lemma OutputInSchematic(c: Circuit, o: Output)
    requires Runnable(c) && c.HasOutput(o)
    ensures o.element < c.Size()
  {
  }

  /** Of the old events the later ones stay; exactly the outputs that drive another value submit a new one. */
  lemma AdvanceSubmits(c: Circuit, s: State, t: int, r: State)
    requires Inv(c, s) && Step(c, s, Advance(t), r)
    ensures Inv(c, r)
    ensures forall ev :: ev in r.queue <==> (ev in s.queue && ev.time != t) || exists o :: Submits(c, s, r, o, ev)
  {
    hide Inv, Step, Tick, EmittedByAll, Submits;
    AdvanceIsTick(c, s, t, r);
    InvSizes(c, s);
    TickQueue(c, s, t);
    forall ev ensures ev in EmittedByAll(c, s, t, Elements(c)) <==> exists o :: Submits(c, s, r, o, ev) {
      if ev in EmittedByAll(c, s, t, Elements(c)) {
        EmittedIsSubmitted(c, s, t, ev);
      }
      if o :| Submits(c, s, r, o, ev) {
        SubmittedIsEmitted(c, s, t, o, ev);
      }
    }
  }

  /** A time point counts its events. */
  lemma AdvanceCounts(c: Circuit, s: State, t: int, r: State)
    requires Inv(c, s) && Step(c, s, Advance(t), r)
    ensures r.eventCount == s.eventCount + |set ev | ev in s.queue && ev.time == t|
  {
    hide Inv, Step, EmittedByAll;
    AdvanceIsTick(c, s, t, r);
    InvSizes(c, s);
    assert EventsOf(s, t, Elements(c)) == set ev | ev in s.queue && ev.time == t by {
      hide Runnable, Shape;
      forall ev | ev in s.queue ensures ev.element in Elements(c) {
        assert c.HasInput(Input(ev.element, ev.input));
        BelowHas(c, ev.element);
      }
    }
  }

  lemma BelowHas(c: Circuit, e: nat)
    requires e < c.Size()
    ensures e in Elements(c)
  {
  }

  //
  // Histories
  //

  /** The first input of e changes and the element asks for its history. */
  ghost predicate FirstChanges(c: Circuit, s: State, r: State, e: nat)
    requires Inv(c, s) && Inv(c, r) && e < c.Size()
  {
    c.historyLengths[e] > 0 && |c.inputConnections[e]| > 0 && s.inputs[e][0] != r.inputs[e][0]
  }

  lemma RecordsIsFirstChanges(c: Circuit, s: State, t: int, e: nat)
    requires Inv(c, s) && Inv(c, Tick(c, s, t)) && e < c.Size()
    ensures Records(c, s, t, e) <==> FirstChanges(c, s, Tick(c, s, t), e)
  {
    TickAt(c, s, t, e);
  }

  /** The entries before `cut` are those that are too old; the others stay and the new time follows them. */
  ghost predicate Recorded(was: seq<int>, length: int, t: int, now: seq<int>, cut: int) {
    && 0 <= cut <= |was| && now == was[cut..] + [t]
    && forall j :: 0 <= j < |was| ==> (j < cut <==> was[j] < t - length)
  }

  /** A change is recorded, and the entries that are too old by then are dropped; nothing else changes a history. */
  lemma AdvanceRecords(c: Circuit, s: State, t: int, r: State, e: nat)
    requires Inv(c, s) && Step(c, s, Advance(t), r) && e < c.Size()
    ensures Inv(c, r) && |r.histories| == |s.histories| == c.Size() == |c.historyLengths|
    ensures !FirstChanges(c, s, r, e) ==> r.histories[e] == s.histories[e]
    ensures FirstChanges(c, s, r, e) ==>
      exists cut :: Recorded(s.histories[e], c.historyLengths[e], t, r.histories[e], cut)
  {
    hide Step, FirstChanges, Records, InputsAfter, Inv, Tick, Shape, Runnable, Shrink, Ascending;
    AdvanceIsTick(c, s, t, r);
    InvSizes(c, s);
    TickAt(c, s, t, e);
    RecordsIsFirstChanges(c, s, t, e);
    HistoriesSized(c, s, e);
    if FirstChanges(c, s, r, e) {
      RecordedKeepsRecent(s.histories[e], c.historyLengths[e], t, r.histories[e]);
    }
  }

  lemma RecordedKeepsRecent(history: seq<int>, length: int, t: int, now: seq<int>)
    requires Ascending(history) && now == Shrink(history, t - length) + [t]
    ensures exists cut :: Recorded(history, length, t, now, cut)
  {
    var kept := Shrink(history, t - length);
    ShrinkKeeps(history, t - length);
    var cut := |history| - |kept|;
    forall j | cut <= j < |history| ensures history[j] >= t - length {
      assert history[cut] == kept[0];
    }
    assert Recorded(history, length, t, now, cut);
  }

  lemma HistoriesSized(c: Circuit, s: State, e: nat)
    requires Inv(c, s) && e < c.Size()
    ensures |s.histories| == c.Size() == |c.historyLengths| && Ascending(s.histories[e])
  {
    assert HistoryFits(s.histories[e], c.historyLengths[e], s.time, s.largestHistoryEvent);
  }

  lemma {:induction false} LargestIs(c: Circuit, s: State, t: int, done: set<nat>, n: nat)
    requires Runnable(c) && Shape(c, s) && n <= c.Size()
    ensures LargestAfter(c, s, t, done, n) == s.largestHistoryEvent
      || exists e :: e in done && e < n && Records(c, s, t, e) && LargestAfter(c, s, t, done, n) == t + c.historyLengths[e]
  {
    hide Records, Shape, Runnable;
    RunnableSizes(c);
    if n > 0 {
      LargestIs(c, s, t, done, n - 1);
      if n - 1 in done && Records(c, s, t, n - 1) && LargestAfter(c, s, t, done, n) == t + c.historyLengths[n - 1] {
      } else {
        assert LargestAfter(c, s, t, done, n) == LargestAfter(c, s, t, done, n - 1);
      }
    }
  }

  /** The largest history event is when the last recorded change falls out of the history of its element. */
  lemma AdvanceLargest(c: Circuit, s: State, t: int, r: State)
    requires Inv(c, s) && Step(c, s, Advance(t), r)
    ensures Inv(c, r) && |c.historyLengths| == c.Size()
    ensures s.largestHistoryEvent <= r.largestHistoryEvent
    ensures forall e :: 0 <= e < c.Size() && FirstChanges(c, s, r, e) ==> t + c.historyLengths[e] <= r.largestHistoryEvent
    ensures r.largestHistoryEvent == s.largestHistoryEvent
      || exists e :: 0 <= e < c.Size() && FirstChanges(c, s, r, e) && r.largestHistoryEvent == t + c.historyLengths[e]
  {
    hide Step, FirstChanges, Records, Inv, Elements, Runnable, Shape, LargestAfter;
    AdvanceIsTick(c, s, t, r);
    InvSizes(c, s);
    RunnableSizes(c);
    ElementsAre(c);
    LargestBounds(c, s, t, Elements(c), c.Size());
    LargestIs(c, s, t, Elements(c), c.Size());
    forall e: nat | e < c.Size() ensures Records(c, s, t, e) <==> FirstChanges(c, s, r, e) {
      RecordsIsFirstChanges(c, s, t, e);
    }
  }

  lemma RunnableSizes(c: Circuit)
    requires Runnable(c)
    ensures |c.historyLengths| == |c.inputConnections| == |c.outputConnections| == |c.outputDelays| == c.Size()
  {
  }

  lemma ElementsAre(c: Circuit)
    ensures forall e: nat :: e in Elements(c) <==> e < c.Size()
  {
  }

  //
  // Outside changes
  //

  /** A write sets one bit and submits what that changes; everything else stays. */
  lemma WriteLaw(c: Circuit, s: State, e: nat, index: nat, value: bool, r: State)
    requires Inv(c, s) && Step(c, s, WriteState(e, index, value), r)
    ensures Inv(c, r) && CanIndexState(c, e, index)
    ensures r.states[e][index] == value
    ensures forall e2, j :: 0 <= e2 < c.Size() && 0 <= j < |s.states[e2]| && (e2 != e || j != index) ==>
      r.states[e2][j] == s.states[e2][j]
    ensures forall e2 :: 0 <= e2 < c.Size() && e2 != e ==> r.states[e2] == s.states[e2]
    ensures r.time == s.time && r.inputs == s.inputs && r.histories == s.histories
    ensures r.largestHistoryEvent == s.largestHistoryEvent && r.eventCount == s.eventCount
    ensures forall ev :: ev in r.queue <==> ev in s.queue || exists o :: Submits(c, s, r, o, ev)
  {
    hide Inv, WriteEvents, Submits, Shape, Runnable;
    WriteKeepsInv(c, s, e, index, value);
    InvSizes(c, s);
    InvSizes(c, r);
    StateSizes(c, s);
    StateSizes(c, r);
    forall ev ensures ev in WriteEvents(c, s, e, index, value) <==> exists o :: Submits(c, s, r, o, ev) {
      if ev in WriteEvents(c, s, e, index, value) {
        WrittenIsSubmitted(c, s, e, index, value, ev);
      }
      if o :| Submits(c, s, r, o, ev) {
        SubmittedIsWritten(c, s, e, index, value, o, ev);
      }
    }
  }

  /** The same for a write that is possible now. */
  lemma WrittenState(c: Circuit, s: State, e: nat, index: nat, value: bool)
    requires Inv(c, s) && CanIndexState(c, e, index) && Quiet(c, s, e)
    ensures var r := Write(c, s, e, index, value);
      && Inv(c, r) && r.time == s.time && r.inputs == s.inputs && r.histories == s.histories
      && e < |r.states| == |s.states| && index < |r.states[e]| == |s.states[e]| && r.states[e][index] == value
      && (forall j :: 0 <= j < |r.states[e]| && j != index ==> r.states[e][j] == s.states[e][j])
      && (forall e2 :: 0 <= e2 < |r.states| && e2 != e ==> r.states[e2] == s.states[e2])
      && (forall ev :: ev in r.queue <==> ev in s.queue || exists o :: Submits(c, s, r, o, ev))
  {
    hide Inv, Write, Submits, Quiet;
    WriteIsStep(c, s, e, index, value);
    WriteLaw(c, s, e, index, value, Write(c, s, e, index, value));
    InvSizes(c, s);
    InvSizes(c, Write(c, s, e, index, value));
    StateSizes(c, s);
    StateSizes(c, Write(c, s, e, index, value));
  }

  lemma WriteIsStep(c: Circuit, s: State, e: nat, index: nat, value: bool)
    requires Inv(c, s) && CanIndexState(c, e, index) && Quiet(c, s, e)
    ensures Step(c, s, WriteState(e, index, value), Write(c, s, e, index, value))
  {
  }

  lemma StateSizes(c: Circuit, s: State)
    requires Inv(c, s)
    ensures |s.states| == c.Size() && forall e :: 0 <= e < c.Size() ==> |s.states[e]| == InternalStateSize(c.types[e])
  {
  }

  lemma WriteDrives(c: Circuit, s: State, e: nat, index: nat, value: bool, e2: nat)
    requires Inv(c, s) && CanIndexState(c, e, index) && Inv(c, Write(c, s, e, index, value))
    requires e2 < c.Size() && Computes(c, e2)
    ensures DrivenValues(c, Write(c, s, e, index, value), e2) ==
      if e2 == e then OutputValues(c, e, s.inputs[e], s.states[e][index := value]) else DrivenValues(c, s, e2)
  {
  }

  lemma WrittenIsSubmitted(c: Circuit, s: State, e: nat, index: nat, value: bool, ev: Event)
    requires Inv(c, s) && CanIndexState(c, e, index) && Inv(c, Write(c, s, e, index, value))
    requires ev in WriteEvents(c, s, e, index, value)
    ensures exists o :: Submits(c, s, Write(c, s, e, index, value), o, ev)
  {
    hide Inv, DrivenValues, OutputValues, Circuit.Valid, WriteEvents;
    InvSizes(c, s);
    RunnableSizes(c);
    var o := WriteEventSource(c, s, e, index, value, ev);
    StateComputes(c, e, index, o);
    WriteDrives(c, s, e, index, value, e);
    assert Submits(c, s, Write(c, s, e, index, value), Output(e, o), ev);
  }

  lemma StateComputes(c: Circuit, e: nat, index: nat, o: nat)
    requires Runnable(c) && CanIndexState(c, e, index) && o < |c.outputConnections[e]|
    ensures Computes(c, e)
  {
  }

  lemma SubmittedIsWritten(c: Circuit, s: State, e: nat, index: nat, value: bool, o: Output, ev: Event)
    requires Inv(c, s) && CanIndexState(c, e, index) && Inv(c, Write(c, s, e, index, value))
    requires Submits(c, s, Write(c, s, e, index, value), o, ev)
    ensures ev in WriteEvents(c, s, e, index, value)
  {
    hide Inv, DrivenValues, OutputValues, Circuit.Valid;
    InvSizes(c, s);
    OutputInSchematic(c, o);
    WriteDrives(c, s, e, index, value, o.element);
    assert o == Output(o.element, o.id);
    assert WriteEmits(c, s, e, index, value, o.id);
  }

  /** A new value for an unconnected input is submitted for the next time unit; everything else stays. */
  lemma SetInputLaw(c: Circuit, s: State, i: Input, value: bool, r: State)
    requires Inv(c, s) && Step(c, s, SetInput(i, value), r)
    ensures Inv(c, r) && r.time == s.time && r.inputs == s.inputs && r.states == s.states && r.histories == s.histories
    ensures r.largestHistoryEvent == s.largestHistoryEvent && r.eventCount == s.eventCount
    ensures forall ev :: ev in r.queue <==> ev in s.queue || ev == Event(s.time + 1, i.element, i.id, value)
  {
    hide Inv;
    InjectKeepsInv(c, s, i, value);
  }

  //
  // One group of events
  //

  ghost predicate Names(group: seq<Event>, i: Input) {
    exists ev :: ev in group && For(ev, i)
  }

  /** What processing the events of one element does to the stored values of all elements. */
  lemma GroupLaw(c: Circuit, s: State, group: seq<Event>, r: State)
    requires CanApply(c, s, group) && r == GroupApplied(c, s, group)
    ensures |r.inputs| == |r.states| == c.Size()
    ensures forall ev :: ev in group ==>
      ev.element == group[0].element && ev.element < c.Size() && ev.input < |r.inputs[ev.element]|
      && r.inputs[ev.element][ev.input] == ev.value
    ensures forall i :: c.HasInput(i) && !Names(group, i) ==>
      i.id < |r.inputs[i.element]| && r.inputs[i.element][i.id] == s.inputs[i.element][i.id]
    ensures forall e :: 0 <= e < c.Size() && e != group[0].element ==> r.states[e] == s.states[e]
    ensures var e := group[0].element;
      && (c.types[e] == LatchD ==>
        r.states[e] == if Appears(c, r, e, 0) then [Appears(c, r, e, 1)] else s.states[e])
      && (c.types[e] == FlipflopD && !Appears(c, r, e, 2) && !Appears(c, r, e, 3) ==>
        r.states[e] == if Rises(c, s, r, e, 0) then [Appears(c, r, e, 1)] else s.states[e])
  {
    hide GroupValue;
    var e := group[0].element;
    forall ev | ev in group ensures GroupValue(group, ev.input, s.inputs[e][ev.input]) == ev.value {
      GroupValueMember(group, ev.input, s.inputs[e][ev.input]);
    }
    forall i | c.HasInput(i) && !Names(group, i) ensures r.inputs[i.element][i.id] == s.inputs[i.element][i.id] {
      if i.element == e {
        assert forall ev :: ev in group && ev.input == i.id ==> For(ev, i);
        GroupValueMember(group, i.id, s.inputs[e][i.id]);
      }
    }
  }

  //
  // The state after construction
  //

  /** Input i is connected to an item that is no wire, no placeholder and no unused element. */
  ghost predicate BehindLogicItem(c: Circuit, i: Input)
    requires Runnable(c) && c.HasInput(i)
  {
    c.inputConnections[i.element][i.id].Some? && IsLogicItem(c.types[c.inputConnections[i.element][i.id].value.element])
  }

  /** Nothing is connected to input k of element e, and it has no inverter. */
  ghost predicate Loose(c: Circuit, e: nat, k: nat)
    requires Runnable(c) && c.HasInput(Input(e, k))
  {
    c.inputConnections[e][k].None? && !c.inputInverters[e][k]
  }

  /** Loose enable inputs and the loose J and K inputs of a flip-flop are on from the start. */
  ghost predicate OnFromStart(c: Circuit, i: Input)
    requires Runnable(c) && c.HasInput(i)
  {
    || (c.types[i.element] in {ClockGenerator, DisplayNumber, DisplayAscii} && i.id == 0 && Loose(c, i.element, 0))
    || (c.types[i.element] == FlipflopJK && i.id in {1, 2} && Loose(c, i.element, 1) && Loose(c, i.element, 2))
  }

  /** Everything behind a logic item appears off, of the other stored values only those named are on. */
  lemma StartRows(c: Circuit, i: Input)
    requires Runnable(c) && c.HasInput(i)
    ensures i.element < |Start(c).inputs| && i.id < |Start(c).inputs[i.element]|
    ensures BehindLogicItem(c, i) ==> !Appears(c, Start(c), i.element, i.id)
    ensures !BehindLogicItem(c, i) ==> Start(c).inputs[i.element][i.id] == OnFromStart(c, i)
  {
    assert i == Input(i.element, i.id);
    hide StartOver;
    StartRow(c, i.element);
  }

  lemma StartRow(c: Circuit, e: nat)
    requires Runnable(c) && e < c.Size()
    ensures |Start(c).inputs| == |Start(c).states| == c.Size()
    ensures Start(c).inputs[e] == StartInputs(c, e) && Start(c).states[e] == StartInternal(c, e)
  {
  }

  lemma StartAt(c: Circuit, e: nat, kind: ElementType) returns (olds: seq<bool>, news: seq<bool>)
    requires Runnable(c) && e < c.Size() && c.types[e] == kind && HasInternalState(kind)
    ensures |Start(c).states| == c.Size() && e < |Start(c).states|
    ensures |olds| == |news| && CountsValid(kind, |news|, |c.outputConnections[e]|)
    ensures forall k: nat :: k < |olds| ==> !olds[k] && news[k] == Appears(c, Start(c), e, k)
    ensures Start(c).states[e] ==
      UpdateInternalState(olds, news, kind, |c.outputConnections[e]|, Zeros(InternalStateSize(kind)))
  {
    hide UpdateInternalState, StartInput, StartOver, CountsValid, StartEvents, Appears;
    StartKeepsInv(c, c.Size());
    InvSizes(c, Start(c));
    StartRow(c, e);
    EffectiveIsAppearance(c, Start(c), e);
    olds, news := Zeros(|c.inputConnections[e]|), Effective(c, e, StartInputs(c, e));
  }

  /** Elements with memory start as if all their inputs had been off before. */
  lemma StartMemory(c: Circuit, e: nat, kind: ElementType)
    requires Runnable(c) && e < c.Size() && c.types[e] == kind && HasInternalState(kind)
    ensures |Start(c).states| == c.Size()
    ensures var s := Start(c);
      var clock, data := Appears(c, s, e, 0), Appears(c, s, e, 1);
      && (kind == Button ==> s.states[e] == [false])
      && (kind == LatchD ==> s.states[e] == [clock && data])
      && (kind == FlipflopD ==>
        s.states[e] == [!Appears(c, s, e, 3) && (Appears(c, s, e, 2) || (clock && data))])
      && (kind == FlipflopMSD ==>
        s.states[e] == if Appears(c, s, e, 3) then [false, false]
                       else if Appears(c, s, e, 2) then [true, true] else [clock && data, false])
      && (kind == FlipflopJK ==>
        s.states[e] == if Appears(c, s, e, 4) then [false, false]
                       else if Appears(c, s, e, 3) then [true, true] else [clock && data, false])
      && (kind == ShiftRegister ==> s.states[e] == [clock && data, clock && Appears(c, s, e, 2)] + Zeros(8))
      && (kind == ClockGenerator ==> s.states[e] == if clock then [true, true, true, false] else Zeros(4))
  {
    hide Start, Appears, Runnable;
    var olds, news := StartAt(c, e, kind);
  }

  /** Output o belongs to an element that is computed at the start, and ev corrects the value of its target. */
  ghost predicate SubmitsAtStart(c: Circuit, o: Output, ev: Event)
    requires Runnable(c) && Inv(c, Start(c))
  {
    && c.HasOutput(o) && Computes(c, o.element) && c.types[o.element] != Wire
    && c.outputConnections[o.element][o.id] == Some(Input(ev.element, ev.input))
    && c.HasInput(Input(ev.element, ev.input))
    && ev.time == c.outputDelays[o.element][o.id]
    && ev.value == DrivenValues(c, Start(c), o.element)[o.id] != Start(c).inputs[ev.element][ev.input]
  }

  lemma StartDrives(c: Circuit, e: nat)
    requires Runnable(c) && Inv(c, Start(c)) && e < c.Size() && Computes(c, e)
    ensures DrivenValues(c, Start(c), e) == StartOutputs(c, e)
  {
    StartRow(c, e);
  }

  lemma NoLogicNoOutput(c: Circuit, o: Output)
    requires Runnable(c) && c.HasOutput(o)
    ensures o.element < c.Size() && !HasNoLogic(c.types[o.element])
  {
  }

  /** At the start exactly the computed outputs that differ from the stored value of their target are pending. */
  lemma StartSubmits(c: Circuit)
    requires Runnable(c)
    ensures Inv(c, Start(c))
    ensures var s := Start(c); s.time == 0 && s.largestHistoryEvent == 0 && s.eventCount == 0
    ensures forall ev :: ev in Start(c).queue <==> exists o :: SubmitsAtStart(c, o, ev)
  {
    hide Inv, Runnable, SubmitsAtStart, StartEvents;
    StartKeepsInv(c, c.Size());
    forall ev ensures ev in StartEvents(c, c.Size()) <==> exists o :: SubmitsAtStart(c, o, ev) {
      if ev in StartEvents(c, c.Size()) {
        StartEventIsSubmitted(c, ev);
      }
      if o :| SubmitsAtStart(c, o, ev) {
        SubmittedIsStartEvent(c, o, ev);
      }
    }
  }

  lemma StartEventIsSubmitted(c: Circuit, ev: Event)
    requires Runnable(c) && Inv(c, Start(c)) && ev in StartEvents(c, c.Size())
    ensures exists o :: SubmitsAtStart(c, o, ev)
  {
    hide Inv, Start, StartEvents, StartOutputs, DrivenValues, StartInput;
    var e, o := StartEventSource(c, c.Size(), ev);
    StartDrives(c, e);
    StartRow(c, ev.element);
    assert SubmitsAtStart(c, Output(e, o), ev);
  }

  lemma SubmittedIsStartEvent(c: Circuit, o: Output, ev: Event)
    requires Runnable(c) && Inv(c, Start(c)) && SubmitsAtStart(c, o, ev)
    ensures ev in StartEvents(c, c.Size())
  {
    hide Inv, Start, StartEvents, StartOutputs, DrivenValues, StartInput;
    NoLogicNoOutput(c, o);
    StartDrives(c, o.element);
    StartRow(c, ev.element);
    assert o == Output(o.element, o.id);
    assert StartEmits(c, o.element, o.id);
    StartEventIs(c, c.Size(), o.element, o.id);
  }
}
