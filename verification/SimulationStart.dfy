/**
 The state of a simulation after construction, and exactly when it is consistent.
 */
module SimulationStart {
  import opened Wrappers
  import opened ElementLogic
  import opened Schematics
  import opened SimulationModel
  import opened SimulationRuns
  import opened Consistency
  import opened TickRefinement

  function Zeros(n: nat): (r: seq<bool>)
    ensures |r| == n
  {
    seq(n, _ => false)
  }

  predicate IsFree(c: Circuit, i: Input)
    requires c.Valid() && c.HasInput(i)
  {
    c.Driver(i) == None && !c.Inverted(i)
  }

  predicate DrivenByLogicItem(c: Circuit, i: Input)
    requires c.Valid() && c.HasInput(i)
  {
    c.Driver(i).Some? && IsLogicItem(c.types[c.Driver(i).value.element])
  }

  /** A free input that is on from the start. */
  predicate SwitchedOn(c: Circuit, i: Input)
    requires c.Valid() && c.HasInput(i)
  {
    && c.Driver(i) == None
    && (|| (EnableInput(c.types[i.element]) == Some(i.id) && IsFree(c, i))
        || (c.types[i.element] == FlipflopJK && (i.id == 1 || i.id == 2)
            && IsFree(c, Input(i.element, 1)) && IsFree(c, Input(i.element, 2))))
  }

  /**
   The stored value of an input before anything is computed. Free enable inputs, and the free J and K inputs
   of a flip-flop, are on; an input that a logic item drives is such that it appears off behind its inverter.
   */
  function StartInput(c: Circuit, e: nat, k: nat): bool
    requires c.Valid() && c.HasInput(Input(e, k))
  {
    SwitchedOn(c, Input(e, k)) || (c.Inverted(Input(e, k)) && DrivenByLogicItem(c, Input(e, k)))
  }

  /** An inverted input that an output before output o of element e drives, where that is of a logic item. */
  ghost predicate Zeroed(c: Circuit, e: nat, o: nat, i: Input)
    requires c.Valid() && c.HasInput(i)
  {
    && DrivenByLogicItem(c, i) && c.Inverted(i)
    && (c.Driver(i).value.element < e || (c.Driver(i).value.element == e && c.Driver(i).value.id < o))
  }

  function StartInputs(c: Circuit, e: nat): (r: seq<bool>)
    requires c.Valid() && e < c.Size()
    ensures |r| == |c.inputConnections[e]|
  {
    seq(|c.inputConnections[e]|, k requires 0 <= k < |c.inputConnections[e]| => StartInput(c, e, k))
  }

  /** Wires and elements without logic are not computed during construction. */
  predicate IsComputedAtStart(c: Circuit, e: nat)
    requires e < c.Size()
  {
    c.types[e] != Wire && !HasNoLogic(c.types[e])
  }

  ghost function StartInternal(c: Circuit, e: nat): (r: seq<bool>)
    requires Runnable(c) && e < c.Size()
    ensures |r| == InternalStateSize(c.types[e])
  {
    if HasInternalState(c.types[e])
    then UpdateInternalState(Zeros(|c.inputConnections[e]|), Effective(c, e, StartInputs(c, e)), c.types[e],
                             |c.outputConnections[e]|, Zeros(InternalStateSize(c.types[e])))
    else Zeros(InternalStateSize(c.types[e]))
  }

  ghost function StartOutputs(c: Circuit, e: nat): (r: seq<bool>)
    requires Runnable(c) && e < c.Size() && Computes(c, e)
    ensures |r| == |c.outputConnections[e]|
  {
    OutputValues(c, e, StartInputs(c, e), StartInternal(c, e))
  }

  /** The switched-off value of the target differs from the computed output. */
  ghost predicate StartEmits(c: Circuit, e: nat, o: nat)
    requires Runnable(c) && e < c.Size()
  {
    && IsComputedAtStart(c, e) && o < |c.outputConnections[e]| && Computes(c, e)
    && c.Target(Output(e, o)).Some?
    && c.HasInput(c.Target(Output(e, o)).value)
    && StartInput(c, c.Target(Output(e, o)).value.element, c.Target(Output(e, o)).value.id) != StartOutputs(c, e)[o]
  }

  ghost function StartEventsOf(c: Circuit, e: nat): set<Event>
    requires Runnable(c) && e < c.Size()
  {
    set o | 0 <= o < |c.outputConnections[e]| && StartEmits(c, e, o) ::
      OutputEvent(c, 0, Output(e, o), StartOutputs(c, e)[o])
  }

  ghost function StartEvents(c: Circuit, n: nat): set<Event>
    requires Runnable(c) && n <= c.Size()
  {
    if n == 0 then {} else StartEvents(c, n - 1) + StartEventsOf(c, n - 1)
  }

  /** The state during construction, when the first n elements were computed. */
  ghost function StartOver(c: Circuit, n: nat): State
    requires Runnable(c) && n <= c.Size()
  {
    State(
      0,
      StartEvents(c, n),
      seq(c.Size(), e requires 0 <= e < c.Size() => StartInputs(c, e)),
      seq(c.Size(), e requires 0 <= e < c.Size() =>
        if e < n then StartInternal(c, e) else Zeros(InternalStateSize(c.types[e]))),
      seq(c.Size(), e => []),
      0,
      0)
  }

  ghost function Start(c: Circuit): State
    requires Runnable(c)
  {
    StartOver(c, c.Size())
  }

  lemma {:induction false} StartEventSource(c: Circuit, n: nat, ev: Event) returns (e: nat, o: nat)
    requires Runnable(c) && n <= c.Size() && ev in StartEvents(c, n)
    ensures e < n && StartEmits(c, e, o) && ev == OutputEvent(c, 0, Output(e, o), StartOutputs(c, e)[o])
    ensures c.HasInput(Input(ev.element, ev.input)) && c.Driver(Input(ev.element, ev.input)) == Some(Output(e, o))
  {
    if ev in StartEventsOf(c, n - 1) {
      e := n - 1;
      o :| 0 <= o < |c.outputConnections[e]| && StartEmits(c, e, o)
           && ev == OutputEvent(c, 0, Output(e, o), StartOutputs(c, e)[o]);
      assert c.HasOutput(Output(e, o));
    } else {
      e, o := StartEventSource(c, n - 1, ev);
    }
  }

  lemma StartEventOfIs(c: Circuit, e: nat, o: nat)
    requires Runnable(c) && e < c.Size() && StartEmits(c, e, o)
    ensures OutputEvent(c, 0, Output(e, o), StartOutputs(c, e)[o]) in StartEventsOf(c, e)
  {
  }

  lemma {:induction false} StartEventIs(c: Circuit, n: nat, e: nat, o: nat)
    requires Runnable(c) && e < n <= c.Size() && StartEmits(c, e, o)
    ensures OutputEvent(c, 0, Output(e, o), StartOutputs(c, e)[o]) in StartEvents(c, n)
  {
    hide StartEmits, StartOutputs, OutputEvent, StartEventsOf, Runnable;
    if e == n - 1 {
      StartEventOfIs(c, e, o);
    } else {
      StartEventIs(c, n - 1, e, o);
    }
  }

  /** One more output of element e: only its target changes. */
  lemma ZeroedOneMore(c: Circuit, e: nat, o: nat)
    requires c.Valid() && c.HasOutput(Output(e, o)) && IsLogicItem(c.types[e])
    ensures forall i :: c.HasInput(i) ==>
      (Zeroed(c, e, o + 1, i) <==>
        Zeroed(c, e, o, i) || (c.Target(Output(e, o)) == Some(i) && c.Inverted(i)))
  {
  }

  lemma TargetIsInput(c: Circuit, o: Output)
    requires c.Valid() && c.HasOutput(o)
    ensures c.Target(o).Some? ==> c.HasInput(c.Target(o).value)
  {
  }

  /** All outputs of element e are done. */
  lemma ZeroedNext(c: Circuit, e: nat)
    requires c.Valid() && e < c.Size()
    ensures forall i :: c.HasInput(i) ==>
      (Zeroed(c, e + 1, 0, i) <==>
        if IsLogicItem(c.types[e]) then Zeroed(c, e, |c.outputConnections[e]|, i) else Zeroed(c, e, 0, i))
  {
    forall i | c.HasInput(i) && c.Driver(i).Some? ensures c.HasOutput(c.Driver(i).value) {
    }
  }

  lemma ZeroedAll(c: Circuit)
    requires c.Valid()
    ensures forall i :: c.HasInput(i) ==>
      (SwitchedOn(c, i) || Zeroed(c, c.Size(), 0, i)) == StartInput(c, i.element, i.id)
    ensures forall i :: c.HasInput(i) ==> !Zeroed(c, 0, 0, i)
  {
    forall i | c.HasInput(i)
      ensures (SwitchedOn(c, i) || Zeroed(c, c.Size(), 0, i)) == StartInput(c, i.element, i.id)
    {
      assert i == Input(i.element, i.id);
      if c.Driver(i).Some? {
        assert c.HasOutput(c.Driver(i).value);
      }
    }
  }

  /** The fields before the first element is computed. */
  lemma StartsFrom(c: Circuit, s: State)
    requires Runnable(c) && |s.inputs| == c.Size()
    requires s.time == 0 && s.queue == {} && s.largestHistoryEvent == 0 && s.eventCount == 0
    requires s.histories == seq(c.Size(), e => [])
    requires s.states == seq(c.Size(), e requires 0 <= e < c.Size() => Zeros(InternalStateSize(c.types[e])))
    requires forall e :: 0 <= e < c.Size() ==> |s.inputs[e]| == |c.inputConnections[e]|
    requires forall i :: c.HasInput(i) ==> s.inputs[i.element][i.id] == StartInput(c, i.element, i.id)
    ensures s == StartOver(c, 0)
  {
    forall e | 0 <= e < c.Size() ensures s.inputs[e] == StartInputs(c, e) {
      forall k | 0 <= k < |s.inputs[e]| ensures s.inputs[e][k] == StartInputs(c, e)[k] {
        assert c.HasInput(Input(e, k));
      }
    }
    assert s.inputs == StartOver(c, 0).inputs;
    assert s.states == StartOver(c, 0).states;
    assert s.histories == StartOver(c, 0).histories;
  }

  /** No time passes during construction, and only states and events change. */
  lemma StartTime(c: Circuit)
    requires Runnable(c)
    ensures forall n: nat :: n <= c.Size() ==>
      StartOver(c, n).time == 0 && StartOver(c, n).queue == StartEvents(c, n)
      && StartOver(c, n).inputs == StartOver(c, 0).inputs
  {
  }

  /** Computing one more element. */
  lemma StartOneMore(c: Circuit, e: nat)
    requires Runnable(c) && e < c.Size()
    ensures var was, now := StartOver(c, e), StartOver(c, e + 1);
      && now == was.(states := now.states, queue := now.queue)
      && was.states[e] == Zeros(InternalStateSize(c.types[e])) && was.inputs[e] == StartInputs(c, e)
      && now.states == was.states[e := StartInternal(c, e)]
      && now.queue == was.queue + StartEventsOf(c, e)
  {
    var was, now := StartOver(c, e), StartOver(c, e + 1);
    assert now.states == was.states[e := StartInternal(c, e)];
    assert now.inputs == was.inputs;
    assert now.histories == was.histories;
  }

  lemma NotComputedAtStart(c: Circuit, e: nat)
    requires Runnable(c) && e < c.Size() && !IsComputedAtStart(c, e)
    ensures StartInternal(c, e) == Zeros(InternalStateSize(c.types[e])) && StartEventsOf(c, e) == {}
  {
  }

  /** The inverters as old inputs mean that the element sees all inputs off. */
  lemma InvertersAreOff(c: Circuit, e: nat)
    requires Runnable(c) && e < c.Size()
    ensures Effective(c, e, c.inputInverters[e]) == Zeros(|c.inputConnections[e]|)
  {
  }

  lemma ComputedAtStart(c: Circuit, e: nat, inputs: seq<seq<bool>>)
    requires Runnable(c) && e < c.Size() && IsComputedAtStart(c, e) && inputs == StartOver(c, 0).inputs
    ensures UpdatedState(c, e, c.inputInverters[e], StartInputs(c, e), Zeros(InternalStateSize(c.types[e])))
         == StartInternal(c, e)
    ensures |c.outputConnections[e]| == 0 ==> StartEventsOf(c, e) == {}
    ensures |c.outputConnections[e]| > 0 ==>
      && Computes(c, e)
      && StartEventsOf(c, e) ==
           ChangedEvents(c, 0, e, SwitchedOffOutputs(c, inputs, e), StartOutputs(c, e), |c.outputConnections[e]|)
  {
    InvertersAreOff(c, e);
    if |c.outputConnections[e]| > 0 {
      var olds := SwitchedOffOutputs(c, inputs, e);
      forall o | 0 <= o < |c.outputConnections[e]|
        ensures StartEmits(c, e, o) <==> olds[o] != StartOutputs(c, e)[o] && c.Target(Output(e, o)).Some?
      {
        assert c.HasOutput(Output(e, o));
      }
    }
  }

  /** No event is in the way of those of element e. */
  lemma StartCanSubmit(c: Circuit, e: nat, o: nat)
    requires Runnable(c) && e < c.Size() && o < |c.outputConnections[e]| && c.Target(Output(e, o)).Some?
    ensures NoEventFor(StartEvents(c, e), c.Delay(Output(e, o)), c.Target(Output(e, o)).value)
  {
    assert c.HasOutput(Output(e, o));
    forall ev | ev in StartEvents(c, e) ensures !For(ev, c.Target(Output(e, o)).value) {
      var e2, o2 := StartEventSource(c, e, ev);
    }
  }

  lemma StartKeepsInv(c: Circuit, n: nat)
    requires Runnable(c) && n <= c.Size()
    ensures Inv(c, StartOver(c, n))
  {
    var r := StartOver(c, n);
    forall ev | ev in r.queue
      ensures c.HasInput(Input(ev.element, ev.input))
      ensures 0 < ev.time <= Lead(c, Input(ev.element, ev.input))
    {
      var e, o := StartEventSource(c, n, ev);
    }
    forall a, b | a in r.queue && b in r.queue && a.time == b.time && For(b, Input(a.element, a.input))
      ensures a == b
    {
      var e1, o1 := StartEventSource(c, n, a);
      var e2, o2 := StartEventSource(c, n, b);
    }
  }

  //
  // Consistency after construction
  //

  /** A wire whose inverted input no logic item drives: it appears on, but its targets start as if it were off. */
  ghost predicate StartsHigh(c: Circuit, w: nat)
    requires Runnable(c)
  {
    && w < c.Size() && c.types[w] == Wire && |c.inputConnections[w]| > 0
    && c.Inverted(Input(w, 0)) && !DrivenByLogicItem(c, Input(w, 0))
  }

  lemma WireStartInputs(c: Circuit, w: nat)
    requires Runnable(c) && w < c.Size() && c.types[w] == Wire && |c.inputConnections[w]| > 0
    ensures Effective(c, w, StartInputs(c, w))[0] == StartsHigh(c, w)
  {
    assert StartInput(c, w, 0) == (c.Inverted(Input(w, 0)) && DrivenByLogicItem(c, Input(w, 0)));
  }

  lemma WireTargetStart(c: Circuit, o: Output)
    requires Runnable(c) && c.HasOutput(o) && c.Target(o).Some? && c.types[o.element] == Wire
    ensures var i := c.Target(o).value;
      && c.HasInput(i) && !StartInput(c, i.element, i.id)
      && forall ev :: ev in StartEvents(c, c.Size()) ==> !For(ev, i)
  {
    var i := c.Target(o).value;
    forall ev | ev in StartEvents(c, c.Size()) ensures !For(ev, i) {
      var e2, o2 := StartEventSource(c, c.Size(), ev);
    }
  }

  lemma WireStart(c: Circuit, o: Output)
    requires Runnable(c) && c.HasOutput(o) && c.Target(o).Some? && Computes(c, o.element)
    requires c.types[o.element] == Wire
    ensures Shape(c, Start(c))
    ensures DrivenValues(c, Start(c), o.element)[o.id] == StartsHigh(c, o.element)
    ensures LatestValue(Start(c), c.Target(o).value) == false
  {
    hide StartsHigh, StartInput;
    StartKeepsInv(c, c.Size());
    WireStartInputs(c, o.element);
    WireTargetStart(c, o);
    assert Start(c).inputs[o.element] == StartInputs(c, o.element);
    assert Start(c).inputs[c.Target(o).value.element] == StartInputs(c, c.Target(o).value.element);
  }

  lemma StartValues(c: Circuit, e: nat)
    requires Runnable(c) && e < c.Size() && Shape(c, Start(c))
    ensures Start(c).inputs[e] == StartInputs(c, e) && Start(c).queue == StartEvents(c, c.Size()) && Start(c).time == 0
    ensures Computes(c, e) ==> DrivenValues(c, Start(c), e) == StartOutputs(c, e)
  {
    hide StartEvents, OutputValues;
  }

  lemma StartInvParts(c: Circuit)
    requires Runnable(c)
    ensures Shape(c, Start(c)) && Unique(Start(c)) && |Start(c).inputs| == c.Size()
  {
    hide InWindow, HistoriesFit, StartEvents;
    StartKeepsInv(c, c.Size());
  }

  lemma TargetIsThere(c: Circuit, o: Output)
    requires Runnable(c) && c.HasOutput(o) && c.Target(o).Some?
    ensures o.element < c.Size() && c.HasInput(c.Target(o).value) && c.Driver(c.Target(o).value) == Some(o)
    ensures c.Target(o).value.element < c.Size()
  {
  }

  lemma ComputedStart(c: Circuit, o: Output)
    requires Runnable(c) && c.HasOutput(o) && c.Target(o).Some? && Computes(c, o.element)
    requires c.types[o.element] != Wire
    ensures Shape(c, Start(c)) && Consistent(c, Start(c), o)
  {
    hide Inv, Shape, Unique, Start, StartEvents, StartOutputs, StartInput, DrivenValues, Runnable, LatestValue, Circuit.Valid;
    StartInvParts(c);
    TargetIsThere(c, o);
    var s, e, i := Start(c), o.element, c.Target(o).value;
    StartValues(c, e);
    StartValues(c, i.element);
    ComputesIsComputed(c, o);
    if StartEmits(c, e, o.id) {
      var ev := OutputEvent(c, 0, o, StartOutputs(c, e)[o.id]);
      StartEventIs(c, c.Size(), e, o.id);
      forall x | x in s.queue && For(x, i) ensures x.time <= ev.time {
        var e2, o2 := StartEventSource(c, c.Size(), x);
      }
      assert IsLast(s, i, ev);
      LatestIs(s, i, ev);
    } else {
      forall x | x in s.queue ensures !For(x, i) {
        var e2, o2 := StartEventSource(c, c.Size(), x);
      }
      LatestOfNone(s, i);
    }
  }

  lemma ComputesIsComputed(c: Circuit, o: Output)
    requires Runnable(c) && c.HasOutput(o) && Computes(c, o.element) && c.types[o.element] != Wire
    ensures IsComputedAtStart(c, o.element)
  {
  }

  /** After construction exactly the outputs of wires that start high are inconsistent. */
  lemma StartConsistentIff(c: Circuit, o: Output)
    requires Runnable(c) && c.HasOutput(o) && c.Target(o).Some? && Computes(c, o.element)
    ensures Shape(c, Start(c))
    ensures Consistent(c, Start(c), o) <==> !StartsHigh(c, o.element)
  {
    if c.types[o.element] == Wire {
      WireStart(c, o);
    } else {
      ComputedStart(c, o);
    }
  }

  ghost predicate NoWireStartsHigh(c: Circuit)
    requires Runnable(c)
  {
    forall o :: c.HasOutput(o) && c.Target(o).Some? ==> !StartsHigh(c, o.element)
  }

  /** In this state every output agrees with its target. */
  ghost predicate AllConsistent(c: Circuit, s: State) {
    Runnable(c) && Shape(c, s) && forall o :: Consistent(c, s, o)
  }

  /** In every state of every run from construction, every output agrees with its target. */
  ghost predicate AlwaysConsistent(c: Circuit)
    requires Runnable(c)
  {
    forall s :: Reaches(c, Start(c), s) ==> AllConsistent(c, s)
  }

  lemma StartAllConsistentIff(c: Circuit)
    requires Runnable(c)
    ensures AllConsistent(c, Start(c)) <==> NoWireStartsHigh(c)
  {
    StartKeepsInv(c, c.Size());
    forall o | c.HasOutput(o) && c.Target(o).Some?
      ensures Consistent(c, Start(c), o) <==> !StartsHigh(c, o.element)
    {
      if Computes(c, o.element) {
        StartConsistentIff(c, o);
      }
    }
  }

  lemma ReachableConsistent(c: Circuit, s: State)
    requires Runnable(c) && NoWireStartsHigh(c) && Reaches(c, Start(c), s)
    ensures AllConsistent(c, s)
  {
    StartAllConsistentIff(c);
    var states, moves :| IsTrace(c, states, moves) && states[0] == Start(c) && states[|moves|] == s;
    TraceKeepsInv(c, states, moves, |moves|);
    forall o ensures Consistent(c, s, o) {
      TraceKeepsConsistent(c, states, moves, o, |moves|);
    }
  }

  /** Outputs and targets agree in all runs if and only if no connected wire starts high. */
  lemma AlwaysConsistentIff(c: Circuit)
    requires Runnable(c)
    ensures AlwaysConsistent(c) <==> NoWireStartsHigh(c)
  {
    StartKeepsInv(c, c.Size());
    StartAllConsistentIff(c);
    if NoWireStartsHigh(c) {
      forall s | Reaches(c, Start(c), s) ensures AllConsistent(c, s) {
        ReachableConsistent(c, s);
      }
    } else {
      ReachesSelf(c, Start(c));
    }
  }

  /** A wire with an inverted, unconnected input that feeds a buffer. */
  function InvertedWire(): Circuit {
    Circuit([Wire, BufferElement], [[None], [Some(Output(0, 0))]], [[Some(Input(1, 0))], [None]],
            [[true], [false]], [[1], [3000]], [0, 0])
  }

  lemma InvertedWireRuns()
    ensures Runnable(InvertedWire()) && StartsHigh(InvertedWire(), 0)
  {
    var c := InvertedWire();
    forall i | c.HasInput(i) && c.Driver(i).Some? ensures i == Input(1, 0) {
      assert i.element == 0 || i.element == 1;
    }
    forall o | c.HasOutput(o) && c.Target(o).Some? ensures o == Output(0, 0) {
      assert o.element == 0 || o.element == 1;
    }
    assert c.Linked();
  }

  /** Its buffer never learns that the wire appears on: nothing is even pending for it. */
  lemma InvertedWireIsInconsistent()
    ensures Runnable(InvertedWire()) && Shape(InvertedWire(), Start(InvertedWire()))
    ensures !Consistent(InvertedWire(), Start(InvertedWire()), Output(0, 0))
    ensures forall ev :: ev in Start(InvertedWire()).queue ==> !For(ev, Input(1, 0))
  {
    InvertedWireRuns();
    StartConsistentIff(InvertedWire(), Output(0, 0));
    WireTargetStart(InvertedWire(), Output(0, 0));
  }
}
