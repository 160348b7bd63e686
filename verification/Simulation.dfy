/**
 The simulation as the program runs it: fields that are updated event by event. Every method is tied to the
 state machine of `SimulationModel` and `SimulationRuns`.
 */
module Simulations {
  import opened Wrappers
  import opened ElementLogic
  import opened Schematics
  import opened SimulationModel
  import opened SimulationQueues
  import opened TickRefinement
  import opened SimulationRuns
  import opened Interruption
  import opened SimulationStart
  import opened Reachability
  import opened LimitedRuns
  import opened Consistency
  import opened ElementLaws

  /** Where an element logic update takes the previous output values from. */
  datatype OutputsFrom = SwitchedOff | Current

  datatype WriteError = NotWritable

  datatype InputError = InputConnected

  /** How many time units a state write waits for a quiet one. */
  const MaxTries := 10

  method InvertInputs(values: seq<bool>, inverters: seq<bool>) returns (r: seq<bool>)
    requires |values| == |inverters|
    ensures r == Invert(values, inverters)
  {
    r := values;
    for i := 0 to |values|
      invariant |r| == |values|
      invariant forall k :: 0 <= k < |values| ==> r[k] == if k < i then values[k] != inverters[k] else values[k]
    {
      r := r[i := values[i] != inverters[i]];
    }
  }

  /** The positions at which the two differ, in ascending order. */
  method GetChangedOutputs(olds: seq<bool>, news: seq<bool>) returns (changed: seq<nat>)
    requires |olds| == |news|
    ensures forall o: nat :: o in changed <==> o < |olds| && olds[o] != news[o]
    ensures AllBelow(changed, |olds|) && forall i, j :: 0 <= i < j < |changed| ==> changed[i] < changed[j]
  {
    changed := [];
    for o := 0 to |olds|
      invariant forall p: nat :: p in changed <==> p < o && olds[p] != news[p]
      invariant AllBelow(changed, o) && forall i, j :: 0 <= i < j < |changed| ==> changed[i] < changed[j]
    {
      if olds[o] != news[o] {
        changed := changed + [o];
      }
    }
  }

  /** The timer of a run that is not limited in real time. */
  function NoTimeout(): nat -> bool { _ => false }

  class Simulation {
    const circuit: Circuit
    const queue: SimulationQueue
    var inputValues: seq<seq<bool>>
    var internalStates: seq<seq<bool>>
    var firstInputHistories: seq<seq<int>>
    var largestHistoryEvent: int
    var eventCount: nat

    ghost function State(): State
      reads this, queue
    {
      SimulationModel.State(queue.time, queue.events, inputValues, internalStates, firstInputHistories,
                            largestHistoryEvent, eventCount)
    }

    ghost predicate Valid()
      reads this, queue
    {
      Inv(circuit, State())
    }

    /** The vectors have an entry for every element and every input, output or state bit. */
    ghost predicate Sized()
      reads this
    {
      && Runnable(circuit)
      && |inputValues| == |internalStates| == |firstInputHistories| == circuit.Size()
      && (forall e :: 0 <= e < circuit.Size() ==> |inputValues[e]| == |circuit.inputConnections[e]|)
      && (forall e :: 0 <= e < circuit.Size() ==> |internalStates[e]| == InternalStateSize(circuit.types[e]))
    }

    constructor (c: Circuit)
      requires Runnable(c)
      ensures circuit == c && fresh(queue)
      ensures Valid() && State() == Start(c)
    {
      circuit := c;
      queue := new SimulationQueue();
      inputValues := seq(c.Size(), e requires 0 <= e < c.Size() => Zeros(|c.inputConnections[e]|));
      internalStates := seq(c.Size(), e requires 0 <= e < c.Size() => Zeros(InternalStateSize(c.types[e])));
      firstInputHistories := seq(c.Size(), e => []);
      largestHistoryEvent, eventCount := 0, 0;
      new;
      InitializeInputValues();
      SetOutputsToZero();
      StartsFrom(c, State());
      InitializeCircuitState();
      StartKeepsInv(c, c.Size());
    }

    lemma ValidParts()
      requires Valid()
      ensures Sized() && queue.Valid()
      ensures forall ev :: ev in queue.events ==> queue.time < ev.time
    {
    }

    //
    // Construction
    //

    method SetInput(e: nat, k: nat, value: bool)
      requires Sized() && circuit.HasInput(Input(e, k))
      modifies this`inputValues
      ensures Sized() && inputValues == old(inputValues)[e := old(inputValues)[e][k := value]]
    {
      inputValues := inputValues[e := inputValues[e][k := value]];
    }

    /** Switches on the free enable inputs, and the J and K inputs of flip-flops if both are free. */
    method InitializeInputValues()
      requires Sized() && forall e, k :: 0 <= e < circuit.Size() && 0 <= k < |inputValues[e]| ==> !inputValues[e][k]
      modifies this`inputValues
      ensures Sized()
      ensures forall i :: circuit.HasInput(i) ==> inputValues[i.element][i.id] == SwitchedOn(circuit, i)
    {
      for e := 0 to circuit.Size()
        invariant Sized()
        invariant forall i :: circuit.HasInput(i) ==>
          inputValues[i.element][i.id] == (i.element < e && SwitchedOn(circuit, i))
      {
        var enable := EnableInput(circuit.types[e]);
        if enable.Some? {
          assert circuit.HasInput(Input(e, enable.value));
          if IsFree(circuit, Input(e, enable.value)) {
            SetInput(e, enable.value, true);
          }
        }
        if circuit.types[e] == FlipflopJK {
          assert circuit.HasInput(Input(e, 1)) && circuit.HasInput(Input(e, 2));
          if IsFree(circuit, Input(e, 1)) && IsFree(circuit, Input(e, 2)) {
            SetInput(e, 1, true);
            SetInput(e, 2, true);
          }
        }
      }
    }

    /** Logic item outputs appear off: an inverted input that one drives is set. */
    method SetOutputsToZero()
      requires Sized()
      requires forall i :: circuit.HasInput(i) ==> inputValues[i.element][i.id] == SwitchedOn(circuit, i)
      modifies this`inputValues
      ensures Sized()
      ensures forall i :: circuit.HasInput(i) ==> inputValues[i.element][i.id] == StartInput(circuit, i.element, i.id)
    {
      hide SwitchedOn, Zeroed, StartInput, Circuit.Linked;
      ZeroedAll(circuit);
      for e := 0 to circuit.Size()
        invariant Sized()
        invariant forall i :: circuit.HasInput(i) ==>
          inputValues[i.element][i.id] == (SwitchedOn(circuit, i) || Zeroed(circuit, e, 0, i))
      {
        ZeroedNext(circuit, e);
        if IsLogicItem(circuit.types[e]) {
          for o := 0 to |circuit.outputConnections[e]|
            invariant Sized()
            invariant forall i :: circuit.HasInput(i) ==>
              inputValues[i.element][i.id] == (SwitchedOn(circuit, i) || Zeroed(circuit, e, o, i))
          {
            ZeroedOneMore(circuit, e, o);
            TargetIsInput(circuit, Output(e, o));
            var target := circuit.outputConnections[e][o];
            if target.Some? && circuit.Inverted(target.value) {
              SetInput(target.value.element, target.value.id, true);
            }
          }
        }
      }
    }

    method InitializeCircuitState()
      requires Sized() && queue.Valid() && State() == StartOver(circuit, 0)
      modifies this`internalStates, queue`events
      ensures State() == Start(circuit)
    {
      hide StartOver, StartInternal, StartEventsOf, StartEvents, UpdatedState, ChangedEvents, OutputValues,
        SwitchedOffOutputs, CanSubmit;
      StartTime(circuit);
      for e := 0 to circuit.Size()
        invariant Sized() && queue.Valid() && State() == StartOver(circuit, e)
      {
        StartOneMore(circuit, e);
        if circuit.types[e] != Wire && !HasNoLogic(circuit.types[e]) {
          ComputedAtStart(circuit, e, inputValues);
          CanSubmitAtStart(e);
          UpdateElementLogic(SwitchedOff, e, circuit.inputInverters[e]);
        } else {
          NotComputedAtStart(circuit, e);
        }
      }
    }

    //
    // Inputs
    //

    method ShrinkHistory(e: nat, min: int)
      requires e < |firstInputHistories|
      modifies this`firstInputHistories
      ensures firstInputHistories == old(firstInputHistories)[e := Shrink(old(firstInputHistories)[e], min)]
    {
      var history := firstInputHistories[e];
      while history != [] && history[0] < min
        invariant Shrink(history, min) == Shrink(old(firstInputHistories)[e], min)
        decreases |history|
      {
        history := history[1..];
      }
      firstInputHistories := firstInputHistories[e := history];
    }

    /** An entry is never recorded twice for the same time, so the history stays ascending. */
    method RecordInputHistory(i: Input, newValue: bool)
      requires Sized() && circuit.HasInput(i)
      requires i.id == 0 ==> Ascending(firstInputHistories[i.element])
      requires i.id == 0 ==> forall j :: 0 <= j < |firstInputHistories[i.element]| ==>
        firstInputHistories[i.element][j] < queue.time
      modifies this`firstInputHistories, this`largestHistoryEvent
      ensures i.id != 0 ==> firstInputHistories == old(firstInputHistories) && largestHistoryEvent == old(largestHistoryEvent)
      ensures i.id == 0 ==>
        var was, length := inputValues[i.element][0], circuit.historyLengths[i.element];
        && firstInputHistories == old(firstInputHistories)[i.element :=
             RecordedHistory(old(firstInputHistories)[i.element], was, newValue, length, queue.time)]
        && largestHistoryEvent == RecordedLargest(old(largestHistoryEvent), was, newValue, length, queue.time)
    {
      if i.id != 0 {
        return;
      }
      var historyLength := circuit.historyLengths[i.element];
      if historyLength <= 0 {
        return;
      }
      if newValue == inputValues[i.element][i.id] {
        return;
      }
      ShrinkKeeps(firstInputHistories[i.element], queue.time - historyLength);
      ShrinkHistory(i.element, queue.time - historyLength);
      var history := firstInputHistories[i.element];
      assert history == [] || history[|history| - 1] < queue.time;
      firstInputHistories := firstInputHistories[i.element := history + [queue.time]];
      largestHistoryEvent := Max(largestHistoryEvent, queue.time + historyLength);
    }

    method SetInputInternal(i: Input, value: bool)
      requires Sized() && circuit.HasInput(i)
      requires i.id == 0 ==> Ascending(firstInputHistories[i.element])
      requires i.id == 0 ==> forall j :: 0 <= j < |firstInputHistories[i.element]| ==>
        firstInputHistories[i.element][j] < queue.time
      modifies this`inputValues, this`firstInputHistories, this`largestHistoryEvent
      ensures inputValues == old(inputValues)[i.element := old(inputValues)[i.element][i.id := value]]
      ensures i.id != 0 ==> firstInputHistories == old(firstInputHistories) && largestHistoryEvent == old(largestHistoryEvent)
      ensures i.id == 0 ==>
        var was, length := old(inputValues)[i.element][0], circuit.historyLengths[i.element];
        && firstInputHistories == old(firstInputHistories)[i.element :=
             RecordedHistory(old(firstInputHistories)[i.element], was, value, length, queue.time)]
        && largestHistoryEvent == RecordedLargest(old(largestHistoryEvent), was, value, length, queue.time)
    {
      RecordInputHistory(i, value);
      inputValues := inputValues[i.element := inputValues[i.element][i.id := value]];
    }

    /** Sets the inputs of one element from the events of a group. */
    method ApplyEvents(e: nat, group: seq<Event>)
      requires Sized() && e < circuit.Size() && DistinctInputs(group)
      requires forall ev :: ev in group ==> ev.element == e && circuit.HasInput(Input(e, ev.input))
      requires Ascending(firstInputHistories[e])
      requires forall j :: 0 <= j < |firstInputHistories[e]| ==> firstInputHistories[e][j] < queue.time
      modifies this`inputValues, this`firstInputHistories, this`largestHistoryEvent
      ensures Sized()
      ensures inputValues == old(inputValues)[e := GroupRow(group, old(inputValues)[e])]
      ensures |old(inputValues)[e]| == 0 ==>
        firstInputHistories == old(firstInputHistories) && largestHistoryEvent == old(largestHistoryEvent)
      ensures |old(inputValues)[e]| > 0 ==>
        var was, length := old(inputValues)[e][0], circuit.historyLengths[e];
        var is_ := GroupValue(group, 0, was);
        && firstInputHistories == old(firstInputHistories)[e :=
             RecordedHistory(old(firstInputHistories)[e], was, is_, length, queue.time)]
        && largestHistoryEvent == RecordedLargest(old(largestHistoryEvent), was, is_, length, queue.time)
    {
      ghost var row := inputValues[e];
      assert GroupRow(group[..0], row) == row;
      for j := 0 to |group|
        invariant |firstInputHistories| == circuit.Size()
        invariant inputValues == old(inputValues)[e := GroupRow(group[..j], row)]
        invariant |row| == 0 ==>
          firstInputHistories == old(firstInputHistories) && largestHistoryEvent == old(largestHistoryEvent)
        invariant |row| > 0 ==>
          var is_ := GroupValue(group[..j], 0, row[0]);
          && firstInputHistories == old(firstInputHistories)[e :=
               RecordedHistory(old(firstInputHistories)[e], row[0], is_, circuit.historyLengths[e], queue.time)]
          && largestHistoryEvent ==
               RecordedLargest(old(largestHistoryEvent), row[0], is_, circuit.historyLengths[e], queue.time)
      {
        var ev := group[j];
        assert ev in group && circuit.HasInput(Input(e, ev.input));
        GroupRowStep(group, j, row);
        if ev.input == 0 {
          assert forall x :: x in group[..j] ==> x.input != 0;
          GroupValueMember(group[..j], 0, row[0]);
        }
        SetInputInternal(Input(e, ev.input), ev.value);
      }
      assert group[..|group|] == group;
    }

    //
    // Outputs
    //

    method SubmitEvent(o: Output, outputValues: seq<bool>)
      requires Sized() && queue.Valid() && circuit.HasOutput(o)
      requires o.id < |outputValues|
      requires circuit.Target(o).Some? ==> NoEventFor(queue.events, queue.time + circuit.Delay(o), circuit.Target(o).value)
      modifies queue`events
      ensures queue.Valid()
      ensures queue.events == old(queue.events) +
        if circuit.Target(o).Some? then {OutputEvent(circuit, queue.time, o, outputValues[o.id])} else {}
    {
      var target := circuit.outputConnections[o.element][o.id];
      if target.Some? {
        queue.SubmitEvent(Event(queue.time + circuit.outputDelays[o.element][o.id], target.value.element, target.value.id,
                                outputValues[o.id]));
      }
    }

    /** No event is pending where the outputs of this element would put one now. */
    ghost predicate CanSubmit(e: nat)
      requires Runnable(circuit) && e < circuit.Size()
      reads queue
    {
      forall o: nat :: o < |circuit.outputConnections[e]| && circuit.Target(Output(e, o)).Some? ==>
        NoEventFor(queue.events, queue.time + circuit.Delay(Output(e, o)), circuit.Target(Output(e, o)).value)
    }

    method SubmitEventsForChangedOutputs(e: nat, olds: seq<bool>, news: seq<bool>)
      requires Sized() && queue.Valid() && e < circuit.Size() && CanSubmit(e)
      requires |olds| == |news| == |circuit.outputConnections[e]|
      modifies queue`events
      ensures queue.Valid()
      ensures queue.events == old(queue.events) + ChangedEvents(circuit, queue.time, e, olds, news, |olds|)
    {
      var changed := GetChangedOutputs(olds, news);
      for j := 0 to |changed|
        invariant queue.Valid()
        invariant queue.events == old(queue.events) + ListedEvents(circuit, queue.time, e, news, changed[..j])
      {
        var o := Output(e, changed[j]);
        assert changed[j] in changed;
        ListedOneMore(circuit, queue.time, e, news, changed, j);
        if circuit.Target(o).Some? {
          ListedElsewhere(circuit, queue.time, e, news, changed[..j], o);
        }
        SubmitEvent(o, news);
      }
      assert changed[..|changed|] == changed;
      ListedAreChanged(circuit, queue.time, e, olds, news, changed);
    }

    //
    // Element logic
    //

    method InvertedInputs(e: nat, values: seq<bool>) returns (r: seq<bool>)
      requires Runnable(circuit) && e < circuit.Size() && |values| == |circuit.inputConnections[e]|
      ensures r == Effective(circuit, e, values)
    {
      var inverters := circuit.inputInverters[e];
      if exists i :: 0 <= i < |inverters| && inverters[i] {
        r := InvertInputs(values, inverters);
      } else {
        r := values;
        assert Invert(values, inverters) == values;
      }
    }

    method CalculateOutputs(e: nat, inputs: seq<bool>, state: seq<bool>) returns (r: seq<bool>)
      requires Runnable(circuit) && e < circuit.Size() && Computes(circuit, e)
      requires |inputs| == |circuit.inputConnections[e]| && |state| == InternalStateSize(circuit.types[e])
      ensures r == OutputValues(circuit, e, inputs, state)
    {
      var t, outputCount := circuit.types[e], |circuit.outputConnections[e]|;
      if HasInternalState(t) {
        r := OutputsFromState(state, |inputs|, outputCount, t);
      } else {
        var effective := InvertedInputs(e, inputs);
        r := OutputsFromInputs(effective, outputCount, t);
      }
    }

    /** Updates the internal state and submits events for the outputs that differ from before. */
    method UpdateElementLogic(from: OutputsFrom, e: nat, oldInputs: seq<bool>)
      requires Sized() && queue.Valid() && e < circuit.Size() && CanSubmit(e)
      requires |oldInputs| == |circuit.inputConnections[e]|
      requires |circuit.outputConnections[e]| > 0 ==> Computes(circuit, e)
      modifies this`internalStates, queue`events
      ensures Sized() && queue.Valid()
      ensures internalStates == old(internalStates)[e :=
        UpdatedState(circuit, e, oldInputs, inputValues[e], old(internalStates)[e])]
      ensures |circuit.outputConnections[e]| == 0 ==> queue.events == old(queue.events)
      ensures |circuit.outputConnections[e]| > 0 ==>
        var olds := if from == SwitchedOff then SwitchedOffOutputs(circuit, inputValues, e)
                    else OutputValues(circuit, e, oldInputs, old(internalStates)[e]);
        queue.events == old(queue.events) + ChangedEvents(circuit, queue.time, e, olds,
          OutputValues(circuit, e, inputValues[e], internalStates[e]), |circuit.outputConnections[e]|)
    {
      var t, outputCount := circuit.types[e], |circuit.outputConnections[e]|;
      var oldOutputs := [];
      if outputCount > 0 {
        if from == SwitchedOff {
          oldOutputs := SwitchedOffOutputs(circuit, inputValues, e);
        } else {
          oldOutputs := CalculateOutputs(e, oldInputs, internalStates[e]);
        }
      }
      UpdateState(e, oldInputs);
      if outputCount > 0 {
        var newOutputs := CalculateOutputs(e, inputValues[e], internalStates[e]);
        SubmitEventsForChangedOutputs(e, oldOutputs, newOutputs);
      }
    }

    method UpdateState(e: nat, oldInputs: seq<bool>)
      requires Sized() && e < circuit.Size() && |oldInputs| == |circuit.inputConnections[e]|
      modifies this`internalStates
      ensures Sized()
      ensures internalStates == old(internalStates)[e :=
        UpdatedState(circuit, e, oldInputs, inputValues[e], old(internalStates)[e])]
    {
      var t, outputCount := circuit.types[e], |circuit.outputConnections[e]|;
      if HasInternalState(t) {
        var olds := InvertedInputs(e, oldInputs);
        var news := InvertedInputs(e, inputValues[e]);
        internalStates := internalStates[e := UpdateInternalState(olds, news, t, outputCount, internalStates[e])];
      } else {
        assert internalStates == internalStates[e := internalStates[e]];
      }
    }

    //
    // Processing events
    //

    /** Sets the inputs of an element from a group of events and updates the element. */
    method ProcessEventGroup(group: seq<Event>)
      requires Sized() && queue.Valid() && CanApply(circuit, State(), group) && CanSubmit(group[0].element)
      requires Ascending(firstInputHistories[group[0].element])
      requires forall j :: 0 <= j < |firstInputHistories[group[0].element]| ==>
        firstInputHistories[group[0].element][j] < queue.time
      modifies this`inputValues, this`internalStates, this`firstInputHistories, this`largestHistoryEvent, queue`events
      ensures Sized() && queue.Valid() && State() == GroupApplied(circuit, old(State()), group)
      ensures forall ev :: ev in group ==> ev.element == group[0].element && inputValues[ev.element][ev.input] == ev.value
      ensures forall i :: circuit.HasInput(i) && !Names(group, i) ==>
        inputValues[i.element][i.id] == old(inputValues)[i.element][i.id]
      ensures forall e :: 0 <= e < circuit.Size() && e != group[0].element ==> internalStates[e] == old(internalStates)[e]
      ensures var e, r := group[0].element, State();
        && (circuit.types[e] == LatchD ==>
          internalStates[e] == if Appears(circuit, r, e, 0) then [Appears(circuit, r, e, 1)] else old(internalStates)[e])
        && (circuit.types[e] == FlipflopD && !Appears(circuit, r, e, 2) && !Appears(circuit, r, e, 3) ==>
          internalStates[e] == if Rises(circuit, old(State()), r, e, 0) then [Appears(circuit, r, e, 1)]
                               else old(internalStates)[e])
    {
      hide GroupRow, GroupValue, UpdatedState, RecordedHistory, RecordedLargest, ChangedEvents, OutputValues, Ascending,
        DistinctInputs, SimulationQueue.Valid, CanSubmit, Circuit.Valid, Appears, Names;
      GroupLaw(circuit, State(), group, GroupApplied(circuit, State(), group));
      var e := group[0].element;
      var oldInputs := inputValues[e];
      ApplyEvents(e, group);
      if HasNoLogic(circuit.types[e]) {
        NoLogicNoOutputs(e, oldInputs, inputValues[e]);
        return;
      }
      UpdateElementLogic(Current, e, oldInputs);
    }

    lemma NoLogicNoOutputs(e: nat, olds: seq<bool>, news: seq<bool>)
      requires Sized() && e < circuit.Size() && HasNoLogic(circuit.types[e])
      requires |olds| == |news| == |circuit.inputConnections[e]|
      ensures |circuit.outputConnections[e]| == 0
      ensures internalStates == internalStates[e := UpdatedState(circuit, e, olds, news, internalStates[e])]
    {
      assert UpdatedState(circuit, e, olds, news, internalStates[e]) == internalStates[e];
    }

    lemma CanSubmitNow(e: nat, before: State, done: set<nat>)
      requires Inv(circuit, before) && CanTick(before, queue.time) && forall d :: d in done ==> d < circuit.Size()
      requires e < circuit.Size() && e !in done
      requires queue.events == GroupTaken(circuit, before, queue.time, done, e).queue
      ensures CanSubmit(e)
    {
      forall o: nat | o < |circuit.outputConnections[e]| && circuit.Target(Output(e, o)).Some?
        ensures NoEventFor(queue.events, queue.time + circuit.Delay(Output(e, o)), circuit.Target(Output(e, o)).value)
      {
        NothingInTheWay(circuit, before, queue.time, done, e, o);
      }
    }

    /** Takes the next group from the queue and processes it: that of an element that was not processed yet. */
    method ProcessNextGroup(ghost before: State, ghost done: set<nat>) returns (ghost e: nat)
      requires Inv(circuit, before) && CanTick(before, queue.time) && forall d :: d in done ==> d < circuit.Size()
      requires Sized() && queue.Valid() && State() == TickOver(circuit, before, queue.time, done)
      requires exists ev :: ev in queue.events && ev.time == queue.time
      modifies this`inputValues, this`internalStates, this`firstInputHistories, this`largestHistoryEvent,
        this`eventCount, queue
      ensures Sized() && queue.Valid() && queue.time == old(queue.time)
      ensures e < circuit.Size() && e !in done && State() == TickOver(circuit, before, queue.time, done + {e})
    {
      hide TickOver, GroupTaken, Inv, CanTick, ListsGroup, SameGroup, Shape, IsGroup, GroupApplied, CanApply, Sized;
      SizedShape(before, done);
      ghost var events := queue.events;
      var group := queue.PopEventGroup();
      PoppedGroup(circuit, before, queue.time, done, group, events);
      e := group[0].element;
      GroupCanApply(circuit, before, queue.time, done, e, group);
      TakenHistory(circuit, before, queue.time, done, e);
      CanSubmitNow(e, before, done);
      GroupAppliedIsNext(circuit, before, queue.time, done, e, group);
      ProcessEventGroup(group);
      CountGroup(|group|);
    }

    method CountGroup(n: nat)
      requires Sized()
      modifies this`eventCount
      ensures Sized() && eventCount == old(eventCount) + n
    {
      eventCount := eventCount + n;
    }

    lemma SizedShape(before: State, done: set<nat>)
      requires Inv(circuit, before) && CanTick(before, queue.time) && forall d :: d in done ==> d < circuit.Size()
      requires Sized() && State() == TickOver(circuit, before, queue.time, done)
      ensures Shape(circuit, TickOver(circuit, before, queue.time, done))
    {
      forall ev | ev in queue.events ensures circuit.HasInput(Input(ev.element, ev.input)) {
        if ev !in before.queue {
          EmittedHasInput(circuit, before, queue.time, done, ev);
        }
      }
    }

    /** Processes all events at the current time: every element at most once. */
    method ProcessAllCurrentEvents(ghost before: State)
      requires Inv(circuit, before) && CanTick(before, queue.time) && State() == before.(time := queue.time)
      requires Sized() && queue.Valid()
      modifies this`inputValues, this`internalStates, this`firstInputHistories, this`largestHistoryEvent,
        this`eventCount, queue
      ensures Sized() && queue.Valid() && Valid() && State() == Tick(circuit, before, old(queue.time))
    {
      hide TickOver, Inv, CanTick, Sized, Shape, Runnable;
      ghost var t := queue.time;
      ghost var done: set<nat> := {};
      NothingProcessed(circuit, before, t);
      var next := queue.NextEventTime();
      while next == Some(queue.time)
        invariant Sized() && queue.Valid() && queue.time == t
        invariant forall d :: d in done ==> d < circuit.Size()
        invariant State() == TickOver(circuit, before, t, done)
        invariant IsNextTime(queue.events, next)
        decreases circuit.Size() - |done|
      {
        ghost var e := ProcessNextGroup(before, done);
        MoreDone(circuit, done, e);
        done := done + {e};
        next := queue.NextEventTime();
      }
      AllProcessed(circuit, before, t, done, next);
    }

    lemma CanSubmitAtStart(e: nat)
      requires Runnable(circuit) && e < circuit.Size() && queue.time == 0 && queue.events == StartEvents(circuit, e)
      ensures CanSubmit(e)
    {
      forall o: nat | o < |circuit.outputConnections[e]| && circuit.Target(Output(e, o)).Some?
        ensures NoEventFor(queue.events, queue.time + circuit.Delay(Output(e, o)), circuit.Target(Output(e, o)).value)
      {
        StartCanSubmit(circuit, e, o);
      }
    }

    //
    // Running
    //

    /** Advances to the next time point that has events and processes it. */
    method ProcessNextTime(t: int)
      requires Valid() && IsNextTime(queue.events, Some(t))
      modifies this`inputValues, this`internalStates, this`firstInputHistories, this`largestHistoryEvent,
        this`eventCount, queue
      ensures old(queue.events) != {} && t == NextTime(old(queue.events))
      ensures Valid() && State() == Advanced(circuit, old(State()))
    {
      ValidParts();
      ghost var before := State();
      NextTimeIs(queue.events, t);
      queue.SetTime(t);
      ProcessAllCurrentEvents(before);
    }

    /** Processes time points until the next one is not due or a limit interrupts, which is after n of them. */
    method ProcessDueTimes(config: RunConfig, timer: nat -> bool)
      returns (next: Option<int>, interrupted: bool, ghost n: nat)
      requires Valid() && ConfigProblem(config) == None && !DoesNothing(config) && Ends(circuit, State(), config, timer)
      modifies this`inputValues, this`internalStates, this`firstInputHistories, this`largestHistoryEvent,
        this`eventCount, queue
      ensures Valid() && State() == PointAt(circuit, old(State()), config, n)
      ensures GoesOn(circuit, old(State()), config, timer, n)
      ensures interrupted <==> StopsAt(circuit, old(State()), config, timer, n)
      ensures !interrupted ==> IsNextTime(queue.events, next)
      ensures !interrupted && next.Some? ==>
        config.simulateFor.Some? && old(queue.time) + config.simulateFor.value < next.value
    {
      hide Inv, Reaches, Steps, RunTo, Settled, Advanced, Due, RunOut, Settles, IsNextTime, NextTime, Ends, LastQuery,
        TotalSteps, GoesOn, StopsAt, ChecksAfter;
      ghost var start := State();
      n, interrupted := 0, false;
      var endTime := EndTime(config, queue.time);
      var maxCount := MaxCount(config, eventCount);
      var nextCheck := Sooner(maxCount, FirstTimerCheck(config, eventCount));
      var queries := 0;
      ghost var total, lastQuery := TotalSteps(circuit, start, config), LastQuery(timer);
      ghost var byTimer := config.simulateFor.None? && config.maxEvents.None? && !Settles(circuit, start);
      RunStarts(circuit, start, config, timer);
      ChecksFit(circuit, start, config, 0);
      if byTimer {
        TimerEnds(circuit, start, config, timer);
      }
      next := queue.NextEventTime();
      while next.Some? && (endTime.None? || next.value <= endTime.value)
        invariant Valid() && State() == PointAt(circuit, start, config, n)
        invariant IsNextTime(queue.events, next)
        invariant GoesOn(circuit, start, config, timer, n) && !StopsAt(circuit, start, config, timer, n)
        invariant ChecksAfter(circuit, start, config, n) == Checks(nextCheck, queries)
        invariant maxCount.Some? ==> nextCheck.Some? && nextCheck.value <= maxCount.value
        invariant endTime.Some? ==> queue.time <= endTime.value
        invariant byTimer ==> nextCheck.Some? && queries <= lastQuery
        decreases if endTime.Some? then endTime.value - queue.time
                  else if maxCount.Some? then maxCount.value - eventCount
                  else if byTimer then lastQuery - queries
                  else total - n,
                  if byTimer then Max(nextCheck.value - eventCount, 0) else 0
      {
        RunOneMore(circuit, start, config, n, total, next);
        CheckOneMore(circuit, start, config, timer, n);
        ChecksFit(circuit, start, config, n + 1);
        ProcessNextTime(next.value);
        n := n + 1;
        if nextCheck.Some? && nextCheck.value <= eventCount {
          var expired := config.realtimeTimeout.Some? && timer(queries);
          if expired || (maxCount.Some? && maxCount.value <= eventCount) {
            interrupted := true;
            return;
          }
          nextCheck := Sooner(maxCount, Some(nextCheck.value + CHECK_INTERVAL));
          queries := queries + 1;
        }
        next := queue.NextEventTime();
      }
    }

    /**
     Runs until the end time, or without one until nothing is pending, unless a limit interrupts. The timer is
     asked after at least every thousand events; it may answer anything. Without any limit a call returns only if
     nothing is pending eventually.
     */
    method Run(config: RunConfig, timer: nat -> bool)
      returns (r: Result<(), RunError>, ghost n: nat, ghost interrupted: bool)
      requires Valid() && Ends(circuit, State(), config, timer)
      modifies this`inputValues, this`internalStates, this`firstInputHistories, this`largestHistoryEvent,
        this`eventCount, queue
      ensures Valid() && Reaches(circuit, old(State()), State())
      ensures ConfigProblem(config).Some? ==> r == Err(ConfigProblem(config).value) && State() == old(State())
      ensures ConfigProblem(config).None? ==> r == Ok(())
      ensures ConfigProblem(config).None? && DoesNothing(config) ==> State() == old(State())
      ensures ConfigProblem(config).None? && !DoesNothing(config) ==>
        Ran(circuit, old(State()), State(), config, timer, n, interrupted)
      ensures r.Ok? <==>
        && (config.simulateFor.Some? ==> config.simulateFor.value >= 0)
        && (config.realtimeTimeout.Some? ==> config.realtimeTimeout.value >= 0)
        && (config.maxEvents.Some? ==> config.maxEvents.value >= 0)
      ensures r.Ok? && config.maxEvents != Some(0) && config.realtimeTimeout != Some(0) && config.simulateFor != Some(0) ==>
        && (interrupted ==>
              || (config.maxEvents.Some? && old(eventCount) + config.maxEvents.value <= eventCount)
              || (config.realtimeTimeout.Some? && exists query: nat :: Expires(timer, query)))
        && (!interrupted && config.maxEvents.Some? ==> eventCount < old(eventCount) + config.maxEvents.value)
        && (!interrupted && config.simulateFor.Some? ==> queue.time == old(queue.time) + config.simulateFor.value)
        && (!interrupted && config.simulateFor.None? ==> queue.events == {} && largestHistoryEvent <= queue.time)
    {
      hide Inv, Reaches, Steps, RunTo, Settled, Advanced, Due, RunOut, Settles, IsNextTime, NextTime, Ends, Completed, GoesOn,
        StopsAt;
      ghost var start := State();
      n, interrupted := 0, false;
      ReachesSelf(circuit, start);
      var problem := ConfigProblem(config);
      if problem.Some? {
        return Err(problem.value), n, interrupted;
      }
      if config.maxEvents == Some(0) || config.realtimeTimeout == Some(0) || config.simulateFor == Some(0) {
        return Ok(()), n, interrupted;
      }
      var endTime := EndTime(config, queue.time);
      var next, stopped;
      next, stopped, n := ProcessDueTimes(config, timer);
      interrupted := stopped;
      if stopped {
        StepsReach(circuit, start, start, endTime, n);
        RanEnds(circuit, start, State(), config, timer, n, interrupted);
        return Ok(()), n, interrupted;
      }
      RunIsOver(circuit, start, config, timer, n, next);
      ValidParts();
      if endTime.None? {
        queue.SetTime(Max(queue.time, largestHistoryEvent));
      } else {
        queue.SetTime(endTime.value);
      }
      RanEnds(circuit, start, State(), config, timer, n, interrupted);
      return Ok(()), n, interrupted;
    }

    //
    // Outside changes
    //

    /** One smallest time unit passes. */
    method AdvanceOneUnit()
      requires Valid()
      modifies this`inputValues, this`internalStates, this`firstInputHistories, this`largestHistoryEvent,
        this`eventCount, queue
      ensures Valid() && State() == UnitTick(circuit, old(State()))
    {
      ValidParts();
      ghost var before := State();
      queue.SetTime(queue.time + 1);
      ProcessAllCurrentEvents(before);
    }

    /**
     Waits up to ten time units for one in which the state of the element does not change, and then writes it.
     Fails if the inputs of the element are too busy.
     */
    method TrySetInternalState(e: nat, index: nat, value: bool)
      returns (r: Result<bool, WriteError>, ghost tries: nat)
      requires Valid() && CanIndexState(circuit, e, index)
      modifies this`inputValues, this`internalStates, this`firstInputHistories, this`largestHistoryEvent,
        this`eventCount, queue
      ensures Valid() && Reaches(circuit, old(State()), State())
      ensures !IsStateUserWritable(circuit.types[e]) ==> r == Err(NotWritable) && State() == old(State())
      ensures IsStateUserWritable(circuit.types[e]) ==> r.Ok? && tries < MaxTries
      ensures r.Ok? ==> BusyFor(circuit, old(State()), e, tries)
      ensures r == Ok(true) ==>
        && !ChangedAt(circuit, old(State()), e, tries)
        && State() == Write(circuit, Ticked(circuit, old(State()), tries + 1), e, index, value)
      ensures r == Ok(true) ==>
        var before := Ticked(circuit, old(State()), tries + 1);
        && e < |internalStates| == |before.states| && index < |internalStates[e]|
        && internalStates[e][index] == value
        && (forall j :: 0 <= j < |internalStates[e]| == |before.states[e]| && j != index ==>
              internalStates[e][j] == before.states[e][j])
        && (forall e2 :: 0 <= e2 < |internalStates| && e2 != e ==> internalStates[e2] == before.states[e2])
        && queue.time == old(queue.time) + tries + 1 && inputValues == before.inputs
        && firstInputHistories == before.histories
      ensures r == Ok(true) ==>
        var before := Ticked(circuit, old(State()), tries + 1);
        forall ev :: ev in queue.events <==> ev in before.queue || exists o :: Submits(circuit, before, State(), o, ev)
      ensures r == Ok(false) ==>
        && tries + 1 == MaxTries && ChangedAt(circuit, old(State()), e, tries)
        && State() == Ticked(circuit, old(State()), MaxTries)
    {
      hide Inv, Reaches, UnitTick, Write, Submits;
      ghost var start := State();
      tries := 0;
      ReachesSelf(circuit, start);
      if !IsStateUserWritable(circuit.types[e]) {
        return Err(NotWritable), tries;
      }
      ValidParts();
      var found := false;
      var n := 0;
      while !found && n < MaxTries
        invariant Valid() && Sized() && n <= MaxTries && State() == Ticked(circuit, start, n)
        invariant !found ==> BusyFor(circuit, start, e, n)
        invariant found ==> 0 < n && BusyFor(circuit, start, e, n - 1) && !ChangedAt(circuit, start, e, n - 1)
        decreases if found then 0 else 1, MaxTries - n
      {
        var startState := internalStates[e];
        AdvanceOneUnit();
        ValidParts();
        found := startState == internalStates[e];
        if !found {
          BusyOneMore(circuit, start, e, n);
        }
        n := n + 1;
      }
      tries := n - 1;
      TickedReaches(circuit, start, start, n);
      if !found {
        return Ok(false), tries;
      }
      CanWriteNow(circuit, Ticked(circuit, start, n - 1), e, index);
      ghost var before := State();
      WrittenState(circuit, before, e, index, value);
      WriteReaches(circuit, start, State(), e, index, value);
      ChangeState(e, index, value);
      return Ok(true), tries;
    }

    /** Changes the state and schedules the resulting events. */
    method ChangeState(e: nat, index: nat, value: bool)
      requires Valid() && CanIndexState(circuit, e, index) && Quiet(circuit, State(), e)
      modifies this`internalStates, queue`events
      ensures State() == Write(circuit, old(State()), e, index, value)
    {
      ValidParts();
      WriteEventsAreChanged(circuit, State(), e, index, value);
      QuietElementCanSubmit(e);
      var oldOutputs := CalculateOutputs(e, inputValues[e], internalStates[e]);
      internalStates := internalStates[e := internalStates[e][index := value]];
      var newOutputs := CalculateOutputs(e, inputValues[e], internalStates[e]);
      SubmitEventsForChangedOutputs(e, oldOutputs, newOutputs);
    }

    lemma QuietElementCanSubmit(e: nat)
      requires Valid() && e < circuit.Size() && Quiet(circuit, State(), e)
      ensures CanSubmit(e)
    {
      forall o: nat | o < |circuit.outputConnections[e]| && circuit.Target(Output(e, o)).Some?
        ensures NoEventFor(queue.events, queue.time + circuit.Delay(Output(e, o)), circuit.Target(Output(e, o)).value)
      {
        QuietCanSubmit(circuit, State(), e, o);
      }
    }

    /** The new value becomes visible two time units later; one of them has passed when the call returns. */
    method SetUnconnectedInput(i: Input, value: bool) returns (r: Result<(), InputError>)
      requires Valid() && circuit.HasInput(i)
      modifies this`inputValues, this`internalStates, this`firstInputHistories, this`largestHistoryEvent,
        this`eventCount, queue
      ensures Valid() && Reaches(circuit, old(State()), State())
      ensures circuit.Driver(i).Some? ==> r == Err(InputConnected) && State() == old(State())
      ensures circuit.Driver(i).None? ==>
        && r == Ok(())
        && |UnitTick(circuit, old(State())).inputs| == circuit.Size()
        && i.id < |UnitTick(circuit, old(State())).inputs[i.element]|
        && State() == if UnitTick(circuit, old(State())).inputs[i.element][i.id] != value
                      then Inject(UnitTick(circuit, old(State())), i, value)
                      else UnitTick(circuit, old(State()))
      ensures r.Ok? ==>
        && queue.time == old(queue.time) + 1
        && i.element < |inputValues| && i.id < |inputValues[i.element]| && LatestValue(State(), i) == value
      ensures r.Ok? ==>
        var next := UnitTick(circuit, State());
        && i.element < |next.inputs| && i.id < |next.inputs[i.element]| && next.inputs[i.element][i.id] == value
      ensures r.Ok? ==>
        var before := UnitTick(circuit, old(State()));
        && inputValues == before.inputs && internalStates == before.states
        && forall j :: circuit.HasInput(j) && j != i ==>
             && j.element < |inputValues| && j.id < |inputValues[j.element]|
             && LatestValue(State(), j) == LatestValue(before, j)
    {
      hide Inv, Reaches, UnitTick, RunTo, Ran, LatestValue;
      ghost var start := State();
      ReachesSelf(circuit, start);
      if circuit.inputConnections[i.element][i.id].Some? {
        return Err(InputConnected);
      }
      RunToUnit(circuit, start);
      UnitTickClears(circuit, start, i);
      var config := RunConfig(Some(1), None, None);
      var timer := NoTimeout();
      var ran, n, interrupted := Run(config, timer);
      UnlimitedRunReachesEnd(circuit, start, State(), config, timer, n, interrupted);
      ValidParts();
      assert State() == UnitTick(circuit, start);
      ghost var before := State();
      if value != inputValues[i.element][i.id] {
        InjectReaches(circuit, start, State(), i, value);
        queue.SubmitEvent(Event(queue.time + 1, i.element, i.id, value));
      }
      assert State() == if before.inputs[i.element][i.id] != value then Inject(before, i, value) else before;
      SetIsLatest(circuit, before, i, value, State());
      SetArrives(circuit, before, i, value, State());
      return Ok(());
    }
  }
}
