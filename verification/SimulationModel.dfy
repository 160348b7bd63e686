/**
 The event-driven simulation as a state machine over values. One step of the machine processes all events
 of a time point at once, in parallel for all elements; the class `Simulations.Simulation`, which processes
 them one element at a time, is proved to do the same.
 */
module SimulationModel {
  import opened Wrappers
  import opened ElementLogic
  import opened Schematics

  /** A future change of one input of one element. */
  datatype Event = Event(time: int, element: nat, input: nat, value: bool)

  datatype State = State(
    time: int,
    queue: set<Event>,
    inputs: seq<seq<bool>>,
    states: seq<seq<bool>>,
    histories: seq<seq<int>>,
    largestHistoryEvent: int,
    eventCount: nat)

  /** A schematic that the simulation can evaluate. */
  ghost predicate Runnable(c: Circuit) {
    c.Valid() && forall e :: 0 <= e < c.Size() ==> IsSimulatable(c.types[e], |c.outputConnections[e]|)
  }

  ghost predicate Shape(c: Circuit, s: State)
    requires Runnable(c)
  {
    && |s.inputs| == |s.states| == |s.histories| == c.Size()
    && (forall e :: 0 <= e < c.Size() ==> |s.inputs[e]| == |c.inputConnections[e]|)
    && (forall e :: 0 <= e < c.Size() ==> |s.states[e]| == InternalStateSize(c.types[e]))
    && (forall ev :: ev in s.queue ==> c.HasInput(Input(ev.element, ev.input)))
  }

  function Invert(values: seq<bool>, inverters: seq<bool>): (r: seq<bool>)
    requires |values| == |inverters|
    ensures |r| == |values|
  {
    seq(|values|, i requires 0 <= i < |values| => values[i] != inverters[i])
  }

  /** What the logic of an element sees: its input values, inverted where the input has an inverter. */
  ghost function Effective(c: Circuit, e: nat, values: seq<bool>): (r: seq<bool>)
    requires Runnable(c) && e < c.Size() && |values| == |c.inputConnections[e]|
    ensures |r| == |values|
  {
    Invert(values, c.inputInverters[e])
  }

  /** Elements whose logic determines output values: not those without outputs, and no wire without input. */
  ghost predicate Computes(c: Circuit, e: nat)
    requires Runnable(c) && e < c.Size()
  {
    |c.outputConnections[e]| > 0 && (HasInternalState(c.types[e]) || |c.inputConnections[e]| > 0)
  }

  ghost function OutputValues(c: Circuit, e: nat, values: seq<bool>, state: seq<bool>): (r: seq<bool>)
    requires Runnable(c) && e < c.Size() && Computes(c, e)
    requires |values| == |c.inputConnections[e]| && |state| == InternalStateSize(c.types[e])
    ensures |r| == |c.outputConnections[e]|
  {
    if HasInternalState(c.types[e])
    then OutputsFromState(state, |values|, |c.outputConnections[e]|, c.types[e])
    else OutputsFromInputs(Effective(c, e, values), |c.outputConnections[e]|, c.types[e])
  }

  /** The output values an element computes from its current inputs or internal state. */
  ghost function DrivenValues(c: Circuit, s: State, e: nat): (r: seq<bool>)
    requires Runnable(c) && Shape(c, s) && e < c.Size() && Computes(c, e)
    ensures |r| == |c.outputConnections[e]|
  {
    OutputValues(c, e, s.inputs[e], s.states[e])
  }

  //
  // One time point
  //

  ghost predicate Active(s: State, t: int, e: nat) {
    exists k, v :: Event(t, e, k, v) in s.queue
  }

  ghost function InputAfter(s: State, t: int, e: nat, k: nat): bool
    requires e < |s.inputs| && k < |s.inputs[e]|
  {
    if Event(t, e, k, true) in s.queue then true
    else if Event(t, e, k, false) in s.queue then false
    else s.inputs[e][k]
  }

  ghost function InputsAfter(s: State, t: int, e: nat): (r: seq<bool>)
    requires e < |s.inputs|
    ensures |r| == |s.inputs[e]|
  {
    seq(|s.inputs[e]|, k requires 0 <= k < |s.inputs[e]| => InputAfter(s, t, e, k))
  }

  ghost function StateAfter(c: Circuit, s: State, t: int, e: nat): (r: seq<bool>)
    requires Runnable(c) && Shape(c, s) && e < c.Size()
    ensures |r| == |s.states[e]|
  {
    if Active(s, t, e) && HasInternalState(c.types[e])
    then UpdateInternalState(Effective(c, e, s.inputs[e]), Effective(c, e, InputsAfter(s, t, e)), c.types[e],
                             |c.outputConnections[e]|, s.states[e])
    else s.states[e]
  }

  ghost function DrivenAfter(c: Circuit, s: State, t: int, e: nat): (r: seq<bool>)
    requires Runnable(c) && Shape(c, s) && e < c.Size() && Computes(c, e)
    ensures |r| == |c.outputConnections[e]|
  {
    OutputValues(c, e, InputsAfter(s, t, e), StateAfter(c, s, t, e))
  }

  /** Output o of element e changes at time t and is connected, so its target gets an event. */
  ghost predicate Emits(c: Circuit, s: State, t: int, e: nat, o: nat)
    requires Runnable(c) && Shape(c, s) && e < c.Size()
  {
    && Active(s, t, e) && o < |c.outputConnections[e]| && Computes(c, e)
    && DrivenValues(c, s, e)[o] != DrivenAfter(c, s, t, e)[o]
    && c.Target(Output(e, o)).Some?
  }

  ghost function OutputEvent(c: Circuit, t: int, o: Output, value: bool): Event
    requires Runnable(c) && c.HasOutput(o) && c.Target(o).Some?
  {
    Event(t + c.Delay(o), c.Target(o).value.element, c.Target(o).value.id, value)
  }

  ghost function EmittedBy(c: Circuit, s: State, t: int, e: nat): set<Event>
    requires Runnable(c) && Shape(c, s) && e < c.Size()
  {
    set o | 0 <= o < |c.outputConnections[e]| && Emits(c, s, t, e, o) ::
      OutputEvent(c, t, Output(e, o), DrivenAfter(c, s, t, e)[o])
  }

  /** Only the first input has a history, and only where the element asks for one. */
  ghost predicate Records(c: Circuit, s: State, t: int, e: nat)
    requires Runnable(c) && Shape(c, s) && e < c.Size()
  {
    c.historyLengths[e] > 0 && |s.inputs[e]| > 0 && InputAfter(s, t, e, 0) != s.inputs[e][0]
  }

  /** Drops the leading entries older than `min`. */
  function Shrink(history: seq<int>, min: int): seq<int> {
    if history != [] && history[0] < min then Shrink(history[1..], min) else history
  }

  ghost function HistoryAfter(c: Circuit, s: State, t: int, e: nat): seq<int>
    requires Runnable(c) && Shape(c, s) && e < c.Size()
  {
    if Records(c, s, t, e) then Shrink(s.histories[e], t - c.historyLengths[e]) + [t] else s.histories[e]
  }

  function Max(a: int, b: int): int {
    if a < b then b else a
  }

  /** The largest history event once the elements of `done` below n were processed at time t. */
  ghost function LargestAfter(c: Circuit, s: State, t: int, done: set<nat>, n: nat): int
    requires Runnable(c) && Shape(c, s) && n <= c.Size()
  {
    if n == 0 then s.largestHistoryEvent
    else
      var rest := LargestAfter(c, s, t, done, n - 1);
      if n - 1 in done && Records(c, s, t, n - 1) then Max(rest, t + c.historyLengths[n - 1]) else rest
  }

  ghost function EventsOf(s: State, t: int, done: set<nat>): set<Event> {
    set ev | ev in s.queue && ev.time == t && ev.element in done
  }

  ghost function EmittedByAll(c: Circuit, s: State, t: int, done: set<nat>): set<Event>
    requires Runnable(c) && Shape(c, s) && forall e :: e in done ==> e < c.Size()
  {
    set e, ev | e in done && ev in EmittedBy(c, s, t, e) :: ev
  }

  /** The state at time t when exactly the elements of `done` have seen their events of time t. */
  ghost function TickOver(c: Circuit, s: State, t: int, done: set<nat>): (r: State)
    requires Runnable(c) && Shape(c, s) && forall e :: e in done ==> e < c.Size()
  {
    State(
      t,
      (s.queue - EventsOf(s, t, done)) + EmittedByAll(c, s, t, done),
      seq(c.Size(), e requires 0 <= e < c.Size() => if e in done then InputsAfter(s, t, e) else s.inputs[e]),
      seq(c.Size(), e requires 0 <= e < c.Size() => if e in done then StateAfter(c, s, t, e) else s.states[e]),
      seq(c.Size(), e requires 0 <= e < c.Size() => if e in done then HistoryAfter(c, s, t, e) else s.histories[e]),
      LargestAfter(c, s, t, done, c.Size()),
      s.eventCount + |EventsOf(s, t, done)|)
  }

  ghost function Below(n: nat): (r: set<nat>)
    ensures forall e: nat :: e in r <==> e < n
  {
    if n == 0 then {} else Below(n - 1) + {n - 1}
  }

  ghost function Elements(c: Circuit): set<nat> {
    Below(c.Size())
  }

  /** Time advances to t and every element processes its events of time t. */
  ghost function Tick(c: Circuit, s: State, t: int): State
    requires Runnable(c) && Shape(c, s)
  {
    TickOver(c, s, t, Elements(c))
  }

  /** What a time point does to a single element. */
  lemma TickAt(c: Circuit, s: State, t: int, e: nat)
    requires Runnable(c) && Shape(c, s) && e < c.Size()
    ensures |Tick(c, s, t).inputs| == |Tick(c, s, t).states| == |Tick(c, s, t).histories| == c.Size()
    ensures Tick(c, s, t).inputs[e] == InputsAfter(s, t, e)
    ensures Tick(c, s, t).states[e] == StateAfter(c, s, t, e)
    ensures Tick(c, s, t).histories[e] == HistoryAfter(c, s, t, e)
  {
  }

  //
  // What every reachable state keeps
  //

  ghost predicate For(ev: Event, i: Input) {
    ev.element == i.element && ev.input == i.id
  }

  /** No two events for the same time and input. */
  ghost predicate Unique(s: State) {
    forall a, b :: a in s.queue && b in s.queue && a.time == b.time && For(b, Input(a.element, a.input)) ==> a == b
  }

  /** The longest time ahead at which an input can have an event: the delay of its driver, or one step. */
  ghost function Lead(c: Circuit, i: Input): int
    requires Runnable(c) && c.HasInput(i)
  {
    if c.Driver(i).Some? then c.Delay(c.Driver(i).value) else 1
  }

  ghost predicate InWindow(c: Circuit, s: State)
    requires Runnable(c) && Shape(c, s)
  {
    forall ev :: ev in s.queue ==> s.time < ev.time <= s.time + Lead(c, Input(ev.element, ev.input))
  }

  ghost predicate Ascending(history: seq<int>) {
    forall i, j :: 0 <= i < j < |history| ==> history[i] < history[j]
  }

  ghost predicate HistoryFits(history: seq<int>, length: int, time: int, largest: int) {
    && Ascending(history)
    && forall j :: 0 <= j < |history| ==> history[j] <= time && history[j] + length <= largest
  }

  ghost predicate HistoriesFit(c: Circuit, s: State)
    requires Runnable(c) && Shape(c, s)
  {
    forall e :: 0 <= e < c.Size() ==>
      HistoryFits(s.histories[e], c.historyLengths[e], s.time, s.largestHistoryEvent)
  }

  ghost predicate Inv(c: Circuit, s: State) {
    Runnable(c) && Shape(c, s) && Unique(s) && InWindow(c, s) && HistoriesFit(c, s)
  }

  /** Time t can come next: it lies ahead and no event is skipped. */
  ghost predicate CanTick(s: State, t: int) {
    s.time < t && forall ev :: ev in s.queue ==> t <= ev.time
  }

  lemma TickShape(c: Circuit, s: State, t: int)
    requires Runnable(c) && Shape(c, s)
    ensures Shape(c, Tick(c, s, t))
  {
    var r := Tick(c, s, t);
    forall ev | ev in r.queue ensures c.HasInput(Input(ev.element, ev.input)) {
      if ev !in s.queue {
        var e, o := EmittedSource(c, s, t, ev);
      }
    }
  }

  /** Every emitted event stems from one output, which drives the input the event is for. */
  lemma EmittedSource(c: Circuit, s: State, t: int, ev: Event) returns (e: nat, o: nat)
    requires Runnable(c) && Shape(c, s) && ev in EmittedByAll(c, s, t, Elements(c))
    ensures e < c.Size() && Emits(c, s, t, e, o)
    ensures ev == OutputEvent(c, t, Output(e, o), DrivenAfter(c, s, t, e)[o])
    ensures c.HasInput(Input(ev.element, ev.input)) && c.Driver(Input(ev.element, ev.input)) == Some(Output(e, o))
  {
    e :| e in Elements(c) && ev in EmittedBy(c, s, t, e);
    o :| 0 <= o < |c.outputConnections[e]| && Emits(c, s, t, e, o)
         && ev == OutputEvent(c, t, Output(e, o), DrivenAfter(c, s, t, e)[o]);
    assert c.HasOutput(Output(e, o));
  }

  lemma EmittedIs(c: Circuit, s: State, t: int, e: nat, o: nat)
    requires Runnable(c) && Shape(c, s) && e < c.Size() && Emits(c, s, t, e, o)
    ensures OutputEvent(c, t, Output(e, o), DrivenAfter(c, s, t, e)[o]) in EmittedByAll(c, s, t, Elements(c))
  {
    assert OutputEvent(c, t, Output(e, o), DrivenAfter(c, s, t, e)[o]) in EmittedBy(c, s, t, e);
    assert e in Elements(c);
  }

  /** The queue after a time point: the later events, and what the active elements emitted. */
  lemma TickQueue(c: Circuit, s: State, t: int)
    requires Runnable(c) && Shape(c, s)
    ensures forall ev :: ev in Tick(c, s, t).queue <==>
      (ev in s.queue && ev.time != t) || ev in EmittedByAll(c, s, t, Elements(c))
  {
    forall ev | ev in s.queue ensures ev.element in Elements(c) {
      assert c.HasInput(Input(ev.element, ev.input));
    }
  }

  /** A new event is later than every old event for the same input. */
  lemma EmittedIsLatest(c: Circuit, s: State, t: int, old_: Event, new_: Event)
    requires Inv(c, s) && CanTick(s, t) && old_ in s.queue && new_ in EmittedByAll(c, s, t, Elements(c))
    requires For(old_, Input(new_.element, new_.input))
    ensures old_.time < new_.time
  {
    var e, o := EmittedSource(c, s, t, new_);
  }

  lemma TickUnique(c: Circuit, s: State, t: int)
    requires Inv(c, s) && CanTick(s, t)
    ensures Unique(Tick(c, s, t))
  {
    var r := Tick(c, s, t);
    TickQueue(c, s, t);
    forall a, b | a in r.queue && b in r.queue && a.time == b.time && For(b, Input(a.element, a.input))
      ensures a == b
    {
      var all := EmittedByAll(c, s, t, Elements(c));
      if a in all && b in all {
        var e1, o1 := EmittedSource(c, s, t, a);
        var e2, o2 := EmittedSource(c, s, t, b);
      } else if a in all {
        EmittedIsLatest(c, s, t, b, a);
      } else if b in all {
        EmittedIsLatest(c, s, t, a, b);
      }
    }
  }

  lemma TickInWindow(c: Circuit, s: State, t: int)
    requires Inv(c, s) && CanTick(s, t)
    ensures Shape(c, Tick(c, s, t)) && InWindow(c, Tick(c, s, t))
  {
    TickShape(c, s, t);
    TickQueue(c, s, t);
    var r := Tick(c, s, t);
    forall ev | ev in r.queue ensures t < ev.time <= t + Lead(c, Input(ev.element, ev.input)) {
      if ev in EmittedByAll(c, s, t, Elements(c)) {
        var e, o := EmittedSource(c, s, t, ev);
      }
    }
  }

  lemma {:induction false} LargestBounds(c: Circuit, s: State, t: int, done: set<nat>, n: nat)
    requires Runnable(c) && Shape(c, s) && n <= c.Size()
    ensures LargestAfter(c, s, t, done, n) >= s.largestHistoryEvent
    ensures forall e :: e in done && e < n && Records(c, s, t, e) ==>
      t + c.historyLengths[e] <= LargestAfter(c, s, t, done, n)
  {
    if n > 0 {
      LargestBounds(c, s, t, done, n - 1);
    }
  }

  lemma {:induction false} ShrinkKeeps(history: seq<int>, min: int)
    ensures |Shrink(history, min)| <= |history|
    ensures Shrink(history, min) == history[|history| - |Shrink(history, min)|..]
    ensures Ascending(history) ==> Ascending(Shrink(history, min))
    ensures forall j :: 0 <= j < |history| - |Shrink(history, min)| ==> history[j] < min
    ensures Shrink(history, min) != [] ==> Shrink(history, min)[0] >= min
  {
    if history != [] && history[0] < min {
      ShrinkKeeps(history[1..], min);
    }
  }

  lemma HistoryAfterFits(c: Circuit, s: State, t: int, e: nat, largest: int)
    requires Runnable(c) && Shape(c, s) && e < c.Size() && s.time < t && s.largestHistoryEvent <= largest
    requires Records(c, s, t, e) ==> t + c.historyLengths[e] <= largest
    requires HistoryFits(s.histories[e], c.historyLengths[e], s.time, s.largestHistoryEvent)
    ensures HistoryFits(HistoryAfter(c, s, t, e), c.historyLengths[e], t, largest)
  {
    ShrinkKeeps(s.histories[e], t - c.historyLengths[e]);
  }

  lemma TickHistoriesFit(c: Circuit, s: State, t: int)
    requires Inv(c, s) && CanTick(s, t)
    ensures Shape(c, Tick(c, s, t)) && HistoriesFit(c, Tick(c, s, t))
  {
    TickShape(c, s, t);
    LargestBounds(c, s, t, Elements(c), c.Size());
    var r := Tick(c, s, t);
    forall e | 0 <= e < c.Size()
      ensures HistoryFits(r.histories[e], c.historyLengths[e], r.time, r.largestHistoryEvent)
    {
      HistoryAfterFits(c, s, t, e, r.largestHistoryEvent);
    }
  }

  /** Processing a time point keeps every invariant. */
  lemma TickKeepsInv(c: Circuit, s: State, t: int)
    requires Inv(c, s) && CanTick(s, t)
    ensures Inv(c, Tick(c, s, t))
  {
    TickUnique(c, s, t);
    TickInWindow(c, s, t);
    TickHistoriesFit(c, s, t);
  }
}
