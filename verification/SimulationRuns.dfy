/**
 Runs of the simulation: sequences of moves. A move lets time advance to the next time point of interest,
 writes an internal state, or submits a new value for an input that nothing drives.
 */
module SimulationRuns {
  import opened Wrappers
  import opened ElementLogic
  import opened Schematics
  import opened SimulationModel

  //
  // Writing internal state
  //

  ghost predicate CanIndexState(c: Circuit, e: nat, index: nat)
    requires Runnable(c)
  {
    e < c.Size() && index < InternalStateSize(c.types[e])
  }

  ghost predicate WriteEmits(c: Circuit, s: State, e: nat, index: nat, value: bool, o: nat)
    requires Runnable(c) && Shape(c, s) && CanIndexState(c, e, index)
  {
    && o < |c.outputConnections[e]| && c.Target(Output(e, o)).Some?
    && DrivenValues(c, s, e)[o] != OutputValues(c, e, s.inputs[e], s.states[e][index := value])[o]
  }

  ghost function WriteEvents(c: Circuit, s: State, e: nat, index: nat, value: bool): set<Event>
    requires Runnable(c) && Shape(c, s) && CanIndexState(c, e, index)
  {
    set o | 0 <= o < |c.outputConnections[e]| && WriteEmits(c, s, e, index, value, o) ::
      OutputEvent(c, s.time, Output(e, o), OutputValues(c, e, s.inputs[e], s.states[e][index := value])[o])
  }

  ghost function Write(c: Circuit, s: State, e: nat, index: nat, value: bool): State
    requires Runnable(c) && Shape(c, s) && CanIndexState(c, e, index)
  {
    s.(states := s.states[e := s.states[e][index := value]],
       queue := s.queue + WriteEvents(c, s, e, index, value))
  }

  /** The element submitted nothing at the current time, so its outputs may be changed once now. */
  ghost predicate Quiet(c: Circuit, s: State, e: nat)
    requires Runnable(c) && Shape(c, s)
  {
    forall ev :: ev in s.queue && c.Driver(Input(ev.element, ev.input)).Some?
                 && c.Driver(Input(ev.element, ev.input)).value.element == e ==>
      ev.time < s.time + c.Delay(c.Driver(Input(ev.element, ev.input)).value)
  }

  //
  // Submitting values for unconnected inputs
  //

  ghost predicate NonePending(s: State, i: Input) {
    forall ev :: ev in s.queue ==> !For(ev, i)
  }

  ghost predicate CanInject(c: Circuit, s: State, i: Input)
    requires Runnable(c) && Shape(c, s)
  {
    c.HasInput(i) && c.Driver(i) == None && NonePending(s, i)
  }

  ghost function Inject(s: State, i: Input, value: bool): State {
    s.(queue := s.queue + {Event(s.time + 1, i.element, i.id, value)})
  }

  //
  // Moves
  //

  datatype Move =
    | Advance(time: int)
    | WriteState(element: nat, index: nat, state: bool)
    | SetInput(input: Input, value: bool)

  ghost predicate Enabled(c: Circuit, s: State, m: Move)
    requires Runnable(c) && Shape(c, s)
  {
    match m
    case Advance(t) => CanTick(s, t)
    case WriteState(e, index, _) => CanIndexState(c, e, index) && Quiet(c, s, e)
    case SetInput(i, _) => CanInject(c, s, i)
  }

  ghost function Next(c: Circuit, s: State, m: Move): State
    requires Runnable(c) && Shape(c, s) && Enabled(c, s, m)
  {
    match m
    case Advance(t) => Tick(c, s, t)
    case WriteState(e, index, v) => Write(c, s, e, index, v)
    case SetInput(i, v) => Inject(s, i, v)
  }

  lemma WriteEventSource(c: Circuit, s: State, e: nat, index: nat, value: bool, ev: Event) returns (o: nat)
    requires Runnable(c) && Shape(c, s) && CanIndexState(c, e, index) && ev in WriteEvents(c, s, e, index, value)
    ensures WriteEmits(c, s, e, index, value, o)
    ensures ev == OutputEvent(c, s.time, Output(e, o), OutputValues(c, e, s.inputs[e], s.states[e][index := value])[o])
    ensures c.HasInput(Input(ev.element, ev.input)) && c.Driver(Input(ev.element, ev.input)) == Some(Output(e, o))
  {
    o :| 0 <= o < |c.outputConnections[e]| && WriteEmits(c, s, e, index, value, o)
         && ev == OutputEvent(c, s.time, Output(e, o), OutputValues(c, e, s.inputs[e], s.states[e][index := value])[o]);
    assert c.HasOutput(Output(e, o));
  }

  lemma WriteKeepsInv(c: Circuit, s: State, e: nat, index: nat, value: bool)
    requires Inv(c, s) && CanIndexState(c, e, index) && Quiet(c, s, e)
    ensures Inv(c, Write(c, s, e, index, value))
  {
    var r := Write(c, s, e, index, value);
    var new_ := WriteEvents(c, s, e, index, value);
    forall ev | ev in r.queue
      ensures c.HasInput(Input(ev.element, ev.input))
      ensures s.time < ev.time <= s.time + Lead(c, Input(ev.element, ev.input))
    {
      if ev in new_ {
        var o := WriteEventSource(c, s, e, index, value, ev);
      }
    }
    forall a, b | a in r.queue && b in r.queue && a.time == b.time && For(b, Input(a.element, a.input))
      ensures a == b
    {
      if a in new_ {
        var o1 := WriteEventSource(c, s, e, index, value, a);
        if b in new_ {
          var o2 := WriteEventSource(c, s, e, index, value, b);
        }
      } else if b in new_ {
        var o2 := WriteEventSource(c, s, e, index, value, b);
      }
    }
  }

  lemma InjectKeepsInv(c: Circuit, s: State, i: Input, value: bool)
    requires Inv(c, s) && CanInject(c, s, i)
    ensures Inv(c, Inject(s, i, value))
  {
  }

  lemma NextKeepsInv(c: Circuit, s: State, m: Move)
    requires Inv(c, s) && Enabled(c, s, m)
    ensures Inv(c, Next(c, s, m))
  {
    match m
    case Advance(t) => TickKeepsInv(c, s, t);
    case WriteState(e, index, v) => WriteKeepsInv(c, s, e, index, v);
    case SetInput(i, v) => InjectKeepsInv(c, s, i, v);
  }

  ghost predicate Step(c: Circuit, s: State, m: Move, r: State) {
    Runnable(c) && Shape(c, s) && Enabled(c, s, m) && r == Next(c, s, m)
  }

  /** The states visited when the moves are made one after the other. */
  ghost predicate IsTrace(c: Circuit, states: seq<State>, moves: seq<Move>) {
    && |states| == |moves| + 1 && Inv(c, states[0])
    && forall k :: 0 <= k < |moves| ==> Step(c, states[k], moves[k], states[k + 1])
  }

  lemma StepIs(c: Circuit, s: State, m: Move)
    requires Inv(c, s) && Enabled(c, s, m)
    ensures Step(c, s, m, Next(c, s, m)) && Inv(c, Next(c, s, m))
  {
    NextKeepsInv(c, s, m);
  }

  lemma StepKeeps(c: Circuit, s: State, m: Move, r: State)
    requires Inv(c, s) && Step(c, s, m, r)
    ensures Inv(c, r) && s.time <= r.time
  {
    NextKeepsInv(c, s, m);
  }

  /** Every state of every run keeps the invariants, and time never goes back. */
  lemma {:induction false} TraceKeepsInv(c: Circuit, states: seq<State>, moves: seq<Move>, k: nat)
    requires IsTrace(c, states, moves) && k < |states|
    ensures Inv(c, states[k])
    ensures forall j :: 0 <= j <= k ==> states[j].time <= states[k].time
    decreases k
  {
    hide Inv, Step;
    if k > 0 {
      TraceKeepsInv(c, states, moves, k - 1);
      StepKeeps(c, states[k - 1], moves[k - 1], states[k]);
    }
  }

  ghost predicate Reaches(c: Circuit, s: State, r: State) {
    exists states, moves :: IsTrace(c, states, moves) && states[0] == s && states[|moves|] == r
  }

  lemma ReachesSelf(c: Circuit, s: State)
    requires Inv(c, s)
    ensures Reaches(c, s, s)
  {
    assert IsTrace(c, [s], []);
  }

  lemma ReachesStep(c: Circuit, s: State, r: State, m: Move)
    requires Reaches(c, s, r) && Inv(c, r) && Enabled(c, r, m)
    ensures Reaches(c, s, Next(c, r, m)) && Inv(c, Next(c, r, m))
  {
    hide Inv, Step, Enabled, Next, Runnable, Shape;
    var states, moves :| IsTrace(c, states, moves) && states[0] == s && states[|moves|] == r;
    StepIs(c, r, m);
    var states', moves' := states + [Next(c, r, m)], moves + [m];
    forall k | 0 <= k < |moves'| ensures Step(c, states'[k], moves'[k], states'[k + 1]) {
      if k < |moves| {
        assert Step(c, states[k], moves[k], states[k + 1]);
      }
    }
    assert IsTrace(c, states', moves');
  }

  lemma ReachesInv(c: Circuit, s: State, r: State)
    requires Reaches(c, s, r)
    ensures Inv(c, r) && s.time <= r.time
  {
    var states, moves :| IsTrace(c, states, moves) && states[0] == s && states[|moves|] == r;
    TraceKeepsInv(c, states, moves, |moves|);
  }
}
