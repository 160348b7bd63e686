/**
 Consistency of outputs and the inputs they drive: the last value on its way to an input is the value that
 the driver of the input computes now.
 */
module Consistency {
  import opened Wrappers
  import opened ElementLogic
  import opened Schematics
  import opened SimulationModel
  import opened SimulationRuns

  ghost predicate IsLast(s: State, i: Input, ev: Event) {
    ev in s.queue && For(ev, i) && forall x :: x in s.queue && For(x, i) ==> x.time <= ev.time
  }

  /** The value of the latest pending event of an input, or the current value when none is pending. */
  ghost function LatestValue(s: State, i: Input): bool
    requires i.element < |s.inputs| && i.id < |s.inputs[i.element]|
  {
    if exists ev :: IsLast(s, i, ev) then
      var ev :| IsLast(s, i, ev);
      ev.value
    else s.inputs[i.element][i.id]
  }

  lemma {:induction false} LatestOf(events: set<Event>) returns (last: Event)
    requires events != {}
    ensures last in events && forall x :: x in events ==> x.time <= last.time
    decreases events
  {
    last :| last in events;
    if events != {last} {
      var other := LatestOf(events - {last});
      if other.time > last.time {
        last := other;
      }
    }
  }

  /** Where an input has pending events, one of them is the last. */
  lemma LastExists(s: State, i: Input)
    requires !NonePending(s, i)
    ensures exists ev :: IsLast(s, i, ev)
  {
    var pending := set ev | ev in s.queue && For(ev, i);
    var some :| some in s.queue && For(some, i);
    assert some in pending;
    var last := LatestOf(pending);
    assert IsLast(s, i, last);
  }

  lemma LatestIs(s: State, i: Input, ev: Event)
    requires Unique(s) && IsLast(s, i, ev)
    requires i.element < |s.inputs| && i.id < |s.inputs[i.element]|
    ensures LatestValue(s, i) == ev.value
  {
  }

  lemma LatestOfNone(s: State, i: Input)
    requires NonePending(s, i) && i.element < |s.inputs| && i.id < |s.inputs[i.element]|
    ensures LatestValue(s, i) == s.inputs[i.element][i.id]
  {
  }

  /** A connected output of an element with logic agrees with the input it drives. */
  ghost predicate Consistent(c: Circuit, s: State, o: Output)
    requires Runnable(c) && Shape(c, s)
  {
    c.HasOutput(o) && c.Target(o).Some? && Computes(c, o.element) ==>
      LatestValue(s, c.Target(o).value) == DrivenValues(c, s, o.element)[o.id]
  }

  lemma DrivenAfterIs(c: Circuit, s: State, t: int, e: nat)
    requires Runnable(c) && Shape(c, s) && e < c.Size() && Computes(c, e) && Shape(c, Tick(c, s, t))
    ensures DrivenValues(c, Tick(c, s, t), e) == DrivenAfter(c, s, t, e)
  {
    TickAt(c, s, t, e);
  }

  lemma InactiveDrivesSame(c: Circuit, s: State, t: int, e: nat)
    requires Runnable(c) && Shape(c, s) && e < c.Size() && Computes(c, e) && !Active(s, t, e)
    ensures DrivenAfter(c, s, t, e) == DrivenValues(c, s, e)
  {
    assert InputsAfter(s, t, e) == s.inputs[e];
  }

  /** An input that gets no new event while the events of time t are applied keeps its latest value. */
  lemma LatestCarries(s: State, r: State, t: int, i: Input)
    requires Unique(s) && Unique(r)
    requires i.element < |s.inputs| && i.id < |s.inputs[i.element]|
    requires i.element < |r.inputs| && i.id < |r.inputs[i.element]|
    requires forall ev :: ev in s.queue ==> t <= ev.time
    requires forall ev :: For(ev, i) ==> (ev in r.queue <==> ev in s.queue && ev.time != t)
    requires r.inputs[i.element][i.id] == InputAfter(s, t, i.element, i.id)
    ensures LatestValue(r, i) == LatestValue(s, i)
  {
    if !NonePending(r, i) {
      LastExists(r, i);
      var last :| IsLast(r, i, last);
      assert IsLast(s, i, last);
      LatestIs(s, i, last);
      LatestIs(r, i, last);
    } else if !NonePending(s, i) {
      LastExists(s, i);
      var last :| IsLast(s, i, last);
      LatestIs(s, i, last);
      assert last == Event(t, i.element, i.id, last.value);
    }
  }

  lemma LatestUnchanged(c: Circuit, s: State, t: int, i: Input)
    requires Inv(c, s) && CanTick(s, t) && c.HasInput(i) && Shape(c, Tick(c, s, t))
    requires forall ev :: ev in EmittedByAll(c, s, t, Elements(c)) ==> !For(ev, i)
    ensures LatestValue(Tick(c, s, t), i) == LatestValue(s, i)
  {
    TickQueue(c, s, t);
    TickUnique(c, s, t);
    TickAt(c, s, t, i.element);
    LatestCarries(s, Tick(c, s, t), t, i);
  }

  /** An output that changes submits its new value as the latest for its target. */
  lemma EmittingIsConsistent(c: Circuit, s: State, t: int, o: Output)
    requires Inv(c, s) && CanTick(s, t) && c.HasOutput(o) && Emits(c, s, t, o.element, o.id)
    ensures Shape(c, Tick(c, s, t)) && Consistent(c, Tick(c, s, t), o)
  {
    TickKeepsInv(c, s, t);
    var r := Tick(c, s, t);
    var i := c.Target(o).value;
    var ev := OutputEvent(c, t, o, DrivenAfter(c, s, t, o.element)[o.id]);
    EmittedIs(c, s, t, o.element, o.id);
    TickQueue(c, s, t);
    forall x | x in r.queue && For(x, i) ensures x.time <= ev.time {
      if x in EmittedByAll(c, s, t, Elements(c)) {
        var e2, o2 := EmittedSource(c, s, t, x);
      } else {
        EmittedIsLatest(c, s, t, x, ev);
      }
    }
    assert IsLast(r, i, ev);
    LatestIs(r, i, ev);
    DrivenAfterIs(c, s, t, o.element);
  }

  lemma TickKeepsConsistent(c: Circuit, s: State, t: int, o: Output)
    requires Inv(c, s) && CanTick(s, t) && Consistent(c, s, o)
    ensures Shape(c, Tick(c, s, t)) && Consistent(c, Tick(c, s, t), o)
  {
    TickKeepsInv(c, s, t);
    if c.HasOutput(o) && c.Target(o).Some? && Computes(c, o.element) {
      DrivenAfterIs(c, s, t, o.element);
      if Emits(c, s, t, o.element, o.id) {
        EmittingIsConsistent(c, s, t, o);
      } else {
        if !Active(s, t, o.element) {
          InactiveDrivesSame(c, s, t, o.element);
        }
        forall ev | ev in EmittedByAll(c, s, t, Elements(c)) ensures !For(ev, c.Target(o).value) {
          var e2, o2 := EmittedSource(c, s, t, ev);
        }
        LatestUnchanged(c, s, t, c.Target(o).value);
      }
    }
  }

  lemma WriteKeepsConsistent(c: Circuit, s: State, e: nat, index: nat, value: bool, o: Output)
    requires Inv(c, s) && CanIndexState(c, e, index) && Quiet(c, s, e) && Consistent(c, s, o)
    ensures Shape(c, Write(c, s, e, index, value)) && Consistent(c, Write(c, s, e, index, value), o)
  {
    WriteKeepsInv(c, s, e, index, value);
    var r := Write(c, s, e, index, value);
    if c.HasOutput(o) && c.Target(o).Some? && Computes(c, o.element) {
      var i := c.Target(o).value;
      if o.element == e && WriteEmits(c, s, e, index, value, o.id) {
        var ev := OutputEvent(c, s.time, o, OutputValues(c, e, s.inputs[e], s.states[e][index := value])[o.id]);
        assert ev in WriteEvents(c, s, e, index, value);
        forall x | x in r.queue && For(x, i) ensures x.time <= ev.time {
          if x in WriteEvents(c, s, e, index, value) {
            var o2 := WriteEventSource(c, s, e, index, value, x);
          }
        }
        assert IsLast(r, i, ev);
        LatestIs(r, i, ev);
      } else {
        forall ev | ev in WriteEvents(c, s, e, index, value) ensures !For(ev, i) {
          var o2 := WriteEventSource(c, s, e, index, value, ev);
        }
        SamePendingSameLatest(s, r, i);
      }
    }
  }

  /** Events for other inputs do not matter. */
  lemma SamePendingSameLatest(s: State, r: State, i: Input)
    requires Unique(s) && Unique(r) && s.inputs == r.inputs
    requires i.element < |s.inputs| && i.id < |s.inputs[i.element]|
    requires forall ev :: For(ev, i) ==> (ev in r.queue <==> ev in s.queue)
    ensures LatestValue(r, i) == LatestValue(s, i)
  {
    if !NonePending(s, i) {
      LastExists(s, i);
      var last :| IsLast(s, i, last);
      assert IsLast(r, i, last);
      LatestIs(s, i, last);
      LatestIs(r, i, last);
    }
  }

  lemma InjectKeepsConsistent(c: Circuit, s: State, i: Input, value: bool, o: Output)
    requires Inv(c, s) && CanInject(c, s, i) && Consistent(c, s, o)
    ensures Shape(c, Inject(s, i, value)) && Consistent(c, Inject(s, i, value), o)
  {
    InjectKeepsInv(c, s, i, value);
    if c.HasOutput(o) && c.Target(o).Some? && Computes(c, o.element) {
      SamePendingSameLatest(s, Inject(s, i, value), c.Target(o).value);
    }
  }

  lemma NextKeepsConsistent(c: Circuit, s: State, m: Move, o: Output)
    requires Inv(c, s) && Enabled(c, s, m) && Consistent(c, s, o)
    ensures Shape(c, Next(c, s, m)) && Consistent(c, Next(c, s, m), o)
  {
    match m
    case Advance(t) => TickKeepsConsistent(c, s, t, o);
    case WriteState(e, index, v) => WriteKeepsConsistent(c, s, e, index, v, o);
    case SetInput(i, v) => InjectKeepsConsistent(c, s, i, v, o);
  }

  lemma StepKeepsConsistent(c: Circuit, s: State, m: Move, r: State, o: Output)
    requires Inv(c, s) && Step(c, s, m, r) && Consistent(c, s, o)
    ensures Inv(c, r) && Consistent(c, r, o)
  {
    NextKeepsInv(c, s, m);
    NextKeepsConsistent(c, s, m, o);
  }

  /** Once consistent, an output stays consistent in every run. */
  lemma {:induction false} TraceKeepsConsistent(c: Circuit, states: seq<State>, moves: seq<Move>, o: Output, k: nat)
    requires IsTrace(c, states, moves) && k < |states| && Inv(c, states[0]) && Consistent(c, states[0], o)
    ensures Inv(c, states[k]) && Consistent(c, states[k], o)
  {
    hide Inv, Step, Consistent;
    if k > 0 {
      TraceKeepsConsistent(c, states, moves, o, k - 1);
      StepKeepsConsistent(c, states[k - 1], moves[k - 1], states[k], o);
    }
  }
}
