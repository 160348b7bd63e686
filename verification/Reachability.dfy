/**
 The operations a user can call, as sequences of moves: running, writing an internal state after waiting for a
 quiet time point, and setting an unconnected input.
 */
module Reachability {
  import opened Wrappers
  import opened ElementLogic
  import opened Schematics
  import opened SimulationModel
  import opened SimulationQueues
  import opened TickRefinement
  import opened SimulationRuns
  import opened Consistency
  import opened Interruption
  import opened ElementLaws

  /** Without events at time t nothing happens at time t. */
  lemma TickIdle(c: Circuit, s: State, t: int)
    requires Inv(c, s) && s.time < t && forall ev :: ev in s.queue ==> t < ev.time
    ensures Tick(c, s, t) == s.(time := t)
  {
    NothingProcessed(c, s, t);
    forall e | e in Elements(c) ensures !Active(s, t, e) {
    }
    OnlyActiveMatter(c, s, t, {});
  }

  lemma TimeSetReaches(c: Circuit, from: State, s: State, t: int)
    requires Inv(c, from) && Reaches(c, from, s) && Inv(c, s)
    requires s.time <= t && forall ev :: ev in s.queue ==> t < ev.time
    ensures Reaches(c, from, s.(time := t))
  {
    if s.time < t {
      TickIdle(c, s, t);
      ReachesStep(c, from, s, Advance(t));
    } else {
      assert s.(time := t) == s;
    }
  }

  lemma AdvancedReaches(c: Circuit, from: State, s: State)
    requires Reaches(c, from, s) && Inv(c, s) && s.queue != {}
    ensures Reaches(c, from, Advanced(c, s))
  {
    ReachesStep(c, from, s, Advance(NextTime(s.queue)));
  }

  lemma {:induction false} StepsReach(c: Circuit, from: State, s: State, end: Option<int>, n: nat)
    requires Reaches(c, from, s) && Inv(c, s)
    ensures Reaches(c, from, Steps(c, s, end, n))
    decreases n
  {
    hide Inv, Reaches, Advanced;
    if n > 0 && Due(s, end) {
      AdvancedReaches(c, from, s);
      StepsReach(c, from, Advanced(c, s), end, n - 1);
      StepsOnce(c, s, end, n);
    }
  }

  lemma StepsSnoc(c: Circuit, s: State, end: Option<int>, n: nat)
    requires Inv(c, s) && Due(Steps(c, s, end, n), end)
    ensures Steps(c, s, end, n + 1) == Advanced(c, Steps(c, s, end, n))
  {
    hide Inv, Advanced;
    StepsAdd(c, s, end, n, 1);
    StepsOnce(c, Steps(c, s, end, n), end, 1);
  }

  /** A time point with events counts at least one. */
  lemma AdvancedCounts(c: Circuit, s: State)
    requires Inv(c, s) && s.queue != {}
    ensures s.eventCount < Advanced(c, s).eventCount
  {
    var t := NextTime(s.queue);
    var ev :| ev in s.queue && ev.time == t;
    assert c.HasInput(Input(ev.element, ev.input));
    assert ev in EventsOf(s, t, Elements(c));
  }

  //
  // One step of time after the other
  //

  /** The state one smallest time unit later. */
  ghost function UnitTick(c: Circuit, s: State): (r: State)
    requires Inv(c, s)
    ensures Inv(c, r) && r.time == s.time + 1
  {
    assert CanTick(s, s.time + 1);
    TickKeepsInv(c, s, s.time + 1);
    Tick(c, s, s.time + 1)
  }

  ghost function Ticked(c: Circuit, s: State, n: nat): (r: State)
    requires Inv(c, s)
    ensures Inv(c, r) && r.time == s.time + n
  {
    if n == 0 then s else UnitTick(c, Ticked(c, s, n - 1))
  }

  lemma UnitTickIsMove(c: Circuit, s: State)
    requires Inv(c, s)
    ensures Enabled(c, s, Advance(s.time + 1)) && Next(c, s, Advance(s.time + 1)) == UnitTick(c, s)
  {
  }

  lemma UnitTickReaches(c: Circuit, from: State, s: State)
    requires Reaches(c, from, s) && Inv(c, s)
    ensures Reaches(c, from, UnitTick(c, s))
  {
    hide Inv, Reaches, UnitTick, Enabled, Next;
    UnitTickIsMove(c, s);
    ReachesStep(c, from, s, Advance(s.time + 1));
  }

  lemma {:induction false} TickedReaches(c: Circuit, from: State, s: State, n: nat)
    requires Reaches(c, from, s) && Inv(c, s)
    ensures Reaches(c, from, Ticked(c, s, n))
  {
    hide Inv, Reaches, UnitTick;
    if n > 0 {
      TickedReaches(c, from, s, n - 1);
      UnitTickReaches(c, from, Ticked(c, s, n - 1));
    }
  }

  lemma AdvancedIsUnitTick(c: Circuit, s: State)
    requires Inv(c, s) && Due(s, Some(s.time + 1))
    ensures Advanced(c, s) == UnitTick(c, s)
  {
  }

  lemma IdleUnitTick(c: Circuit, s: State)
    requires Inv(c, s) && !Due(s, Some(s.time + 1))
    ensures UnitTick(c, s) == s.(time := s.time + 1)
  {
    hide Inv, Tick;
    NotDueIsLater(s, s.time + 1);
    TickIdle(c, s, s.time + 1);
  }

  lemma NotDueIsLater(s: State, end: int)
    requires !Due(s, Some(end))
    ensures forall ev :: ev in s.queue ==> end < ev.time
  {
    forall ev | ev in s.queue ensures end < ev.time {
      assert NextTime(s.queue) <= ev.time;
    }
  }

  lemma RunToUnit(c: Circuit, s: State)
    requires Inv(c, s)
    ensures RunTo(c, s, s.time + 1) == UnitTick(c, s)
  {
    hide Inv, UnitTick, Advanced;
    var end := s.time + 1;
    if Due(s, Some(end)) {
      AdvancedIsUnitTick(c, s);
      RunToOnce(c, s, end);
      RunToNow(c, Advanced(c, s));
    } else {
      IdleUnitTick(c, s);
    }
  }

  lemma RunToNow(c: Circuit, s: State)
    requires Inv(c, s)
    ensures RunTo(c, s, s.time) == s
  {
    assert s.(time := s.time) == s;
  }

  /** When the state of an element did not change at a time point, the element submitted nothing then. */
  lemma UnchangedIsQuiet(c: Circuit, s: State, t: int, e: nat)
    requires Inv(c, s) && CanTick(s, t) && e < c.Size() && HasInternalState(c.types[e])
    requires StateAfter(c, s, t, e) == s.states[e]
    ensures Inv(c, Tick(c, s, t)) && Quiet(c, Tick(c, s, t), e)
  {
    TickKeepsInv(c, s, t);
    TickQueue(c, s, t);
    forall ev | ev in Tick(c, s, t).queue && c.Driver(Input(ev.element, ev.input)).Some?
                && c.Driver(Input(ev.element, ev.input)).value.element == e
      ensures ev.time < t + c.Delay(c.Driver(Input(ev.element, ev.input)).value)
    {
      if ev in EmittedByAll(c, s, t, Elements(c)) {
        var e2, o := EmittedSource(c, s, t, ev);
      }
    }
  }

  /** Writing right after the element changed its outputs would put two events on the same time and input. */
  lemma QuietSlotIsNeeded(c: Circuit, s: State, t: int, e: nat, index: nat, value: bool, o: nat)
    requires Inv(c, s) && CanTick(s, t) && CanIndexState(c, e, index) && Emits(c, s, t, e, o)
    requires Shape(c, Tick(c, s, t)) && WriteEmits(c, Tick(c, s, t), e, index, value, o)
    ensures !Unique(Write(c, Tick(c, s, t), e, index, value))
  {
    var r := Tick(c, s, t);
    TickAt(c, s, t, e);
    EmittedIs(c, s, t, e, o);
    TickQueue(c, s, t);
    var first := OutputEvent(c, t, Output(e, o), DrivenAfter(c, s, t, e)[o]);
    var second := OutputEvent(c, t, Output(e, o), OutputValues(c, e, r.inputs[e], r.states[e][index := value])[o]);
    assert first in r.queue;
    assert second in WriteEvents(c, r, e, index, value);
    assert first != second;
  }

  lemma NothingEmittedForUnconnected(c: Circuit, s: State, t: int, i: Input)
    requires Runnable(c) && Shape(c, s) && c.HasInput(i) && c.Driver(i) == None
    ensures forall ev :: ev in EmittedByAll(c, s, t, Elements(c)) ==> !For(ev, i)
  {
    forall ev | ev in EmittedByAll(c, s, t, Elements(c)) ensures !For(ev, i) {
      var e, o := EmittedSource(c, s, t, ev);
    }
  }

  lemma PendingForUnconnected(c: Circuit, s: State, i: Input, ev: Event)
    requires Inv(c, s) && c.HasInput(i) && c.Driver(i) == None && ev in s.queue && For(ev, i)
    ensures ev.time == s.time + 1
  {
    assert Input(ev.element, ev.input) == i;
  }

  /** One step of time later no event is pending for an unconnected input. */
  lemma UnitTickClears(c: Circuit, s: State, i: Input)
    requires Inv(c, s) && c.HasInput(i) && c.Driver(i) == None
    ensures NonePending(UnitTick(c, s), i)
  {
    NothingEmittedForUnconnected(c, s, s.time + 1, i);
    TickQueue(c, s, s.time + 1);
    hide EmittedByAll, TickOver, Inv, Tick;
    forall ev | ev in UnitTick(c, s).queue ensures !For(ev, i) {
      if ev in s.queue && For(ev, i) {
        PendingForUnconnected(c, s, i, ev);
      }
    }
  }

  /** What setting an unconnected input makes of a state in which nothing is pending for it. */
  ghost predicate IsSet(s: State, i: Input, value: bool, r: State)
    requires i.element < |s.inputs| && i.id < |s.inputs[i.element]|
  {
    r == if s.inputs[i.element][i.id] != value then Inject(s, i, value) else s
  }

  lemma InBounds(c: Circuit, s: State, i: Input)
    requires Inv(c, s) && c.HasInput(i)
    ensures i.element < |s.inputs| && i.id < |s.inputs[i.element]|
  {
  }

  /** The value that was set is the last one on its way to the input; what is on its way to others stays. */
  lemma SetIsLatest(c: Circuit, s: State, i: Input, value: bool, r: State)
    requires Inv(c, s) && CanInject(c, s, i) && i.element < |s.inputs| && i.id < |s.inputs[i.element]|
    requires IsSet(s, i, value, r)
    ensures Inv(c, r) && r.time == s.time && r.inputs == s.inputs && r.states == s.states
    ensures LatestValue(r, i) == value
    ensures forall j :: c.HasInput(j) && j != i ==>
      j.element < |s.inputs| && j.id < |s.inputs[j.element]| && LatestValue(r, j) == LatestValue(s, j)
  {
    hide LatestValue, InWindow, HistoriesFit;
    InjectKeepsInv(c, s, i, value);
    if s.inputs[i.element][i.id] != value {
      var ev := Event(s.time + 1, i.element, i.id, value);
      assert IsLast(r, i, ev);
      LatestIs(r, i, ev);
    } else {
      LatestOfNone(s, i);
    }
    forall j | c.HasInput(j) && j != i
      ensures j.element < |s.inputs| && j.id < |s.inputs[j.element]| && LatestValue(r, j) == LatestValue(s, j)
    {
      InBounds(c, s, j);
      SamePendingSameLatest(s, r, j);
    }
  }

  /** The value that was set is stored one time unit later. */
  lemma SetArrives(c: Circuit, s: State, i: Input, value: bool, r: State)
    requires Inv(c, s) && CanInject(c, s, i) && i.element < |s.inputs| && i.id < |s.inputs[i.element]|
    requires IsSet(s, i, value, r) && Inv(c, r)
    ensures |UnitTick(c, r).inputs| == c.Size() && i.id < |UnitTick(c, r).inputs[i.element]|
    ensures UnitTick(c, r).inputs[i.element][i.id] == value
  {
    hide Inv, UnitTick, Enabled, Next, CanInject, Circuit.HasInput;
    IsUnitMove(c, r);
    AdvanceSetsInputs(c, r, r.time + 1, UnitTick(c, r));
    InvSizes(c, UnitTick(c, r));
    if s.inputs[i.element][i.id] == value {
      NonePendingThen(c, s, i, s.time + 1);
    } else {
      assert Event(s.time + 1, i.element, i.id, value) in r.queue;
    }
    CanInjectInput(c, s, i);
  }

  lemma IsUnitMove(c: Circuit, s: State)
    requires Inv(c, s)
    ensures Step(c, s, Advance(s.time + 1), UnitTick(c, s))
  {
    hide Inv, Tick, Enabled, Next, UnitTick;
    InvSizes(c, s);
    UnitTickIsMove(c, s);
  }

  lemma CanInjectInput(c: Circuit, s: State, i: Input)
    requires Inv(c, s) && CanInject(c, s, i)
    ensures c.HasInput(i)
  {
    hide Inv;
  }

  lemma NonePendingThen(c: Circuit, s: State, i: Input, t: int)
    requires Inv(c, s) && CanInject(c, s, i)
    ensures NoneAt(s, t, i)
  {
    hide Inv;
  }

  /** The state row of element e changed at each of the first n unit steps. */
  ghost predicate BusyFor(c: Circuit, s: State, e: nat, n: nat)
    requires Inv(c, s) && e < c.Size()
  {
    forall m: nat :: m < n ==> ChangedAt(c, s, e, m)
  }

  ghost predicate ChangedAt(c: Circuit, s: State, e: nat, m: nat)
    requires Inv(c, s) && e < c.Size()
  {
    Ticked(c, s, m).states[e] != Ticked(c, s, m + 1).states[e]
  }

  lemma BusyOneMore(c: Circuit, s: State, e: nat, n: nat)
    requires Inv(c, s) && e < c.Size() && BusyFor(c, s, e, n) && ChangedAt(c, s, e, n)
    ensures BusyFor(c, s, e, n + 1)
  {
  }

  /** After a unit step that did not change the state of the element, the state can be written. */
  lemma CanWriteNow(c: Circuit, s: State, e: nat, index: nat)
    requires Inv(c, s) && CanIndexState(c, e, index) && UnitTick(c, s).states[e] == s.states[e]
    ensures Quiet(c, UnitTick(c, s), e)
  {
    TickAt(c, s, s.time + 1, e);
    UnchangedIsQuiet(c, s, s.time + 1, e);
  }

  lemma WriteReaches(c: Circuit, from: State, s: State, e: nat, index: nat, value: bool)
    requires Reaches(c, from, s) && Inv(c, s) && CanIndexState(c, e, index) && Quiet(c, s, e)
    ensures Reaches(c, from, Write(c, s, e, index, value)) && Inv(c, Write(c, s, e, index, value))
  {
    ReachesStep(c, from, s, WriteState(e, index, value));
  }

  lemma InjectReaches(c: Circuit, from: State, s: State, i: Input, value: bool)
    requires Reaches(c, from, s) && Inv(c, s) && CanInject(c, s, i)
    ensures Reaches(c, from, Inject(s, i, value)) && Inv(c, Inject(s, i, value))
  {
    ReachesStep(c, from, s, SetInput(i, value));
  }

  /** The events of a state write are those of the outputs it changes. */
  lemma WriteEventsAreChanged(c: Circuit, s: State, e: nat, index: nat, value: bool)
    requires Runnable(c) && Shape(c, s) && CanIndexState(c, e, index)
    ensures Computes(c, e)
    ensures WriteEvents(c, s, e, index, value) == ChangedEvents(c, s.time, e, DrivenValues(c, s, e),
      OutputValues(c, e, s.inputs[e], s.states[e][index := value]), |c.outputConnections[e]|)
  {
  }

  /** After a quiet time point, the outputs of the element may submit events. */
  lemma QuietCanSubmit(c: Circuit, s: State, e: nat, o: nat)
    requires Inv(c, s) && e < c.Size() && Quiet(c, s, e)
    requires o < |c.outputConnections[e]| && c.Target(Output(e, o)).Some?
    ensures NoEventFor(s.queue, s.time + c.Delay(Output(e, o)), c.Target(Output(e, o)).value)
  {
    assert c.HasOutput(Output(e, o));
  }
}
