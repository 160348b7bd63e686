/**
 Running up to an end time, with and without interruptions.
 */
module Interruption {
  import opened Wrappers
  import opened ElementLogic
  import opened Schematics
  import opened SimulationModel
  import opened SimulationRuns

  lemma {:induction false} EarliestOf(events: set<Event>) returns (first: Event)
    requires events != {}
    ensures first in events && forall x :: x in events ==> first.time <= x.time
    decreases events
  {
    first :| first in events;
    if events != {first} {
      var other := EarliestOf(events - {first});
      if other.time < first.time {
        first := other;
      }
    }
  }

  ghost predicate IsFirst(queue: set<Event>, ev: Event) {
    ev in queue && forall x :: x in queue ==> ev.time <= x.time
  }

  /** The time of the earliest pending event. */
  ghost function NextTime(queue: set<Event>): (t: int)
    requires queue != {}
    ensures exists ev :: ev in queue && ev.time == t
    ensures forall ev :: ev in queue ==> t <= ev.time
  {
    assert exists ev :: IsFirst(queue, ev) by {
      var first := EarliestOf(queue);
      assert IsFirst(queue, first);
    }
    var ev :| IsFirst(queue, ev);
    ev.time
  }

  /** There is an event to process, not after the end time if one is given. */
  ghost predicate Due(s: State, end: Option<int>) {
    s.queue != {} && (end.Some? ==> NextTime(s.queue) <= end.value)
  }

  /** The state after the next time point that has events. */
  ghost function Advanced(c: Circuit, s: State): (r: State)
    requires Inv(c, s) && s.queue != {}
    ensures Inv(c, r) && s.time < r.time == NextTime(s.queue)
  {
    assert CanTick(s, NextTime(s.queue));
    TickKeepsInv(c, s, NextTime(s.queue));
    Tick(c, s, NextTime(s.queue))
  }

  /** The state after n more time points, or fewer when no event is due anymore. */
  ghost function Steps(c: Circuit, s: State, end: Option<int>, n: nat): (r: State)
    requires Inv(c, s)
    ensures Inv(c, r) && s.time <= r.time
    decreases n
  {
    if n == 0 || !Due(s, end) then s
    else
      Steps(c, Advanced(c, s), end, n - 1)
  }

  lemma StepsOnce(c: Circuit, s: State, end: Option<int>, n: nat)
    requires Inv(c, s) && n > 0 && Due(s, end)
    ensures Steps(c, s, end, n) == Steps(c, Advanced(c, s), end, n - 1)
  {
  }

  lemma StepsIdle(c: Circuit, s: State, end: Option<int>, n: nat)
    requires Inv(c, s) && !Due(s, end)
    ensures Steps(c, s, end, n) == s
  {
  }

  lemma RunToOnce(c: Circuit, s: State, end: int)
    requires Inv(c, s) && s.time <= end && Due(s, Some(end))
    ensures RunTo(c, s, end) == RunTo(c, Advanced(c, s), end)
  {
  }

  lemma TimeSetKeepsInv(c: Circuit, s: State, t: int)
    requires Inv(c, s) && s.time <= t && forall ev :: ev in s.queue ==> t < ev.time
    ensures Inv(c, s.(time := t))
  {
  }

  /** The state at the end time when nothing interrupts. */
  ghost function RunTo(c: Circuit, s: State, end: int): (r: State)
    requires Inv(c, s) && s.time <= end
    ensures Inv(c, r) && r.time == end && !Due(r, Some(end))
    decreases end - s.time
  {
    if Due(s, Some(end)) then
      RunTo(c, Advanced(c, s), end)
    else
      TimeSetKeepsInv(c, s, end);
      s.(time := end)
  }

  lemma {:induction false} SameLargest(c: Circuit, s: State, r: State, t: int, n: nat)
    requires Runnable(c) && Shape(c, s) && n <= c.Size() && r == s.(time := r.time)
    ensures LargestAfter(c, r, t, Elements(c), n) == LargestAfter(c, s, t, Elements(c), n)
  {
    if n > 0 {
      SameLargest(c, s, r, t, n - 1);
    }
  }

  lemma SameElement(c: Circuit, s: State, r: State, t: int, e: nat)
    requires Runnable(c) && Shape(c, s) && e < c.Size() && r == s.(time := r.time)
    ensures InputsAfter(r, t, e) == InputsAfter(s, t, e)
    ensures StateAfter(c, r, t, e) == StateAfter(c, s, t, e)
    ensures HistoryAfter(c, r, t, e) == HistoryAfter(c, s, t, e)
    ensures EmittedBy(c, r, t, e) == EmittedBy(c, s, t, e)
  {
    assert InputsAfter(r, t, e) == InputsAfter(s, t, e);
    assert forall o :: Emits(c, r, t, e, o) == Emits(c, s, t, e, o);
  }

  /** What a time point does does not depend on when the previous one was. */
  lemma TickIgnoresTime(c: Circuit, s: State, r: State, t: int)
    requires Runnable(c) && Shape(c, s) && r == s.(time := r.time)
    ensures Tick(c, r, t) == Tick(c, s, t)
  {
    SameLargest(c, s, r, t, c.Size());
    forall e | e in Elements(c) {
      SameElement(c, s, r, t, e);
    }
    assert EventsOf(r, t, Elements(c)) == EventsOf(s, t, Elements(c));
    assert EmittedByAll(c, r, t, Elements(c)) == EmittedByAll(c, s, t, Elements(c));
    var x, y := Tick(c, r, t), Tick(c, s, t);
    assert x.inputs == y.inputs;
    assert x.states == y.states;
    assert x.histories == y.histories;
  }

  /** Running to a and then on to b is running to b. */
  lemma {:induction false} RunToSplit(c: Circuit, s: State, a: int, b: int)
    requires Inv(c, s) && s.time <= a <= b
    ensures RunTo(c, RunTo(c, s, a), b) == RunTo(c, s, b)
    decreases a - s.time
  {
    if Due(s, Some(a)) {
      RunToSplit(c, Advanced(c, s), a, b);
    } else {
      TimeSetKeepsInv(c, s, a);
      if Due(s, Some(b)) {
        TickIgnoresTime(c, s, s.(time := a), NextTime(s.queue));
      }
    }
  }

  /** A run that was cut off after any number of time points and is resumed reaches the uninterrupted state. */
  lemma {:induction false} ResumeReachesSame(c: Circuit, s: State, end: int, n: nat)
    requires Inv(c, s) && s.time <= end
    ensures Steps(c, s, Some(end), n).time <= end
    ensures RunTo(c, Steps(c, s, Some(end), n), end) == RunTo(c, s, end)
    decreases n
  {
    hide Advanced, Inv;
    if n > 0 && Due(s, Some(end)) {
      StepsOnce(c, s, Some(end), n);
      RunToOnce(c, s, end);
      ResumeReachesSame(c, Advanced(c, s), end, n - 1);
    } else {
      assert Steps(c, s, Some(end), n) == s;
    }
  }

  //
  // Running without end time
  //

  lemma {:induction false} StepsAdd(c: Circuit, s: State, end: Option<int>, n: nat, m: nat)
    requires Inv(c, s)
    ensures Steps(c, s, end, n + m) == Steps(c, Steps(c, s, end, n), end, m)
    decreases n
  {
    hide Advanced, Inv;
    if n > 0 && Due(s, end) {
      StepsOnce(c, s, end, n);
      StepsOnce(c, s, end, n + m);
      StepsAdd(c, Advanced(c, s), end, n - 1, m);
    } else if n > 0 {
      StepsIdle(c, s, end, n);
      StepsIdle(c, s, end, m);
      StepsIdle(c, s, end, n + m);
    }
  }

  /** After finitely many time points no event is pending. */
  ghost predicate Settles(c: Circuit, s: State)
    requires Inv(c, s)
  {
    exists n: nat :: Steps(c, s, None, n).queue == {}
  }

  /** The state in which no event is pending anymore. */
  ghost function Settled(c: Circuit, s: State): (r: State)
    requires Inv(c, s) && Settles(c, s)
    ensures Inv(c, r) && r.queue == {} && s.time <= r.time
  {
    var n: nat :| Steps(c, s, None, n).queue == {};
    Steps(c, s, None, n)
  }

  /** There is only one such state. */
  lemma SettledIs(c: Circuit, s: State, n: nat)
    requires Inv(c, s) && Steps(c, s, None, n).queue == {}
    ensures Settles(c, s) && Settled(c, s) == Steps(c, s, None, n)
  {
    var m: nat :| Steps(c, s, None, m).queue == {} && Settled(c, s) == Steps(c, s, None, m);
    SettledOnce(c, s, n, m);
  }

  lemma SettledOnce(c: Circuit, s: State, n: nat, m: nat)
    requires Inv(c, s) && Steps(c, s, None, n).queue == {} && Steps(c, s, None, m).queue == {}
    ensures Steps(c, s, None, n) == Steps(c, s, None, m)
  {
    hide Advanced, Inv;
    if m <= n {
      StepsAdd(c, s, None, m, n - m);
      StepsIdle(c, Steps(c, s, None, m), None, n - m);
    } else {
      StepsAdd(c, s, None, n, m - n);
      StepsIdle(c, Steps(c, s, None, n), None, m - n);
    }
  }

  /** What a run without end time reaches: no event is pending, and all recorded history is in the past. */
  ghost function RunOut(c: Circuit, s: State): (r: State)
    requires Inv(c, s) && Settles(c, s)
    ensures Inv(c, r) && r.queue == {}
  {
    var r := Settled(c, s);
    TimeSetKeepsInv(c, r, Max(r.time, r.largestHistoryEvent));
    r.(time := Max(r.time, r.largestHistoryEvent))
  }

  lemma ResumeSettlesSame(c: Circuit, s: State, n: nat)
    requires Inv(c, s)
    ensures Settles(c, Steps(c, s, None, n)) <==> Settles(c, s)
    ensures Settles(c, s) ==> RunOut(c, Steps(c, s, None, n)) == RunOut(c, s)
  {
    var r := Steps(c, s, None, n);
    if Settles(c, r) {
      var m: nat :| Steps(c, r, None, m).queue == {};
      SettlesLater(c, s, n, m);
    }
    if Settles(c, s) {
      var m: nat :| Steps(c, s, None, m).queue == {};
      StepsAdd(c, s, None, n, m);
      StepsAdd(c, s, None, m, n);
      StepsIdle(c, Steps(c, s, None, m), None, n);
      SettlesLater(c, s, n, m);
    }
  }

  lemma SettlesLater(c: Circuit, s: State, n: nat, m: nat)
    requires Inv(c, s) && Steps(c, Steps(c, s, None, n), None, m).queue == {}
    ensures Settles(c, s) && Settles(c, Steps(c, s, None, n))
    ensures Settled(c, Steps(c, s, None, n)) == Settled(c, s)
  {
    hide Advanced, Inv;
    StepsAdd(c, s, None, n, m);
    SettledIs(c, s, n + m);
    SettledIs(c, Steps(c, s, None, n), m);
  }

  /** The first time point of a run without end time does not change where it ends. */
  lemma FirstStepSettlesSame(c: Circuit, s: State)
    requires Inv(c, s) && s.queue != {}
    ensures Settles(c, Advanced(c, s)) <==> Settles(c, s)
    ensures Settles(c, s) ==> RunOut(c, Advanced(c, s)) == RunOut(c, s)
  {
    hide Inv, Advanced, Settles, RunOut;
    assert Steps(c, s, None, 1) == Advanced(c, s);
    ResumeSettlesSame(c, s, 1);
  }

  /** A state in which nothing is pending is where a run without end time ends. */
  lemma RunOutOfIdle(c: Circuit, s: State)
    requires Inv(c, s) && s.queue == {}
    ensures Settles(c, s) && RunOut(c, s) == s.(time := Max(s.time, s.largestHistoryEvent))
  {
    hide Inv;
    assert Steps(c, s, None, 0).queue == {};
    SettledIs(c, s, 0);
  }

  lemma AdvancedIgnoresTime(c: Circuit, s: State, a: int)
    requires Inv(c, s) && Inv(c, s.(time := a)) && s.queue != {}
    ensures Advanced(c, s) == Advanced(c, s.(time := a))
  {
    hide Tick;
    TickIgnoresTime(c, s, s.(time := a), NextTime(s.queue));
  }

  lemma RunOutAfterWait(c: Circuit, s: State, a: int)
    requires Inv(c, s) && s.time <= a && !Due(s, Some(a)) && Inv(c, s.(time := a))
    ensures Settles(c, s.(time := a)) <==> Settles(c, s)
    ensures Settles(c, s) ==> RunOut(c, s.(time := a)) == RunOut(c, s).(time := Max(a, RunOut(c, s).time))
  {
    hide Inv, Tick, Settles, RunOut, Steps;
    var r := s.(time := a);
    if s.queue == {} {
      RunOutOfIdle(c, s);
      RunOutOfIdle(c, r);
    } else {
      AdvancedIgnoresTime(c, s, a);
      FirstStepSettlesSame(c, s);
      FirstStepSettlesSame(c, r);
      if Settles(c, s) {
        LaterThan(c, s, a);
      }
    }
  }

  /** Only the clock can tell whether a run without end time was preceded by a run to a fixed time. */
  lemma {:induction false} RunOutAfterRunTo(c: Circuit, s: State, a: int)
    requires Inv(c, s) && s.time <= a
    ensures Settles(c, RunTo(c, s, a)) <==> Settles(c, s)
    ensures Settles(c, s) ==>
      RunOut(c, RunTo(c, s, a)) == RunOut(c, s).(time := Max(a, RunOut(c, s).time))
    decreases a - s.time
  {
    hide Inv, Advanced, Settles, RunOut, Steps;
    if Due(s, Some(a)) {
      RunOutAfterRunTo(c, Advanced(c, s), a);
      FirstStepSettlesSame(c, s);
    } else {
      TimeSetKeepsInv(c, s, a);
      RunOutAfterWait(c, s, a);
    }
  }

  lemma LaterThan(c: Circuit, s: State, a: int)
    requires Inv(c, s) && s.queue != {} && a < NextTime(s.queue) && Settles(c, s)
    ensures a < RunOut(c, s).time
  {
    hide Inv, Settles, Advanced;
    FirstStepSettlesSame(c, s);
    assert Advanced(c, s).time <= Settled(c, Advanced(c, s)).time;
  }
}
