/**
 From one element at a time to all at once: processing the event groups of a time point one after the other,
 in any order of the elements, builds up the parallel step `Tick`.
 */
module TickRefinement {
  import opened Wrappers
  import opened ElementLogic
  import opened Schematics
  import opened SimulationModel
  import opened SimulationQueues

  //
  // Applying one group to the inputs of its element
  //

  /** The value input k gets from the events of a group; a later event would win over an earlier one. */
  function GroupValue(group: seq<Event>, k: nat, value: bool): bool {
    if group == [] then value
    else if group[|group| - 1].input == k then group[|group| - 1].value
    else GroupValue(group[..|group| - 1], k, value)
  }

  function GroupRow(group: seq<Event>, row: seq<bool>): (r: seq<bool>)
    ensures |r| == |row|
  {
    seq(|row|, k requires 0 <= k < |row| => GroupValue(group, k, row[k]))
  }

  function RecordedHistory(history: seq<int>, was: bool, is_: bool, length: int, t: int): seq<int> {
    if was != is_ && length > 0 then Shrink(history, t - length) + [t] else history
  }

  function RecordedLargest(largest: int, was: bool, is_: bool, length: int, t: int): int {
    if was != is_ && length > 0 then Max(largest, t + length) else largest
  }

  lemma {:induction false} GroupValueMember(group: seq<Event>, k: nat, value: bool)
    ensures (forall ev :: ev in group ==> ev.input != k) ==> GroupValue(group, k, value) == value
    ensures forall ev :: ev in group && ev.input == k && DistinctInputs(group) ==> GroupValue(group, k, value) == ev.value
  {
    if group != [] {
      var last := |group| - 1;
      assert group == group[..last] + [group[last]];
      GroupValueMember(group[..last], k, value);
    }
  }

  lemma GroupRowStep(group: seq<Event>, j: nat, row: seq<bool>)
    requires j < |group| && group[j].input < |row|
    ensures GroupRow(group[..j + 1], row) == GroupRow(group[..j], row)[group[j].input := group[j].value]
    ensures GroupValue(group[..j + 1], 0, row[0]) ==
      (if group[j].input == 0 then group[j].value else GroupValue(group[..j], 0, row[0]))
  {
    assert group[..j + 1][..j] == group[..j];
  }

  /** The order of the events in a group does not matter: only which events it holds. */
  lemma GroupRowIsInputsAfter(s: State, group: seq<Event>, t: int, e: nat)
    requires e < |s.inputs| && Unique(s) && DistinctInputs(group)
    requires forall ev :: ev in group <==> ev in SameGroup(s.queue, t, e)
    ensures GroupRow(group, s.inputs[e]) == InputsAfter(s, t, e)
  {
    forall k | 0 <= k < |s.inputs[e]| ensures GroupValue(group, k, s.inputs[e][k]) == InputAfter(s, t, e, k) {
      GroupValueMember(group, k, s.inputs[e][k]);
      assert Event(t, e, k, true) in s.queue ==> Event(t, e, k, true) in group;
      assert Event(t, e, k, false) in s.queue ==> Event(t, e, k, false) in group;
      if ev :| ev in group && ev.input == k {
        assert ev == Event(t, e, k, ev.value);
      }
    }
  }

  //
  // Adding one element to those that were processed
  //

  lemma {:induction false} NothingLargest(c: Circuit, s: State, t: int, n: nat)
    requires Runnable(c) && Shape(c, s) && n <= c.Size()
    ensures LargestAfter(c, s, t, {}, n) == s.largestHistoryEvent
  {
    if n > 0 {
      NothingLargest(c, s, t, n - 1);
    }
  }

  lemma TickOverNone(c: Circuit, s: State, t: int)
    requires Runnable(c) && Shape(c, s)
    ensures TickOver(c, s, t, {}) == s.(time := t)
  {
    NothingLargest(c, s, t, c.Size());
    var r := TickOver(c, s, t, {});
    assert EventsOf(s, t, {}) == {};
    assert EmittedByAll(c, s, t, {}) == {};
    assert r.inputs == s.inputs;
    assert r.states == s.states;
    assert r.histories == s.histories;
  }

  lemma NothingProcessed(c: Circuit, s: State, t: int)
    requires Inv(c, s)
    ensures Runnable(c) && Shape(c, s) && TickOver(c, s, t, {}) == s.(time := t)
  {
    TickOverNone(c, s, t);
  }

  lemma {:induction false} OneMoreLargest(c: Circuit, s: State, t: int, done: set<nat>, e: nat, n: nat)
    requires Runnable(c) && Shape(c, s) && n <= c.Size() && e < c.Size() && e !in done
    ensures LargestAfter(c, s, t, done + {e}, n) ==
      if e < n && Records(c, s, t, e) then Max(LargestAfter(c, s, t, done, n), t + c.historyLengths[e])
      else LargestAfter(c, s, t, done, n)
  {
    hide Records;
    if n > 0 {
      OneMoreLargest(c, s, t, done, e, n - 1);
    }
  }

  lemma OneMoreEmitted(c: Circuit, s: State, t: int, done: set<nat>, e: nat)
    requires Runnable(c) && Shape(c, s) && e < c.Size() && forall d :: d in done ==> d < c.Size()
    ensures EmittedByAll(c, s, t, done + {e}) == EmittedByAll(c, s, t, done) + EmittedBy(c, s, t, e)
  {
    hide EmittedBy;
    var more := EmittedByAll(c, s, t, done + {e});
    forall ev | ev in more ensures ev in EmittedByAll(c, s, t, done) + EmittedBy(c, s, t, e) {
      var d :| d in done + {e} && ev in EmittedBy(c, s, t, d);
    }
    forall ev | ev in EmittedByAll(c, s, t, done) ensures ev in more {
      var d :| d in done && ev in EmittedBy(c, s, t, d);
      assert d in done + {e};
    }
    assert e in done + {e};
  }

  lemma AllEmittedLater(c: Circuit, s: State, t: int, done: set<nat>)
    requires Runnable(c) && Shape(c, s) && forall d :: d in done ==> d < c.Size()
    ensures forall ev :: ev in EmittedByAll(c, s, t, done) ==> t < ev.time
  {
    forall ev | ev in EmittedByAll(c, s, t, done) ensures t < ev.time {
      var d :| d in done && ev in EmittedBy(c, s, t, d);
      EmittedLater(c, s, t, d, ev);
    }
  }

  lemma OneMoreEvents(s: State, t: int, done: set<nat>, e: nat)
    ensures EventsOf(s, t, done + {e}) == EventsOf(s, t, done) + SameGroup(s.queue, t, e)
  {
  }

  lemma OneMoreQueue(c: Circuit, s: State, t: int, done: set<nat>, e: nat)
    requires Runnable(c) && Shape(c, s) && e < c.Size() && forall d :: d in done ==> d < c.Size()
    ensures TickOver(c, s, t, done + {e}).queue
         == (TickOver(c, s, t, done).queue - SameGroup(s.queue, t, e)) + EmittedBy(c, s, t, e)
  {
    OneMoreEmitted(c, s, t, done, e);
    AllEmittedLater(c, s, t, done);
    OneMoreEvents(s, t, done, e);
    hide EmittedBy, EmittedByAll;
    assert SameGroup(s.queue, t, e) !! EmittedByAll(c, s, t, done);
  }

  lemma EmittedHasInput(c: Circuit, s: State, t: int, done: set<nat>, ev: Event)
    requires Runnable(c) && Shape(c, s) && forall d :: d in done ==> d < c.Size()
    requires ev in EmittedByAll(c, s, t, done)
    ensures c.HasInput(Input(ev.element, ev.input))
  {
    var e :| e in done && ev in EmittedBy(c, s, t, e);
    var o :| 0 <= o < |c.outputConnections[e]| && Emits(c, s, t, e, o)
             && ev == OutputEvent(c, t, Output(e, o), DrivenAfter(c, s, t, e)[o]);
    assert c.HasOutput(Output(e, o));
  }

  lemma EmittedLater(c: Circuit, s: State, t: int, e: nat, ev: Event)
    requires Runnable(c) && Shape(c, s) && e < c.Size() && ev in EmittedBy(c, s, t, e)
    ensures t < ev.time
  {
    var o :| 0 <= o < |c.outputConnections[e]| && Emits(c, s, t, e, o)
             && ev == OutputEvent(c, t, Output(e, o), DrivenAfter(c, s, t, e)[o]);
  }

  lemma OneMoreCount(s: State, t: int, done: set<nat>, e: nat)
    requires e !in done
    ensures |EventsOf(s, t, done + {e})| == |EventsOf(s, t, done)| + |SameGroup(s.queue, t, e)|
  {
    OneMoreEvents(s, t, done, e);
    assert EventsOf(s, t, done) !! SameGroup(s.queue, t, e);
  }

  lemma OneMoreRows(c: Circuit, s: State, t: int, done: set<nat>, e: nat)
    requires Runnable(c) && Shape(c, s) && e < c.Size() && e !in done && forall d :: d in done ==> d < c.Size()
    ensures var was, now := TickOver(c, s, t, done), TickOver(c, s, t, done + {e});
      && was.inputs[e] == s.inputs[e] && now.inputs == was.inputs[e := InputsAfter(s, t, e)]
      && was.states[e] == s.states[e] && now.states == was.states[e := StateAfter(c, s, t, e)]
      && was.histories[e] == s.histories[e] && now.histories == was.histories[e := HistoryAfter(c, s, t, e)]
  {
    hide EmittedBy, EmittedByAll, InputsAfter, StateAfter, HistoryAfter, LargestAfter;
    var was, now := TickOver(c, s, t, done), TickOver(c, s, t, done + {e});
    assert now.inputs == was.inputs[e := InputsAfter(s, t, e)];
    assert now.states == was.states[e := StateAfter(c, s, t, e)];
    assert now.histories == was.histories[e := HistoryAfter(c, s, t, e)];
  }

  /** The state when one more element has seen its events. */
  lemma OneMoreElement(c: Circuit, s: State, t: int, done: set<nat>, e: nat)
    requires Runnable(c) && Shape(c, s) && e < c.Size() && e !in done && forall d :: d in done ==> d < c.Size()
    ensures var was, now := TickOver(c, s, t, done), TickOver(c, s, t, done + {e});
      && now.time == was.time == t
      && now.queue == (was.queue - SameGroup(s.queue, t, e)) + EmittedBy(c, s, t, e)
      && was.inputs[e] == s.inputs[e] && now.inputs == was.inputs[e := InputsAfter(s, t, e)]
      && was.states[e] == s.states[e] && now.states == was.states[e := StateAfter(c, s, t, e)]
      && was.histories[e] == s.histories[e] && now.histories == was.histories[e := HistoryAfter(c, s, t, e)]
      && now.largestHistoryEvent ==
         (if Records(c, s, t, e) then Max(was.largestHistoryEvent, t + c.historyLengths[e])
          else was.largestHistoryEvent)
      && now.eventCount == was.eventCount + |SameGroup(s.queue, t, e)|
  {
    OneMoreQueue(c, s, t, done, e);
    OneMoreLargest(c, s, t, done, e, c.Size());
    OneMoreCount(s, t, done, e);
    OneMoreRows(c, s, t, done, e);
    hide EmittedBy, EmittedByAll, InputsAfter, StateAfter, HistoryAfter, LargestAfter, EventsOf, SameGroup;
  }

  lemma {:induction false} SameLargestWhenInactive(c: Circuit, s: State, t: int, done: set<nat>, n: nat)
    requires Runnable(c) && Shape(c, s) && n <= c.Size()
    requires forall e :: e in Elements(c) && e !in done ==> !Records(c, s, t, e)
    ensures LargestAfter(c, s, t, done, n) == LargestAfter(c, s, t, Elements(c), n)
  {
    if n > 0 {
      SameLargestWhenInactive(c, s, t, done, n - 1);
    }
  }

  lemma OnlyActiveEvents(c: Circuit, s: State, t: int, done: set<nat>)
    requires Runnable(c) && Shape(c, s) && forall d :: d in done ==> d < c.Size()
    requires forall e :: e in Elements(c) && Active(s, t, e) ==> e in done
    ensures EventsOf(s, t, done) == EventsOf(s, t, Elements(c))
    ensures EmittedByAll(c, s, t, done) == EmittedByAll(c, s, t, Elements(c))
  {
    forall ev | ev in s.queue && ev.time == t ensures ev.element in done {
      assert c.HasInput(Input(ev.element, ev.input));
      assert ev == Event(t, ev.element, ev.input, ev.value);
      assert Active(s, t, ev.element) && ev.element in Elements(c);
    }
    forall ev | ev in EmittedByAll(c, s, t, Elements(c)) ensures ev in EmittedByAll(c, s, t, done) {
      var e :| e in Elements(c) && ev in EmittedBy(c, s, t, e);
      assert Active(s, t, e);
    }
  }

  lemma InactiveUnchanged(c: Circuit, s: State, t: int, e: nat)
    requires Runnable(c) && Shape(c, s) && e < c.Size() && !Active(s, t, e)
    ensures InputsAfter(s, t, e) == s.inputs[e] && StateAfter(c, s, t, e) == s.states[e]
    ensures !Records(c, s, t, e) && HistoryAfter(c, s, t, e) == s.histories[e]
  {
  }

  /** Elements without events do not have to be processed. */
  lemma OnlyActiveMatter(c: Circuit, s: State, t: int, done: set<nat>)
    requires Runnable(c) && Shape(c, s) && forall d :: d in done ==> d < c.Size()
    requires forall e :: e in Elements(c) && Active(s, t, e) ==> e in done
    ensures TickOver(c, s, t, done) == Tick(c, s, t)
  {
    OnlyActiveEvents(c, s, t, done);
    forall e: nat | e < c.Size() && e !in done
      ensures InputsAfter(s, t, e) == s.inputs[e] && StateAfter(c, s, t, e) == s.states[e]
      ensures !Records(c, s, t, e) && HistoryAfter(c, s, t, e) == s.histories[e]
    {
      InactiveUnchanged(c, s, t, e);
    }
    SameLargestWhenInactive(c, s, t, done, c.Size());
    SameRows(c, s, t, done);
  }

  lemma SameRows(c: Circuit, s: State, t: int, done: set<nat>)
    requires Runnable(c) && Shape(c, s) && forall d :: d in done ==> d < c.Size()
    requires EventsOf(s, t, done) == EventsOf(s, t, Elements(c))
    requires EmittedByAll(c, s, t, done) == EmittedByAll(c, s, t, Elements(c))
    requires LargestAfter(c, s, t, done, c.Size()) == LargestAfter(c, s, t, Elements(c), c.Size())
    requires forall e: nat :: e < c.Size() && e !in done ==>
      InputsAfter(s, t, e) == s.inputs[e] && StateAfter(c, s, t, e) == s.states[e]
      && HistoryAfter(c, s, t, e) == s.histories[e]
    ensures TickOver(c, s, t, done) == Tick(c, s, t)
  {
    hide EmittedBy, EmittedByAll, InputsAfter, StateAfter, HistoryAfter, LargestAfter, EventsOf;
    var a, b := TickOver(c, s, t, done), Tick(c, s, t);
    assert a.inputs == b.inputs;
    assert a.states == b.states;
    assert a.histories == b.histories;
  }

  //
  // Changed outputs
  //

  /** The events for the outputs whose value changed and that are connected. */
  ghost function ChangedEvents(c: Circuit, t: int, e: nat, olds: seq<bool>, news: seq<bool>, n: nat): set<Event>
    requires Runnable(c) && e < c.Size() && n <= |olds| == |news| == |c.outputConnections[e]|
  {
    set o | 0 <= o < n && olds[o] != news[o] && c.Target(Output(e, o)).Some? ::
      OutputEvent(c, t, Output(e, o), news[o])
  }

  lemma EmittedAreChanged(c: Circuit, s: State, t: int, e: nat)
    requires Runnable(c) && Shape(c, s) && e < c.Size() && Computes(c, e) && Active(s, t, e)
    ensures EmittedBy(c, s, t, e) ==
      ChangedEvents(c, t, e, DrivenValues(c, s, e), DrivenAfter(c, s, t, e), |c.outputConnections[e]|)
  {
    var olds, news := DrivenValues(c, s, e), DrivenAfter(c, s, t, e);
    var changed := ChangedEvents(c, t, e, olds, news, |c.outputConnections[e]|);
    forall ev | ev in EmittedBy(c, s, t, e) ensures ev in changed {
      var o :| 0 <= o < |c.outputConnections[e]| && Emits(c, s, t, e, o)
               && ev == OutputEvent(c, t, Output(e, o), news[o]);
    }
    forall ev | ev in changed ensures ev in EmittedBy(c, s, t, e) {
      var o :| 0 <= o < |c.outputConnections[e]| && olds[o] != news[o] && c.Target(Output(e, o)).Some?
               && ev == OutputEvent(c, t, Output(e, o), news[o]);
      assert Emits(c, s, t, e, o);
    }
  }

  ghost predicate NoEventFor(events: set<Event>, t: int, i: Input) {
    forall ev :: ev in events ==> !(ev.time == t && For(ev, i))
  }

  ghost predicate AllBelow(listed: seq<nat>, n: nat) {
    forall i :: 0 <= i < |listed| ==> listed[i] < n
  }

  /** The events for the listed outputs, as far as they are connected. */
  ghost function ListedEvents(c: Circuit, t: int, e: nat, news: seq<bool>, listed: seq<nat>): set<Event>
    requires Runnable(c) && e < c.Size() && |news| == |c.outputConnections[e]|
    requires AllBelow(listed, |news|)
  {
    set o | o in listed && c.Target(Output(e, o)).Some? :: OutputEvent(c, t, Output(e, o), news[o])
  }

  lemma ListedOneMore(c: Circuit, t: int, e: nat, news: seq<bool>, listed: seq<nat>, j: nat)
    requires Runnable(c) && e < c.Size() && |news| == |c.outputConnections[e]|
    requires j < |listed| && AllBelow(listed, |news|)
    ensures c.HasOutput(Output(e, listed[j]))
    ensures ListedEvents(c, t, e, news, listed[..j + 1]) == ListedEvents(c, t, e, news, listed[..j]) +
      if c.Target(Output(e, listed[j])).Some? then {OutputEvent(c, t, Output(e, listed[j]), news[listed[j]])} else {}
  {
    assert listed[..j + 1] == listed[..j] + [listed[j]];
    assert c.HasOutput(Output(e, listed[j]));
  }

  /** Different outputs have different targets. */
  lemma ListedElsewhere(c: Circuit, t: int, e: nat, news: seq<bool>, listed: seq<nat>, o: Output)
    requires Runnable(c) && e < c.Size() && |news| == |c.outputConnections[e]|
    requires AllBelow(listed, |news|) && o.id !in listed
    requires c.HasOutput(o) && c.Target(o).Some? && o.element == e
    ensures NoEventFor(ListedEvents(c, t, e, news, listed), t + c.Delay(o), c.Target(o).value)
  {
    forall ev | ev in ListedEvents(c, t, e, news, listed) ensures !For(ev, c.Target(o).value) {
      var p :| p in listed && c.Target(Output(e, p)).Some? && ev == OutputEvent(c, t, Output(e, p), news[p]);
      assert c.HasOutput(Output(e, p));
    }
  }

  lemma ListedAreChanged(c: Circuit, t: int, e: nat, olds: seq<bool>, news: seq<bool>, listed: seq<nat>)
    requires Runnable(c) && e < c.Size() && |olds| == |news| == |c.outputConnections[e]|
    requires AllBelow(listed, |news|) && forall o: nat :: o in listed <==> o < |olds| && olds[o] != news[o]
    ensures ListedEvents(c, t, e, news, listed) == ChangedEvents(c, t, e, olds, news, |olds|)
  {
  }

  //
  // The logic of one element
  //

  ghost function UpdatedState(c: Circuit, e: nat, olds: seq<bool>, news: seq<bool>, state: seq<bool>): (r: seq<bool>)
    requires Runnable(c) && e < c.Size() && |olds| == |news| == |c.inputConnections[e]|
    requires |state| == InternalStateSize(c.types[e])
    ensures |r| == |state|
  {
    if HasInternalState(c.types[e])
    then UpdateInternalState(Effective(c, e, olds), Effective(c, e, news), c.types[e], |c.outputConnections[e]|, state)
    else state
  }

  /** The outputs of an element as its switched-off targets show them; unconnected outputs do not matter. */
  function SwitchedOffOutputs(c: Circuit, inputs: seq<seq<bool>>, e: nat): (r: seq<bool>)
    requires c.Valid() && e < c.Size() && |inputs| == c.Size()
    requires forall x :: 0 <= x < c.Size() ==> |inputs[x]| == |c.inputConnections[x]|
    ensures |r| == |c.outputConnections[e]|
  {
    seq(|c.outputConnections[e]|, o requires 0 <= o < |c.outputConnections[e]| =>
      assert c.HasOutput(Output(e, o));
      if c.Target(Output(e, o)).Some?
      then inputs[c.Target(Output(e, o)).value.element][c.Target(Output(e, o)).value.id]
      else false)
  }

  /** Outputs of element e may submit: neither an older event nor one of a processed element is in the way. */
  lemma NothingInTheWay(c: Circuit, s: State, t: int, done: set<nat>, e: nat, o: nat)
    requires Inv(c, s) && CanTick(s, t) && e < c.Size() && e !in done && forall d :: d in done ==> d < c.Size()
    requires o < |c.outputConnections[e]| && c.Target(Output(e, o)).Some?
    ensures NoEventFor(TickOver(c, s, t, done).queue, t + c.Delay(Output(e, o)), c.Target(Output(e, o)).value)
  {
    var i := c.Target(Output(e, o)).value;
    assert c.HasOutput(Output(e, o));
    assert Lead(c, i) == c.Delay(Output(e, o));
    forall ev | ev in TickOver(c, s, t, done).queue ensures !(ev.time == t + c.Delay(Output(e, o)) && For(ev, i)) {
      if ev !in s.queue {
        var d :| d in done && ev in EmittedBy(c, s, t, d);
        var p :| 0 <= p < |c.outputConnections[d]| && Emits(c, s, t, d, p)
                 && ev == OutputEvent(c, t, Output(d, p), DrivenAfter(c, s, t, d)[p]);
        assert c.HasOutput(Output(d, p));
      }
    }
  }

  /** What is left after a group was taken from the queue while its element is being processed. */
  ghost function GroupTaken(c: Circuit, s: State, t: int, done: set<nat>, e: nat): State
    requires Runnable(c) && Shape(c, s) && forall d :: d in done ==> d < c.Size()
  {
    var was := TickOver(c, s, t, done);
    was.(queue := was.queue - SameGroup(s.queue, t, e))
  }

  /** A group holds each event once. */
  lemma {:induction false} GroupSize(group: seq<Event>, events: set<Event>)
    requires DistinctInputs(group) && forall ev :: ev in group <==> ev in events
    ensures |group| == |events|
    decreases |group|
  {
    if group == [] {
      assert events == {};
    } else {
      var last := |group| - 1;
      var front := group[..last];
      assert group == front + [group[last]];
      assert group[last] !in front;
      forall ev ensures ev in front <==> ev in events - {group[last]} {
        assert ev in group <==> ev in front || ev == group[last];
      }
      GroupSize(front, events - {group[last]});
    }
  }

  /** A group and the element and time point it belongs to. */
  ghost predicate ListsGroup(group: seq<Event>, s: State, t: int, e: nat) {
    DistinctInputs(group) && forall ev :: ev in group <==> ev in SameGroup(s.queue, t, e)
  }

  lemma GroupIsAfter(c: Circuit, s: State, t: int, e: nat, group: seq<Event>)
    requires Inv(c, s) && e < c.Size() && group != [] && ListsGroup(group, s, t, e)
    ensures Active(s, t, e) && |s.inputs[e]| > 0
    ensures InputsAfter(s, t, e) == GroupRow(group, s.inputs[e])
    ensures StateAfter(c, s, t, e) == UpdatedState(c, e, s.inputs[e], GroupRow(group, s.inputs[e]), s.states[e])
    ensures HistoryAfter(c, s, t, e) ==
      RecordedHistory(s.histories[e], s.inputs[e][0], GroupValue(group, 0, s.inputs[e][0]), c.historyLengths[e], t)
    ensures forall largest ::
      (if Records(c, s, t, e) then Max(largest, t + c.historyLengths[e]) else largest) ==
      RecordedLargest(largest, s.inputs[e][0], GroupValue(group, 0, s.inputs[e][0]), c.historyLengths[e], t)
  {
    GroupRowIsInputsAfter(s, group, t, e);
    assert group[0] in group && group[0] == Event(t, e, group[0].input, group[0].value);
    assert c.HasInput(Input(e, group[0].input));
    assert InputsAfter(s, t, e)[0] == GroupValue(group, 0, s.inputs[e][0]);
  }

  lemma GroupMembers(c: Circuit, s: State, t: int, e: nat, group: seq<Event>)
    requires Inv(c, s) && ListsGroup(group, s, t, e)
    ensures DistinctInputs(group)
    ensures forall ev :: ev in group ==> ev.element == e && c.HasInput(Input(e, ev.input))
  {
    forall ev | ev in group ensures ev.element == e && c.HasInput(Input(e, ev.input)) {
      assert ev in SameGroup(s.queue, t, e);
    }
  }

  /** What the fields of the simulation must hold after processing one more element, field by field. */
  lemma GroupTakenRows(c: Circuit, s: State, t: int, done: set<nat>, e: nat, group: seq<Event>)
    requires Inv(c, s) && CanTick(s, t) && e < c.Size() && e !in done && forall d :: d in done ==> d < c.Size()
    requires group != [] && ListsGroup(group, s, t, e)
    ensures var was, now := GroupTaken(c, s, t, done, e), TickOver(c, s, t, done + {e});
      && now.time == was.time == t
      && |was.inputs| == |was.states| == |was.histories| == c.Size()
      && was.inputs[e] == s.inputs[e] && was.states[e] == s.states[e] && |s.inputs[e]| > 0
      && now.inputs == was.inputs[e := GroupRow(group, was.inputs[e])]
      && now.states == was.states[e := UpdatedState(c, e, was.inputs[e], GroupRow(group, was.inputs[e]), was.states[e])]
      && now.histories == was.histories[e := RecordedHistory(was.histories[e], was.inputs[e][0],
           GroupValue(group, 0, was.inputs[e][0]), c.historyLengths[e], t)]
      && now.largestHistoryEvent == RecordedLargest(was.largestHistoryEvent, was.inputs[e][0],
           GroupValue(group, 0, was.inputs[e][0]), c.historyLengths[e], t)
      && now.eventCount == was.eventCount + |group|
  {
    OneMoreElement(c, s, t, done, e);
    GroupIsAfter(c, s, t, e, group);
    GroupSize(group, SameGroup(s.queue, t, e));
    hide InputsAfter, StateAfter, HistoryAfter, Records, UpdatedState, RecordedHistory, RecordedLargest, TickOver,
      GroupRow, GroupValue, SameGroup, EmittedBy, Max;
  }

  lemma GroupTakenQueue(c: Circuit, s: State, t: int, done: set<nat>, e: nat, group: seq<Event>)
    requires Inv(c, s) && CanTick(s, t) && e < c.Size() && e !in done && forall d :: d in done ==> d < c.Size()
    requires group != [] && ListsGroup(group, s, t, e)
    ensures |c.outputConnections[e]| == 0 ==>
      TickOver(c, s, t, done + {e}).queue == GroupTaken(c, s, t, done, e).queue
    ensures |c.outputConnections[e]| > 0 ==>
      && Computes(c, e)
      && TickOver(c, s, t, done + {e}).queue == GroupTaken(c, s, t, done, e).queue +
           ChangedEvents(c, t, e, OutputValues(c, e, s.inputs[e], s.states[e]),
             OutputValues(c, e, GroupRow(group, s.inputs[e]),
               UpdatedState(c, e, s.inputs[e], GroupRow(group, s.inputs[e]), s.states[e])),
             |c.outputConnections[e]|)
  {
    OneMoreQueue(c, s, t, done, e);
    GroupRowIsInputsAfter(s, group, t, e);
    assert group[0] in group && group[0] == Event(t, e, group[0].input, group[0].value);
    assert Active(s, t, e);
    assert c.HasInput(Input(e, group[0].input));
    if |c.outputConnections[e]| > 0 {
      EmittedAreChanged(c, s, t, e);
    } else {
      assert EmittedBy(c, s, t, e) == {};
    }
  }

  /** What an element needs so that the events of a group can be applied to it. */
  ghost predicate CanApply(c: Circuit, s: State, group: seq<Event>) {
    && Runnable(c) && |s.inputs| == |s.states| == |s.histories| == c.Size()
    && (forall e :: 0 <= e < c.Size() ==> |s.inputs[e]| == |c.inputConnections[e]|)
    && (forall e :: 0 <= e < c.Size() ==> |s.states[e]| == InternalStateSize(c.types[e]))
    && group != [] && DistinctInputs(group) && group[0].element < c.Size()
    && (forall ev :: ev in group ==> ev.element == group[0].element && c.HasInput(Input(ev.element, ev.input)))
    && |s.inputs[group[0].element]| > 0
    && (|c.outputConnections[group[0].element]| > 0 ==> Computes(c, group[0].element))
  }

  /** The state after the inputs of one element were set and the element was updated. */
  ghost function GroupApplied(c: Circuit, s: State, group: seq<Event>): State
    requires CanApply(c, s, group)
  {
    var e := group[0].element;
    var row, was := GroupRow(group, s.inputs[e]), s.inputs[e][0];
    var is_ := GroupValue(group, 0, was);
    var state := UpdatedState(c, e, s.inputs[e], row, s.states[e]);
    State(
      s.time,
      if |c.outputConnections[e]| == 0 then s.queue
      else s.queue + ChangedEvents(c, s.time, e, OutputValues(c, e, s.inputs[e], s.states[e]),
                                   OutputValues(c, e, row, state), |c.outputConnections[e]|),
      s.inputs[e := row],
      s.states[e := state],
      s.histories[e := RecordedHistory(s.histories[e], was, is_, c.historyLengths[e], s.time)],
      RecordedLargest(s.largestHistoryEvent, was, is_, c.historyLengths[e], s.time),
      s.eventCount)
  }

  lemma GroupCanApply(c: Circuit, s: State, t: int, done: set<nat>, e: nat, group: seq<Event>)
    requires Inv(c, s) && CanTick(s, t) && e < c.Size() && e !in done && forall d :: d in done ==> d < c.Size()
    requires group != [] && group[0].element == e && ListsGroup(group, s, t, e)
    requires Shape(c, TickOver(c, s, t, done))
    ensures CanApply(c, GroupTaken(c, s, t, done, e), group)
  {
    GroupMembers(c, s, t, e, group);
    GroupTakenRows(c, s, t, done, e, group);
    GroupTakenQueue(c, s, t, done, e, group);
  }

  /** Applying the group of an element is processing one more element. */
  lemma GroupAppliedIsNext(c: Circuit, s: State, t: int, done: set<nat>, e: nat, group: seq<Event>)
    requires Inv(c, s) && CanTick(s, t) && e < c.Size() && e !in done && forall d :: d in done ==> d < c.Size()
    requires group != [] && group[0].element == e && ListsGroup(group, s, t, e)
    requires CanApply(c, GroupTaken(c, s, t, done, e), group)
    ensures var r := GroupApplied(c, GroupTaken(c, s, t, done, e), group);
      TickOver(c, s, t, done + {e}) == r.(eventCount := r.eventCount + |group|)
  {
    GroupTakenRows(c, s, t, done, e, group);
    GroupTakenQueue(c, s, t, done, e, group);
    hide GroupTaken, TickOver, GroupRow, GroupValue, UpdatedState, ChangedEvents, OutputValues, RecordedHistory,
      RecordedLargest, CanApply, ListsGroup, Inv;
  }

  /** Before element e is processed, its history only holds earlier times. */
  lemma TakenHistory(c: Circuit, s: State, t: int, done: set<nat>, e: nat)
    requires Inv(c, s) && CanTick(s, t) && e < c.Size() && e !in done && forall d :: d in done ==> d < c.Size()
    ensures GroupTaken(c, s, t, done, e).histories[e] == s.histories[e] && Ascending(s.histories[e])
    ensures forall j :: 0 <= j < |s.histories[e]| ==> s.histories[e][j] < t
  {
    assert HistoryFits(s.histories[e], c.historyLengths[e], s.time, s.largestHistoryEvent);
  }

  /** The group that is taken from the queue at the current time is that of an element not processed yet. */
  lemma PoppedGroup(c: Circuit, s: State, t: int, done: set<nat>, group: seq<Event>, events: set<Event>)
    requires Inv(c, s) && CanTick(s, t) && forall d :: d in done ==> d < c.Size()
    requires events == TickOver(c, s, t, done).queue
    requires group != [] && IsGroup(group, events) && group[0].time == t
    requires forall ev :: ev in group <==> ev in SameGroup(events, t, group[0].element)
    ensures group[0].element < c.Size() && group[0].element !in done
    ensures ListsGroup(group, s, t, group[0].element)
    ensures events - SameGroup(events, t, group[0].element) == GroupTaken(c, s, t, done, group[0].element).queue
    ensures GroupTaken(c, s, t, done, group[0].element)
         == TickOver(c, s, t, done).(queue := events - SameGroup(events, t, group[0].element))
    ensures TickOver(c, s, t, done + {group[0].element}).eventCount
         == TickOver(c, s, t, done).eventCount + |group|
  {
    var e := group[0].element;
    AllEmittedLater(c, s, t, done);
    assert group[0] in group;
    assert group[0] in s.queue && c.HasInput(Input(e, group[0].input));
    assert e !in done;
    assert SameGroup(events, t, e) == SameGroup(s.queue, t, e);
    GroupSize(group, SameGroup(s.queue, t, e));
    OneMoreCount(s, t, done, e);
  }

  lemma MoreDone(c: Circuit, done: set<nat>, e: nat)
    requires e !in done && e < c.Size() && forall d :: d in done ==> d < c.Size()
    ensures |done| < |done + {e}| <= c.Size()
  {
    SubsetSize(done + {e}, c.Size());
  }

  lemma {:induction false} SubsetSize(done: set<nat>, n: nat)
    requires forall d :: d in done ==> d < n
    ensures |done| <= n
  {
    if n > 0 {
      SubsetSize(done - {n - 1}, n - 1);
    } else {
      assert done == {};
    }
  }

  /** When nothing is left at the current time, every element with events was processed. */
  lemma AllProcessed(c: Circuit, s: State, t: int, done: set<nat>, next: Option<int>)
    requires Inv(c, s) && CanTick(s, t) && forall d :: d in done ==> d < c.Size()
    requires IsNextTime(TickOver(c, s, t, done).queue, next) && next != Some(t)
    ensures TickOver(c, s, t, done) == Tick(c, s, t) && Inv(c, Tick(c, s, t))
  {
    var events := TickOver(c, s, t, done).queue;
    AllEmittedLater(c, s, t, done);
    assert forall ev :: ev in events ==> t <= ev.time;
    forall e | e in Elements(c) && Active(s, t, e) ensures e in done {
      var k, v :| Event(t, e, k, v) in s.queue;
      assert Event(t, e, k, v) !in events;
    }
    OnlyActiveMatter(c, s, t, done);
    TickKeepsInv(c, s, t);
  }
}
