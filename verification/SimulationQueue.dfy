/** The queue of future events, ordered by time and then by element. */
module SimulationQueues {
  import opened Wrappers
  import opened SimulationModel

  predicate NotAfter(a: Event, b: Event) {
    a.time < b.time || (a.time == b.time && a.element <= b.element)
  }

  /** The events of the earliest element of the earliest time. */
  ghost predicate IsTop(events: set<Event>, top: Event) {
    top in events && forall x :: x in events ==> NotAfter(top, x)
  }

  lemma {:induction false} TopExists(events: set<Event>)
    requires events != {}
    ensures exists top :: IsTop(events, top)
    decreases events
  {
    var some :| some in events;
    if events == {some} {
      assert IsTop(events, some);
    } else {
      TopExists(events - {some});
      var rest :| IsTop(events - {some}, rest);
      var top := if NotAfter(some, rest) then some else rest;
      forall x | x in events ensures NotAfter(top, x) {
        assert x == some || x in events - {some};
      }
      assert IsTop(events, top);
    }
  }

  ghost function SameGroup(events: set<Event>, t: int, e: nat): set<Event> {
    set ev | ev in events && ev.time == t && ev.element == e
  }

  ghost predicate DistinctInputs(group: seq<Event>) {
    forall i, j :: 0 <= i < j < |group| ==> group[i].input != group[j].input
  }

  /** A group lists the events of one element at one time, each once. */
  ghost predicate IsGroup(group: seq<Event>, events: set<Event>) {
    && DistinctInputs(group)
    && (forall ev :: ev in group ==> ev.time == group[0].time && ev.element == group[0].element)
    && (forall ev :: ev in group ==> ev in events)
  }

  /** The earliest time of all events, or None when there are none. */
  ghost predicate IsNextTime(events: set<Event>, next: Option<int>) {
    && (next.None? <==> events == {})
    && (next.Some? ==> exists ev :: ev in events && ev.time == next.value)
    && (next.Some? ==> forall ev :: ev in events ==> next.value <= ev.time)
  }

  class SimulationQueue {
    var time: int
    var events: set<Event>

    /** At most one event for each time and input, and none in the past. */
    ghost predicate Valid()
      reads this
    {
      && (forall ev :: ev in events ==> time <= ev.time)
      && (forall a, b :: a in events && b in events && a.time == b.time && a.element == b.element && a.input == b.input
            ==> a == b)
    }

    constructor ()
      ensures Valid() && time == 0 && events == {}
    {
      time, events := 0, {};
    }

    /** Neither back in time nor past an event. */
    method SetTime(t: int)
      requires Valid() && time <= t && forall ev :: ev in events ==> t <= ev.time
      modifies this`time
      ensures Valid() && time == t
    {
      time := t;
    }

    method Top() returns (top: Event)
      requires events != {}
      ensures IsTop(events, top)
    {
      TopExists(events);
      top :| top in events && forall x :: x in events ==> NotAfter(top, x);
    }

    /** None when the queue is empty. */
    method NextEventTime() returns (t: Option<int>)
      ensures IsNextTime(events, t)
    {
      if events == {} {
        t := None;
      } else {
        var top := Top();
        t := Some(top.time);
      }
    }

    method SubmitEvent(event: Event)
      requires Valid() && time < event.time
      requires forall ev :: ev in events && ev.time == event.time ==>
        !(ev.element == event.element && ev.input == event.input)
      modifies this`events
      ensures Valid() && events == old(events) + {event}
    {
      events := events + {event};
    }

    /** Takes all events of the first element that is due and advances the time to them. */
    method PopEventGroup() returns (group: seq<Event>)
      requires Valid()
      modifies this
      ensures Valid()
      ensures IsGroup(group, old(events))
      ensures group == [] <==> old(events) == {}
      ensures group == [] ==> time == old(time) && events == {}
      ensures group != [] ==>
        && IsTop(old(events), group[0]) && time == group[0].time
        && (forall ev :: ev in group <==> ev in SameGroup(old(events), group[0].time, group[0].element))
        && events == old(events) - SameGroup(old(events), group[0].time, group[0].element)
    {
      group := [];
      while events != {}
        invariant forall ev :: ev in events <==> ev in old(events) && ev !in group
        invariant IsGroup(group, old(events))
        invariant group != [] ==> IsTop(old(events), group[0])
        invariant time == old(time)
        decreases events
      {
        var top := Top();
        if group != [] && (group[0].element != top.element || group[0].time != top.time) {
          break;
        }
        assert forall ev :: ev in group ==> ev.input != top.input;
        group := group + [top];
        events := events - {top};
      }
      if group != [] {
        ghost var all := SameGroup(old(events), group[0].time, group[0].element);
        assert forall ev :: ev in all ==> ev in group;
        assert events == old(events) - all;
        time := group[0].time;
      }
    }
  }
}
