/**
 The steady state: in a schematic without loops no event stays pending forever, and without internal state
 every input ends with the value of the Boolean expression that its drivers spell out.
 */
module SteadyState {
  import opened Wrappers
  import opened ElementLogic
  import opened Schematics
  import opened SimulationModel
  import opened SimulationRuns
  import opened Consistency
  import opened Interruption
  import opened SimulationStart

  /** Every connection leads to an element of higher rank. */
  ghost predicate Ranked(c: Circuit, rank: seq<nat>)
    requires Runnable(c)
  {
    |rank| == c.Size() &&
    forall o :: c.HasOutput(o) && c.Target(o).Some? && c.HasInput(c.Target(o).value) ==>
      rank[o.element] < rank[c.Target(o).value.element]
  }

  ghost predicate Acyclic(c: Circuit)
    requires Runnable(c)
  {
    exists rank :: Ranked(c, rank)
  }

  //
  // Loops
  //

  /** Some output of element e is connected to an input of element f. */
  ghost predicate Drives(c: Circuit, e: nat, f: nat) {
    exists o :: c.HasOutput(o) && o.element == e && c.Target(o).Some? && c.Target(o).value.element == f
  }

  /** Each element of the walk drives the next one. */
  ghost predicate IsWalk(c: Circuit, w: seq<nat>) {
    |w| > 1 && forall i :: 0 < i < |w| ==> Drives(c, w[i - 1], w[i])
  }

  ghost predicate HasWalk(c: Circuit, e: nat, f: nat) {
    exists w :: IsWalk(c, w) && w[0] == e && w[|w| - 1] == f
  }

  /** An element that drives itself, maybe over others. */
  ghost predicate HasLoop(c: Circuit) {
    exists e: nat :: HasWalk(c, e, e)
  }

  lemma {:induction false} RanksGrow(c: Circuit, rank: seq<nat>, w: seq<nat>)
    requires Runnable(c) && Ranked(c, rank) && IsWalk(c, w)
    ensures w[0] < |rank| && w[|w| - 1] < |rank| && rank[w[0]] < rank[w[|w| - 1]]
    decreases |w|
  {
    var n := |w| - 1;
    assert Drives(c, w[n - 1], w[n]);
    var o :| c.HasOutput(o) && o.element == w[n - 1] && c.Target(o).Some? && c.Target(o).value.element == w[n];
    assert c.HasInput(c.Target(o).value);
    if n > 1 {
      RanksGrow(c, rank, w[..n]);
    }
  }

  /** The elements that drive element e, maybe over others. */
  ghost function Ancestors(c: Circuit, e: nat): set<nat> {
    set f: nat | f < c.Size() && HasWalk(c, f, e)
  }

  lemma WalkOfOne(c: Circuit, e: nat, f: nat)
    requires Drives(c, e, f)
    ensures HasWalk(c, e, f)
  {
    assert IsWalk(c, [e, f]);
  }

  lemma LongerWalk(c: Circuit, e: nat, f: nat, g: nat)
    requires HasWalk(c, e, f) && Drives(c, f, g)
    ensures HasWalk(c, e, g)
  {
    var w :| IsWalk(c, w) && w[0] == e && w[|w| - 1] == f;
    var longer := w + [g];
    assert IsWalk(c, longer) && longer[0] == e && longer[|longer| - 1] == g;
  }

  lemma ProperSubsetIsSmaller<T>(a: set<T>, b: set<T>, x: T)
    requires a <= b && x in b && x !in a
    ensures |a| < |b|
  {
    assert b == a + (b - a);
    assert x in b - a;
  }

  ghost function AncestorCounts(c: Circuit): (r: seq<nat>)
    ensures |r| == c.Size()
  {
    seq(c.Size(), e requires 0 <= e < c.Size() => |Ancestors(c, e)|)
  }

  /** Without loops, the number of elements that drive an element is a rank. */
  lemma AncestorsRank(c: Circuit)
    requires Runnable(c) && !HasLoop(c)
    ensures Ranked(c, AncestorCounts(c))
  {
    hide HasWalk;
    forall o | c.HasOutput(o) && c.Target(o).Some? && c.HasInput(c.Target(o).value)
      ensures |Ancestors(c, o.element)| < |Ancestors(c, c.Target(o).value.element)|
    {
      var e, f := o.element, c.Target(o).value.element;
      assert Drives(c, e, f);
      WalkOfOne(c, e, f);
      forall x | x in Ancestors(c, e) ensures x in Ancestors(c, f) {
        LongerWalk(c, x, e, f);
      }
      assert !HasWalk(c, e, e);
      ProperSubsetIsSmaller(Ancestors(c, e), Ancestors(c, f), e);
    }
  }

  /** A schematic can be ranked exactly if it has no loops. */
  lemma AcyclicIff(c: Circuit)
    requires Runnable(c)
    ensures Acyclic(c) <==> !HasLoop(c)
  {
    if rank :| Ranked(c, rank) {
      forall e: nat ensures !HasWalk(c, e, e) {
        if w :| IsWalk(c, w) && w[0] == e && w[|w| - 1] == e {
          RanksGrow(c, rank, w);
          assert false;
        }
      }
    }
    if !HasLoop(c) {
      AncestorsRank(c);
    }
  }

  ghost predicate Stateless(c: Circuit) {
    forall e :: 0 <= e < c.Size() ==> !HasInternalState(c.types[e])
  }

  //
  // Termination
  //

  function MaxOf(values: seq<int>): (r: int)
    ensures r >= 0 && forall i :: 0 <= i < |values| ==> values[i] <= r
  {
    if values == [] then 0 else Max(values[0], MaxOf(values[1..]))
  }

  function MaxOfAll(rows: seq<seq<int>>): (r: int)
    ensures r >= 0 && forall e, i :: 0 <= e < |rows| && 0 <= i < |rows[e]| ==> rows[e][i] <= r
  {
    if rows == [] then 0 else Max(MaxOf(rows[0]), MaxOfAll(rows[1..]))
  }

  function MaxRank(rank: seq<nat>): (r: nat)
    ensures forall e :: 0 <= e < |rank| ==> rank[e] <= r
  {
    if rank == [] then 0 else if rank[0] < MaxRank(rank[1..]) then MaxRank(rank[1..]) else rank[0]
  }

  function MaxDelay(c: Circuit): int {
    MaxOfAll(c.outputDelays)
  }

  /** The time by which the effects of an event are over: every further connection adds at most one delay. */
  ghost function Deadline(c: Circuit, rank: seq<nat>, ev: Event): int
    requires ev.element < |rank|
  {
    ev.time + (MaxRank(rank) - rank[ev.element]) * MaxDelay(c)
  }

  ghost predicate Bounded(c: Circuit, rank: seq<nat>, queue: set<Event>, bound: int) {
    forall ev :: ev in queue ==> ev.element < |rank| && Deadline(c, rank, ev) <= bound
  }

  lemma MulMonotone(a: int, b: int, d: int)
    requires a <= b && 0 <= d
    ensures a * d <= b * d
  {
  }

  lemma LaterRank(t: int, delay: int, left: int, caused: int, d: int)
    requires delay <= d && 0 <= d && caused <= left - 1
    ensures t + delay + caused * d <= t + left * d
  {
    MulMonotone(caused, left - 1, d);
    assert (left - 1) * d + d == left * d;
  }

  /** An event that another one causes does not have a later deadline. */
  lemma CausedDeadline(c: Circuit, s: State, rank: seq<nat>, t: int, bound: int, ev: Event)
    requires Inv(c, s) && Ranked(c, rank) && Bounded(c, rank, s.queue, bound)
    requires ev in EmittedByAll(c, s, t, Elements(c))
    ensures ev.element < |rank| && Deadline(c, rank, ev) <= bound
  {
    var e, o := EmittedSource(c, s, t, ev);
    var k, v :| Event(t, e, k, v) in s.queue;
    CauseToEffect(c, rank, t, Output(e, o), ev.value, k, v);
  }

  lemma CauseToEffect(c: Circuit, rank: seq<nat>, t: int, o: Output, value: bool, k: nat, v: bool)
    requires Runnable(c) && Ranked(c, rank) && c.HasOutput(o) && c.Target(o).Some?
    ensures o.element < |rank| && OutputEvent(c, t, o, value).element < |rank|
    ensures Deadline(c, rank, OutputEvent(c, t, o, value)) <= Deadline(c, rank, Event(t, o.element, k, v))
  {
    var e := o.element;
    var ev := OutputEvent(c, t, o, value);
    assert rank[e] < rank[ev.element];
    assert c.outputDelays[e][o.id] <= MaxDelay(c);
    LaterRank(t, c.outputDelays[e][o.id], MaxRank(rank) - rank[e], MaxRank(rank) - rank[ev.element], MaxDelay(c));
  }

  lemma DeadlineIsLater(c: Circuit, rank: seq<nat>, ev: Event)
    requires ev.element < |rank|
    ensures ev.time <= Deadline(c, rank, ev)
  {
    MulMonotone(0, MaxRank(rank) - rank[ev.element], MaxDelay(c));
  }

  lemma AdvancedBounded(c: Circuit, s: State, rank: seq<nat>, bound: int)
    requires Inv(c, s) && Ranked(c, rank) && Bounded(c, rank, s.queue, bound) && s.queue != {}
    ensures Bounded(c, rank, Advanced(c, s).queue, bound)
    ensures Advanced(c, s).time <= bound
  {
    hide Deadline, EmittedByAll, TickOver, Ranked;
    var t := NextTime(s.queue);
    TickQueue(c, s, t);
    forall ev | ev in Advanced(c, s).queue ensures ev.element < |rank| && Deadline(c, rank, ev) <= bound {
      if ev in EmittedByAll(c, s, t, Elements(c)) {
        CausedDeadline(c, s, rank, t, bound, ev);
      }
    }
    var first :| first in s.queue && first.time == t;
    DeadlineIsLater(c, rank, first);
  }

  /** With all deadlines bounded, at most one time point per unit of time remains. */
  lemma {:induction false} BoundedSettles(c: Circuit, s: State, rank: seq<nat>, bound: int)
    requires Inv(c, s) && Ranked(c, rank) && Bounded(c, rank, s.queue, bound)
    ensures Settles(c, s)
    ensures s.queue != {} ==> Settled(c, s).time <= bound
    decreases bound - s.time
  {
    if s.queue == {} {
      assert Steps(c, s, None, 0).queue == {};
    } else {
      AdvancedBounded(c, s, rank, bound);
      var next := Advanced(c, s);
      BoundedSettles(c, next, rank, bound);
      assert next == Steps(c, s, None, 1);
      ResumeSettlesSame(c, s, 1);
      var n: nat :| Steps(c, next, None, n).queue == {};
      SettlesLater(c, s, 1, n);
      if next.queue == {} {
        assert Steps(c, next, None, 0).queue == {};
        SettledIs(c, next, 0);
      }
    }
  }

  lemma {:induction false} SomeBound(c: Circuit, rank: seq<nat>, queue: set<Event>) returns (bound: int)
    requires forall ev :: ev in queue ==> ev.element < |rank|
    ensures Bounded(c, rank, queue, bound)
    decreases queue
  {
    if queue == {} {
      bound := 0;
    } else {
      var ev :| ev in queue;
      var rest := SomeBound(c, rank, queue - {ev});
      bound := Max(rest, Deadline(c, rank, ev));
    }
  }

  /** A run without end time terminates, from every state, when the schematic has no loops. */
  lemma AcyclicSettles(c: Circuit, s: State)
    requires Inv(c, s) && Acyclic(c)
    ensures Settles(c, s)
  {
    var rank :| Ranked(c, rank);
    forall ev | ev in s.queue ensures ev.element < |rank| {
      assert c.HasInput(Input(ev.element, ev.input));
    }
    var bound := SomeBound(c, rank, s.queue);
    BoundedSettles(c, s, rank, bound);
  }

  //
  // The final values
  //

  /** Nothing computes a value for this input: it is unconnected, or its wire has no input. */
  ghost predicate IsSource(c: Circuit, i: Input)
    requires Runnable(c) && c.HasInput(i)
  {
    c.Driver(i) == None || (c.HasOutput(c.Driver(i).value) && !Computes(c, c.Driver(i).value.element))
  }

  /** The values of the inputs of an element by evaluating the circuit as one expression. */
  ghost function Evaluated(c: Circuit, rank: seq<nat>, s: State, e: nat): (r: seq<bool>)
    requires Runnable(c) && Shape(c, s) && Ranked(c, rank) && Stateless(c) && e < c.Size()
    ensures |r| == |c.inputConnections[e]|
    decreases rank[e]
  {
    seq(|c.inputConnections[e]|, k requires 0 <= k < |c.inputConnections[e]| =>
      var i := Input(e, k);
      assert c.HasInput(i);
      if IsSource(c, i) then LatestValue(s, i)
      else
        var o := c.Driver(i).value;
        assert c.HasOutput(o) && c.Target(o) == Some(i);
        OutputsFromInputs(Effective(c, o.element, Evaluated(c, rank, s, o.element)),
                          |c.outputConnections[o.element]|, c.types[o.element])[o.id])
  }

  /** Sources keep the value they are heading to. */
  lemma AdvancedKeepsSources(c: Circuit, s: State, i: Input)
    requires Inv(c, s) && s.queue != {} && c.HasInput(i) && IsSource(c, i)
    ensures LatestValue(Advanced(c, s), i) == LatestValue(s, i)
  {
    var t := NextTime(s.queue);
    TickKeepsInv(c, s, t);
    forall ev | ev in EmittedByAll(c, s, t, Elements(c)) ensures !For(ev, i) {
      var e, o := EmittedSource(c, s, t, ev);
    }
    LatestUnchanged(c, s, t, i);
  }

  lemma AdvancedKeepsConsistent(c: Circuit, s: State)
    requires Inv(c, s) && AllConsistent(c, s) && s.queue != {}
    ensures AllConsistent(c, Advanced(c, s))
  {
    forall o ensures Consistent(c, Advanced(c, s), o) {
      TickKeepsConsistent(c, s, NextTime(s.queue), o);
    }
  }

  /** The inputs that nothing computes are heading to the same values. */
  ghost predicate SameSources(c: Circuit, s: State, r: State)
    requires Inv(c, s) && Inv(c, r)
  {
    forall i :: c.HasInput(i) && IsSource(c, i) ==> LatestValue(r, i) == LatestValue(s, i)
  }

  lemma AdvancedSameSources(c: Circuit, s: State)
    requires Inv(c, s) && s.queue != {}
    ensures SameSources(c, s, Advanced(c, s))
  {
    forall i | c.HasInput(i) && IsSource(c, i) ensures LatestValue(Advanced(c, s), i) == LatestValue(s, i) {
      AdvancedKeepsSources(c, s, i);
    }
  }

  lemma SameSourcesReflexive(c: Circuit, s: State)
    requires Inv(c, s)
    ensures SameSources(c, s, s)
  {
  }

  lemma SameSourcesTransitive(c: Circuit, s: State, q: State, r: State)
    requires Inv(c, s) && Inv(c, q) && Inv(c, r) && SameSources(c, s, q) && SameSources(c, q, r)
    ensures SameSources(c, s, r)
  {
  }

  lemma {:induction false} StepsKeepConsistent(c: Circuit, s: State, n: nat)
    requires Inv(c, s) && AllConsistent(c, s)
    ensures AllConsistent(c, Steps(c, s, None, n))
    decreases n
  {
    hide Advanced, AllConsistent, Inv;
    if n > 0 && Due(s, None) {
      AdvancedKeepsConsistent(c, s);
      StepsKeepConsistent(c, Advanced(c, s), n - 1);
      StepsOnce(c, s, None, n);
    }
  }

  lemma {:induction false} StepsSameSources(c: Circuit, s: State, n: nat)
    requires Inv(c, s)
    ensures SameSources(c, s, Steps(c, s, None, n))
    decreases n
  {
    hide SameSources, Advanced, Inv;
    if n > 0 && Due(s, None) {
      AdvancedSameSources(c, s);
      StepsSameSources(c, Advanced(c, s), n - 1);
      StepsOnce(c, s, None, n);
      SameSourcesTransitive(c, s, Advanced(c, s), Steps(c, s, None, n));
    } else {
      SameSourcesReflexive(c, s);
    }
  }

  /** A consistent state with nothing pending holds the evaluated values. */
  lemma {:induction false} FixedPointIsEvaluated(c: Circuit, rank: seq<nat>, s: State, r: State, e: nat)
    requires Inv(c, s) && Inv(c, r) && Ranked(c, rank) && Stateless(c) && e < c.Size()
    requires r.queue == {} && AllConsistent(c, r) && SameSources(c, s, r)
    ensures r.inputs[e] == Evaluated(c, rank, s, e)
    decreases rank[e]
  {
    forall k | 0 <= k < |r.inputs[e]| ensures r.inputs[e][k] == Evaluated(c, rank, s, e)[k] {
      var i := Input(e, k);
      assert c.HasInput(i);
      assert LatestValue(r, i) == r.inputs[e][k];
      if !IsSource(c, i) {
        var o := c.Driver(i).value;
        assert c.HasOutput(o) && c.Target(o) == Some(i);
        FixedPointIsEvaluated(c, rank, s, r, o.element);
        assert Consistent(c, r, o);
      }
    }
  }

  /**
   A run without end time on an acyclic, stateless schematic terminates, and every input then has the
   value of the circuit evaluated as an expression over the unconnected inputs.
   */
  lemma RunReachesEvaluation(c: Circuit, rank: seq<nat>, s: State)
    requires Inv(c, s) && AllConsistent(c, s) && Ranked(c, rank) && Stateless(c)
    ensures Settles(c, s) && RunOut(c, s).queue == {}
    ensures forall e :: 0 <= e < c.Size() ==> RunOut(c, s).inputs[e] == Evaluated(c, rank, s, e)
  {
    AcyclicSettles(c, s);
    var n: nat :| Steps(c, s, None, n).queue == {};
    SettledIs(c, s, n);
    StepsKeepConsistent(c, s, n);
    StepsSameSources(c, s, n);
    forall e | 0 <= e < c.Size() ensures RunOut(c, s).inputs[e] == Evaluated(c, rank, s, e) {
      FixedPointIsEvaluated(c, rank, s, Settled(c, s), e);
    }
  }

  /** In particular from every state that a simulation of such a schematic can be in. */
  lemma ReachableRunReachesEvaluation(c: Circuit, rank: seq<nat>, s: State)
    requires Runnable(c) && NoWireStartsHigh(c) && Reaches(c, Start(c), s) && Ranked(c, rank) && Stateless(c)
    ensures Inv(c, s) && Settles(c, s) && RunOut(c, s).queue == {}
    ensures forall e :: 0 <= e < c.Size() ==> RunOut(c, s).inputs[e] == Evaluated(c, rank, s, e)
  {
    ReachesInv(c, Start(c), s);
    ReachableConsistent(c, s);
    RunReachesEvaluation(c, rank, s);
  }

  /** The same for all schematics of elements without state in which no element drives itself. */
  lemma LoopFreeRunReachesEvaluation(c: Circuit, s: State)
    requires Runnable(c) && NoWireStartsHigh(c) && Reaches(c, Start(c), s) && !HasLoop(c) && Stateless(c)
    ensures Inv(c, s) && Settles(c, s) && RunOut(c, s).queue == {}
    ensures Ranked(c, AncestorCounts(c))
    ensures forall e :: 0 <= e < c.Size() ==> RunOut(c, s).inputs[e] == Evaluated(c, AncestorCounts(c), s, e)
  {
    AncestorsRank(c);
    ReachableRunReachesEvaluation(c, AncestorCounts(c), s);
  }
}
