/**
 The recorded history of the first input of an element is a lossless trace of its past: although old entries
 are pruned, every value within the history length can be read back.
 */
module HistoryTrace {
  import opened Wrappers
  import opened ElementLogic
  import opened Schematics
  import opened SimulationModel
  import opened SimulationRuns
  import opened SimulationStart

  /** The first index, from the given one on, whose entry is later than t. */
  function FirstLater(history: seq<int>, from: nat, t: int): (r: nat)
    requires from <= |history|
    ensures from <= r <= |history|
    decreases |history| - from
  {
    if from < |history| && history[from] <= t then FirstLater(history, from + 1, t) else from
  }

  ghost predicate HasHistory(c: Circuit, e: nat)
    requires Runnable(c)
  {
    e < c.Size() && c.historyLengths[e] > 0 && |c.inputConnections[e]| > 0
  }

  /** The current value of the first input, seen through its inverter. */
  ghost function FirstInput(c: Circuit, s: State, e: nat): bool
    requires Runnable(c) && Shape(c, s) && HasHistory(c, e)
  {
    s.inputs[e][0] != c.inputInverters[e][0]
  }

  /** The value that the history view of a state reports for time t. */
  ghost function ViewedValue(c: Circuit, s: State, e: nat, t: int): bool
    requires Runnable(c) && Shape(c, s) && HasHistory(c, e) && t <= s.time
  {
    var history := s.histories[e];
    var minIndex := FirstLater(history, 0, s.time - c.historyLengths[e]);
    ((|history| - FirstLater(history, minIndex, t)) % 2 == 1) != FirstInput(c, s, e)
  }

  ghost predicate AllShaped(c: Circuit, states: seq<State>)
    requires Runnable(c)
  {
    forall k :: 0 <= k < |states| ==> Shape(c, states[k])
  }

  /** The value the input had at time t: that of the last visited state not after t. */
  ghost function PastValue(c: Circuit, states: seq<State>, e: nat, t: int): bool
    requires Runnable(c) && HasHistory(c, e) && states != [] && AllShaped(c, states)
    decreases |states|
  {
    var last := |states| - 1;
    assert Shape(c, states[last]);
    if last == 0 || states[last].time <= t then FirstInput(c, states[last], e)
    else PastValue(c, states[..last], e, t)
  }

  function FlipBy(value: bool, times: nat): bool {
    if times == 0 then value else !FlipBy(value, times - 1)
  }

  lemma {:induction false} FlipByParity(value: bool, times: nat)
    ensures FlipBy(value, times) == ((times % 2 == 1) != value)
  {
    if times > 0 {
      FlipByParity(value, times - 1);
    }
  }

  lemma {:induction false} FlipByOther(value: bool, times: nat)
    ensures FlipBy(!value, times) == !FlipBy(value, times)
  {
    if times > 0 {
      FlipByOther(value, times - 1);
    }
  }

  function CountLater(history: seq<int>, t: int): nat {
    if history == [] then 0
    else CountLater(history[..|history| - 1], t) + (if history[|history| - 1] > t then 1 else 0)
  }

  lemma {:induction false} CountLaterConcat(a: seq<int>, b: seq<int>, t: int)
    ensures CountLater(a + b, t) == CountLater(a, t) + CountLater(b, t)
  {
    if b == [] {
      assert a + b == a;
    } else {
      assert (a + b)[..|a + b| - 1] == a + b[..|b| - 1];
      CountLaterConcat(a, b[..|b| - 1], t);
    }
  }

  lemma {:induction false} CountLaterNone(history: seq<int>, t: int)
    requires forall j :: 0 <= j < |history| ==> history[j] <= t
    ensures CountLater(history, t) == 0
  {
    if history != [] {
      CountLaterNone(history[..|history| - 1], t);
    }
  }

  lemma {:induction false} CountLaterAll(history: seq<int>, t: int)
    requires forall j :: 0 <= j < |history| ==> history[j] > t
    ensures CountLater(history, t) == |history|
  {
    if history != [] {
      CountLaterAll(history[..|history| - 1], t);
    }
  }

  /** Searching the sorted history finds the entries that are later than t. */
  lemma {:induction false} FirstLaterCounts(history: seq<int>, from: nat, t: int)
    requires Ascending(history) && from <= |history|
    requires forall j :: 0 <= j < from ==> history[j] <= t
    ensures |history| - FirstLater(history, from, t) == CountLater(history, t)
    decreases |history| - from
  {
    if from < |history| && history[from] <= t {
      FirstLaterCounts(history, from + 1, t);
    } else {
      CountLaterNone(history[..from], t);
      CountLaterAll(history[from..], t);
      CountLaterConcat(history[..from], history[from..], t);
      assert history == history[..from] + history[from..];
    }
  }

  lemma {:induction false} FirstLaterSkips(history: seq<int>, from: nat, t: int)
    requires from <= |history|
    ensures forall j :: from <= j < FirstLater(history, from, t) ==> history[j] <= t
    decreases |history| - from
  {
    if from < |history| && history[from] <= t {
      FirstLaterSkips(history, from + 1, t);
    }
  }

  /** Pruning removes no entry that is later than t. */
  lemma ShrinkKeepsCount(history: seq<int>, min: int, t: int)
    requires min <= t + 1
    ensures CountLater(Shrink(history, min), t) == CountLater(history, t)
  {
    ShrinkKeeps(history, min);
    var cut := |history| - |Shrink(history, min)|;
    assert history == history[..cut] + history[cut..];
    CountLaterConcat(history[..cut], history[cut..], t);
    CountLaterNone(history[..cut], t);
  }

  /** The value at time t, seen from the current value: flipped once for every later entry. */
  ghost function Flipped(c: Circuit, s: State, e: nat, t: int): bool
    requires Runnable(c) && Shape(c, s) && HasHistory(c, e)
  {
    FlipBy(FirstInput(c, s, e), CountLater(s.histories[e], t))
  }

  lemma FlippedNow(c: Circuit, s: State, e: nat, t: int)
    requires Inv(c, s) && HasHistory(c, e) && s.time <= t
    ensures Flipped(c, s, e, t) == FirstInput(c, s, e)
  {
    assert HistoryFits(s.histories[e], c.historyLengths[e], s.time, s.largestHistoryEvent);
    CountLaterNone(s.histories[e], t);
  }

  lemma CountLaterAppended(history: seq<int>, x: int, t: int)
    requires t < x
    ensures CountLater(history + [x], t) == CountLater(history, t) + 1
  {
    assert (history + [x])[..|history + [x]| - 1] == history;
  }

  /** A recorded change flips the value and adds one later entry; without a change neither happens. */
  lemma RecordFlips(before: seq<int>, after: seq<int>, was: bool, is_: bool, min: int, t1: int, t: int)
    requires min <= t < t1
    requires after == if was != is_ then Shrink(before, min) + [t1] else before
    ensures FlipBy(is_, CountLater(after, t)) == FlipBy(was, CountLater(before, t))
  {
    if was != is_ {
      ShrinkKeepsCount(before, min, t);
      CountLaterAppended(Shrink(before, min), t1, t);
      FlipByOther(was, CountLater(before, t));
    }
  }

  lemma RecordedIffChanged(c: Circuit, s: State, t: int, e: nat)
    requires Runnable(c) && Shape(c, s) && HasHistory(c, e)
    ensures HistoryAfter(c, s, t, e) ==
      if s.inputs[e][0] != InputsAfter(s, t, e)[0] then Shrink(s.histories[e], t - c.historyLengths[e]) + [t]
      else s.histories[e]
  {
    hide Shrink;
  }

  lemma AfterFlips(c: Circuit, s: State, t1: int, e: nat, t: int)
    requires Runnable(c) && Shape(c, s) && HasHistory(c, e)
    requires t1 - c.historyLengths[e] <= t < t1
    ensures FlipBy(InputsAfter(s, t1, e)[0] != c.inputInverters[e][0], CountLater(HistoryAfter(c, s, t1, e), t))
         == Flipped(c, s, e, t)
  {
    RecordedIffChanged(c, s, t1, e);
    var inverted := c.inputInverters[e][0];
    RecordFlips(s.histories[e], HistoryAfter(c, s, t1, e), s.inputs[e][0] != inverted,
                InputsAfter(s, t1, e)[0] != inverted, t1 - c.historyLengths[e], t1, t);
  }

  lemma TickFlips(c: Circuit, s: State, t1: int, e: nat, t: int)
    requires Runnable(c) && Shape(c, s) && Shape(c, Tick(c, s, t1)) && HasHistory(c, e)
    requires t1 - c.historyLengths[e] <= t < t1
    ensures Flipped(c, Tick(c, s, t1), e, t) == Flipped(c, s, e, t)
  {
    TickAt(c, s, t1, e);
    AfterFlips(c, s, t1, e, t);
    hide Tick, InputsAfter, HistoryAfter, CountLater, FlipBy;
  }

  /** Looking back from after a move is looking back from before it. */
  lemma MoveFlips(c: Circuit, s: State, m: Move, e: nat, t: int)
    requires Inv(c, s) && Enabled(c, s, m) && HasHistory(c, e) && Inv(c, Next(c, s, m))
    requires t < Next(c, s, m).time && Next(c, s, m).time - c.historyLengths[e] <= t
    ensures Flipped(c, Next(c, s, m), e, t) == Flipped(c, s, e, t)
  {
    match m
    case Advance(t1) => TickFlips(c, s, t1, e, t);
    case WriteState(_, _, _) =>
    case SetInput(_, _) =>
  }

  lemma PrefixIsTrace(c: Circuit, states: seq<State>, moves: seq<Move>)
    requires IsTrace(c, states, moves) && moves != []
    ensures IsTrace(c, states[..|moves|], moves[..|moves| - 1])
    ensures Step(c, states[|moves| - 1], moves[|moves| - 1], states[|moves|])
  {
    forall k | 0 <= k < |moves| - 1
      ensures Step(c, states[..|moves|][k], moves[..|moves| - 1][k], states[..|moves|][k + 1])
    {
      assert Step(c, states[k], moves[k], states[k + 1]);
    }
  }

  lemma PastOfLast(c: Circuit, states: seq<State>, e: nat, t: int)
    requires Runnable(c) && HasHistory(c, e) && states != [] && AllShaped(c, states)
    requires states[|states| - 1].time <= t
    ensures PastValue(c, states, e, t) == FirstInput(c, states[|states| - 1], e)
  {
  }

  lemma PastOfEarlier(c: Circuit, states: seq<State>, e: nat, t: int)
    requires Runnable(c) && HasHistory(c, e) && |states| > 1 && AllShaped(c, states)
    requires t < states[|states| - 1].time
    ensures AllShaped(c, states[..|states| - 1])
    ensures PastValue(c, states, e, t) == PastValue(c, states[..|states| - 1], e, t)
  {
  }

  lemma {:induction false} FlippedIsPast(c: Circuit, states: seq<State>, moves: seq<Move>, e: nat, t: int)
    requires Runnable(c) && IsTrace(c, states, moves) && HasHistory(c, e) && AllShaped(c, states)
    requires states[0].histories[e] == []
    requires states[0].time <= t && states[|moves|].time - c.historyLengths[e] <= t
    ensures Flipped(c, states[|moves|], e, t) == PastValue(c, states, e, t)
    decreases |moves|
  {
    var n := |moves|;
    TraceKeepsInv(c, states, moves, n);
    if states[n].time <= t {
      FlippedNow(c, states[n], e, t);
      PastOfLast(c, states, e, t);
    } else {
      assert n > 0;
      TraceKeepsInv(c, states, moves, n - 1);
      PrefixIsTrace(c, states, moves);
      MoveFlips(c, states[n - 1], moves[n - 1], e, t);
      PastOfEarlier(c, states, e, t);
      hide PastValue, Flipped, Inv, Shape, Step;
      FlippedIsPast(c, states[..n], moves[..n - 1], e, t);
    }
  }

  /** Skipping the entries outside of the history length first does not change what is found. */
  lemma ViewedIsFlipped(c: Circuit, s: State, e: nat, t: int)
    requires Inv(c, s) && HasHistory(c, e) && s.time - c.historyLengths[e] <= t <= s.time
    ensures ViewedValue(c, s, e, t) == Flipped(c, s, e, t)
  {
    assert HistoryFits(s.histories[e], c.historyLengths[e], s.time, s.largestHistoryEvent);
    var minIndex := FirstLater(s.histories[e], 0, s.time - c.historyLengths[e]);
    FirstLaterSkips(s.histories[e], 0, s.time - c.historyLengths[e]);
    FirstLaterCounts(s.histories[e], minIndex, t);
    FlipByParity(FirstInput(c, s, e), CountLater(s.histories[e], t));
  }

  /**
   In every run from construction, the history view reports for every time within the history length the
   value that the input actually had then.
   */
  lemma HistoryIsLossless(c: Circuit, states: seq<State>, moves: seq<Move>, e: nat, t: int)
    requires Runnable(c) && IsTrace(c, states, moves) && states[0] == Start(c) && HasHistory(c, e)
    requires states[|moves|].time - c.historyLengths[e] <= t <= states[|moves|].time && 0 <= t
    ensures AllShaped(c, states)
    ensures ViewedValue(c, states[|moves|], e, t) == PastValue(c, states, e, t)
  {
    forall k | 0 <= k < |states| ensures Inv(c, states[k]) {
      TraceKeepsInv(c, states, moves, k);
    }
    FlippedIsPast(c, states, moves, e, t);
    ViewedIsFlipped(c, states[|moves|], e, t);
  }

  ghost predicate IsFinished(s: State) {
    s.queue == {} && s.time >= s.largestHistoryEvent
  }

  /** When the simulation is finished, no change is so recent that it would still be visible on a wire. */
  lemma FinishedHistoryIsOld(c: Circuit, s: State, e: nat, j: nat)
    requires Inv(c, s) && IsFinished(s) && e < c.Size() && j < |s.histories[e]|
    ensures s.histories[e][j] <= s.time - c.historyLengths[e]
  {
    assert HistoryFits(s.histories[e], c.historyLengths[e], s.time, s.largestHistoryEvent);
  }
}
