/**
 What flip-flops remember over whole runs, whatever else happens in between: time passes for other elements,
 other internal states are written, and unconnected inputs are set.
 */
module MemoryTraces {
  import opened ElementLogic
  import opened Schematics
  import opened SimulationModel
  import opened SimulationRuns
  import opened ElementLaws

  ghost predicate WritesTo(m: Move, e: nat) {
    m.WriteState? && m.element == e
  }

  /** The state of element e is not written by the moves from the first to before the last. */
  ghost predicate Unwritten(moves: seq<Move>, e: nat, first: nat, last: nat) {
    forall m :: first <= m < last && m < |moves| ==> !WritesTo(moves[m], e)
  }

  /** The clock of element e, its input 0, rises with the move that leads to state m. */
  ghost predicate RisesAt(c: Circuit, states: seq<State>, e: nat, m: nat) {
    0 < m < |states| && Rises(c, states[m - 1], states[m], e, 0)
  }

  ghost predicate FallsAt(c: Circuit, states: seq<State>, e: nat, m: nat) {
    0 < m < |states| && Falls(c, states[m - 1], states[m], e, 0)
  }

  /** Inputs a and b, which set and reset the element, stay off. */
  ghost predicate BothOff(c: Circuit, states: seq<State>, e: nat, a: nat, b: nat, first: nat, last: nat) {
    forall m :: first <= m <= last && m < |states| ==> !Appears(c, states[m], e, a) && !Appears(c, states[m], e, b)
  }

  /** The moves up to state k and the element e of the given type, whose state none of them writes after state j. */
  ghost predicate Watched(c: Circuit, states: seq<State>, moves: seq<Move>, e: nat, kind: ElementType, j: nat, k: nat) {
    && IsTrace(c, states, moves) && e < c.Size() && c.types[e] == kind
    && 0 < j <= k < |states| && Unwritten(moves, e, j - 1, k)
  }

  /** A move that does not write the state of the element lets time pass, or changes nothing about the element. */
  lemma OtherMove(c: Circuit, s: State, m: Move, r: State, e: nat)
    requires Inv(c, s) && Step(c, s, m, r) && e < c.Size() && !WritesTo(m, e) && !m.Advance?
    ensures |r.states| == |s.states| == c.Size() && r.states[e] == s.states[e]
    ensures forall k :: Appears(c, r, e, k) == Appears(c, s, e, k)
  {
    hide Inv, Step, Submits;
    InvSizes(c, s);
    if m.WriteState? {
      WriteLaw(c, s, m.element, m.index, m.state, r);
    } else {
      SetInputLaw(c, s, m.input, m.value, r);
    }
    InvSizes(c, r);
  }

  lemma FlipflopDStep(c: Circuit, s: State, m: Move, r: State, e: nat)
    requires Inv(c, s) && Step(c, s, m, r) && e < c.Size() && c.types[e] == FlipflopD && !WritesTo(m, e)
    requires !Appears(c, r, e, 2) && !Appears(c, r, e, 3)
    ensures |s.states| == |r.states| == c.Size()
    ensures r.states[e] == if Rises(c, s, r, e, 0) then [Appears(c, r, e, 1)] else s.states[e]
  {
    hide Inv, Step, Appears;
    InvSizes(c, s);
    if m.Advance? {
      FlipflopDLaw(c, s, m.time, r, e);
    } else {
      OtherMove(c, s, m, r, e);
    }
  }

  lemma FlipflopMSDStep(c: Circuit, s: State, m: Move, r: State, e: nat)
    requires Inv(c, s) && Step(c, s, m, r) && e < c.Size() && c.types[e] == FlipflopMSD && !WritesTo(m, e)
    requires !Appears(c, r, e, 2) && !Appears(c, r, e, 3)
    ensures |s.states| == |r.states| == c.Size() && |s.states[e]| == |r.states[e]| == 2
    ensures r.states[e][0] == if Rises(c, s, r, e, 0) then Appears(c, r, e, 1) else s.states[e][0]
    ensures r.states[e][1] == if Falls(c, s, r, e, 0) then s.states[e][0] else s.states[e][1]
  {
    hide Inv, Step, Appears;
    InvSizes(c, s);
    StateSizes(c, s);
    if m.Advance? {
      FlipflopMSDLaw(c, s, m.time, r, e);
    } else {
      OtherMove(c, s, m, r, e);
    }
  }

  lemma FlipflopJKStep(c: Circuit, s: State, m: Move, r: State, e: nat)
    requires Inv(c, s) && Step(c, s, m, r) && e < c.Size() && c.types[e] == FlipflopJK && !WritesTo(m, e)
    requires !Appears(c, r, e, 3) && !Appears(c, r, e, 4)
    ensures |s.states| == |r.states| == c.Size() && |s.states[e]| == |r.states[e]| == 2
    ensures Rises(c, s, r, e, 0) && Appears(c, r, e, 1) && Appears(c, r, e, 2) ==>
      r.states[e] == [!s.states[e][1], s.states[e][1]]
    ensures !Rises(c, s, r, e, 0) ==>
      r.states[e] == [s.states[e][0], if Falls(c, s, r, e, 0) then s.states[e][0] else s.states[e][1]]
  {
    hide Inv, Step, Appears;
    InvSizes(c, s);
    StateSizes(c, s);
    if m.Advance? {
      FlipflopJKLaw(c, s, m.time, r, e);
    } else {
      OtherMove(c, s, m, r, e);
    }
  }

  /** One move of a trace. */
  lemma TraceStep(c: Circuit, states: seq<State>, moves: seq<Move>, m: nat)
    requires IsTrace(c, states, moves) && 0 < m < |states|
    ensures Inv(c, states[m - 1]) && Step(c, states[m - 1], moves[m - 1], states[m])
  {
    hide Inv, Step;
    TraceKeepsInv(c, states, moves, m - 1);
  }

  /** As long as its clock does not rise again, a D flip-flop holds the data it saw at the rising edge. */
  lemma {:induction false} FlipflopDRemembers(c: Circuit, states: seq<State>, moves: seq<Move>, e: nat, j: nat, k: nat)
    requires Watched(c, states, moves, e, FlipflopD, j, k) && BothOff(c, states, e, 2, 3, j, k)
    requires RisesAt(c, states, e, j) && forall m :: j < m <= k ==> !RisesAt(c, states, e, m)
    ensures |states[k].states| == c.Size() && states[k].states[e] == [Appears(c, states[j], e, 1)]
    decreases k
  {
    hide Inv, Step, Appears;
    TraceStep(c, states, moves, k);
    FlipflopDStep(c, states[k - 1], moves[k - 1], states[k], e);
    if j < k {
      assert !RisesAt(c, states, e, k);
      FlipflopDRemembers(c, states, moves, e, j, k - 1);
    }
  }

  lemma {:induction false} MasterRemembers(c: Circuit, states: seq<State>, moves: seq<Move>, e: nat, j: nat, k: nat)
    requires Watched(c, states, moves, e, FlipflopMSD, j, k) && BothOff(c, states, e, 2, 3, j, k)
    requires RisesAt(c, states, e, j) && forall m :: j < m <= k ==> !RisesAt(c, states, e, m)
    ensures |states[k].states| == c.Size() && |states[k].states[e]| == 2
    ensures states[k].states[e][0] == Appears(c, states[j], e, 1)
    decreases k
  {
    hide Inv, Step, Appears;
    TraceStep(c, states, moves, k);
    FlipflopMSDStep(c, states[k - 1], moves[k - 1], states[k], e);
    if j < k {
      assert !RisesAt(c, states, e, k);
      MasterRemembers(c, states, moves, e, j, k - 1);
    }
  }

  /** A master-slave flip-flop shows, after the falling edge, the data it saw at the rising edge before. */
  lemma FlipflopMSDShows(c: Circuit, states: seq<State>, moves: seq<Move>, e: nat, j: nat, k: nat)
    requires Watched(c, states, moves, e, FlipflopMSD, j, k) && BothOff(c, states, e, 2, 3, j, k)
    requires RisesAt(c, states, e, j) && forall m :: j < m <= k ==> !RisesAt(c, states, e, m)
    requires FallsAt(c, states, e, k)
    ensures |states[k].states| == c.Size()
    ensures states[k].states[e] == [Appears(c, states[j], e, 1), Appears(c, states[j], e, 1)]
  {
    hide Inv, Step, Appears;
    if j < k {
      MasterRemembers(c, states, moves, e, j, k);
      MasterRemembers(c, states, moves, e, j, k - 1);
      TraceStep(c, states, moves, k);
      FlipflopMSDStep(c, states[k - 1], moves[k - 1], states[k], e);
    }
  }

  lemma {:induction false} ToggledMaster(c: Circuit, states: seq<State>, moves: seq<Move>, e: nat, j: nat, k: nat)
    requires Watched(c, states, moves, e, FlipflopJK, j, k) && BothOff(c, states, e, 3, 4, j, k)
    requires RisesAt(c, states, e, j) && Appears(c, states[j], e, 1) && Appears(c, states[j], e, 2)
    requires forall m :: j < m <= k ==> !RisesAt(c, states, e, m) && !FallsAt(c, states, e, m)
    ensures |states[j - 1].states| == |states[k].states| == c.Size()
    ensures |states[j - 1].states[e]| == |states[k].states[e]| == 2
    ensures states[k].states[e] == [!states[j - 1].states[e][1], states[j - 1].states[e][1]]
    decreases k
  {
    hide Inv, Step, Appears;
    TraceStep(c, states, moves, k);
    FlipflopJKStep(c, states[k - 1], moves[k - 1], states[k], e);
    if j < k {
      assert !RisesAt(c, states, e, k) && !FallsAt(c, states, e, k);
      ToggledMaster(c, states, moves, e, j, k - 1);
    }
  }

  /** A clock cycle of a JK flip-flop that saw both J and K on at the rising edge inverts what it drives. */
  lemma FlipflopJKToggles(c: Circuit, states: seq<State>, moves: seq<Move>, e: nat, j: nat, k: nat)
    requires Watched(c, states, moves, e, FlipflopJK, j, k) && BothOff(c, states, e, 3, 4, j, k)
    requires RisesAt(c, states, e, j) && Appears(c, states[j], e, 1) && Appears(c, states[j], e, 2)
    requires forall m :: j < m < k ==> !RisesAt(c, states, e, m) && !FallsAt(c, states, e, m)
    requires FallsAt(c, states, e, k)
    ensures |states[j - 1].states| == |states[k].states| == c.Size()
    ensures |states[j - 1].states[e]| == |states[k].states[e]| == 2
    ensures states[k].states[e][1] == !states[j - 1].states[e][1]
  {
    hide Inv, Step, Appears;
    if j < k {
      ToggledMaster(c, states, moves, e, j, k - 1);
      TraceStep(c, states, moves, k);
      FlipflopJKStep(c, states[k - 1], moves[k - 1], states[k], e);
    }
  }
}
