/**
 Clock generators time their phases with two outputs that are looped back to their own inputs. In every run a
 generator whose loops are connected alternates between phases of exactly the two delays.
 */
module ClockGenerators {
  import opened Wrappers
  import opened ElementLogic
  import opened Schematics
  import opened SimulationModel
  import opened SimulationRuns
  import opened SimulationStart
  import opened ElementLaws
  import opened MemoryTraces

  /** The generator drives its inputs 1 and 2 itself, without inverters. */
  ghost predicate IsLooped(c: Circuit, e: nat) {
    && Runnable(c) && e < c.Size() && c.types[e] == ClockGenerator
    && c.outputConnections[e][1] == Some(Input(e, 1)) && c.outputConnections[e][2] == Some(Input(e, 2))
    && !c.inputInverters[e][1] && !c.inputInverters[e][2]
  }

  ghost predicate IsLoopEvent(ev: Event, e: nat) {
    ev.element == e && (ev.input == 1 || ev.input == 2)
  }

  ghost predicate NoLoopEvent(s: State, e: nat) {
    forall ev :: ev in s.queue ==> !IsLoopEvent(ev, e)
  }

  ghost predicate OnlyLoopEvent(s: State, e: nat, event: Event) {
    event in s.queue && forall ev :: ev in s.queue && IsLoopEvent(ev, e) ==> ev == event
  }

  ghost predicate HasRows(s: State, e: nat) {
    e < |s.inputs| && e < |s.states| && |s.inputs[e]| == 3 && |s.states[e]| == 4
  }

  /** The generator stands still: it drives off, and its loops are settled. */
  ghost predicate Stands(s: State, e: nat) {
    && HasRows(s, e) && !s.states[e][0] && !s.states[e][1]
    && s.inputs[e][1] == s.states[e][2] && s.inputs[e][2] == s.states[e][3] && NoLoopEvent(s, e)
  }

  /** The generator drives on, and the event that ends the phase is the only one in its loops. */
  ghost predicate OnUntil(s: State, e: nat, end: int) {
    && HasRows(s, e) && s.states[e][0] && s.states[e][1]
    && s.inputs[e][1] != s.states[e][2] && s.inputs[e][2] == s.states[e][3]
    && OnlyLoopEvent(s, e, Event(end, e, 1, s.states[e][2]))
  }

  ghost predicate OffUntil(s: State, e: nat, end: int) {
    && HasRows(s, e) && s.states[e][0] && !s.states[e][1]
    && s.inputs[e][1] == s.states[e][2] && s.inputs[e][2] != s.states[e][3]
    && OnlyLoopEvent(s, e, Event(end, e, 2, s.states[e][3]))
  }

  /** How long the generator drives on and off in each period. */
  ghost function TimeOn(c: Circuit, e: nat): (t: int)
    requires IsLooped(c, e)
    ensures t > 0
  {
    c.outputDelays[e][1]
  }

  ghost function TimeOff(c: Circuit, e: nat): (t: int)
    requires IsLooped(c, e)
    ensures t > 0
  {
    c.outputDelays[e][2]
  }

  //
  // One move
  //

  lemma GeneratorRows(c: Circuit, s: State, e: nat)
    requires Inv(c, s) && IsLooped(c, e)
    ensures HasRows(s, e) && Computes(c, e) && |c.outputConnections[e]| == |c.outputDelays[e]| == 3
    ensures c.HasInput(Input(e, 0)) && c.HasInput(Input(e, 1)) && c.HasInput(Input(e, 2))
    ensures c.HasOutput(Output(e, 1)) && c.HasOutput(Output(e, 2))
    ensures Drives(c, s, e, ClockGenerator)
    ensures Appears(c, s, e, 1) == s.inputs[e][1] && Appears(c, s, e, 2) == s.inputs[e][2]
  {
    hide Unique, InWindow, HistoriesFit;
  }

  lemma OnlyOwnOutput(c: Circuit, e: nat, k: nat, o: Output)
    requires IsLooped(c, e) && (k == 1 || k == 2)
    requires c.HasOutput(o) && c.outputConnections[o.element][o.id] == Some(Input(e, k))
    ensures o == Output(e, k)
  {
    assert c.HasOutput(Output(e, k)) && c.Target(Output(e, k)) == Some(Input(e, k));
    assert c.Target(o) == Some(Input(e, k));
  }

  /** What output k of the generator drives is the bit of the state after it. */
  lemma LoopDriven(c: Circuit, s: State, e: nat, k: nat)
    requires Inv(c, s) && IsLooped(c, e) && (k == 1 || k == 2)
    ensures HasRows(s, e) && Computes(c, e) && k < |DrivenValues(c, s, e)|
    ensures e < |c.outputDelays| && k < |c.outputDelays[e]|
    ensures DrivenValues(c, s, e)[k] == s.states[e][k + 1]
    ensures c.HasOutput(Output(e, k)) && c.outputConnections[e][k] == Some(Input(e, k))
  {
    hide Inv, DrivenValues, Computes, Drives;
    GeneratorRows(c, s, e);
    OutputsShowState(c, s, e, ClockGenerator);
  }

  /** The bit that output k shows toggles from s to r, and ev brings it back to input k after the delay of the output. */
  ghost predicate IsToggle(c: Circuit, s: State, r: State, e: nat, k: nat, ev: Event) {
    && HasRows(s, e) && HasRows(r, e) && e < |c.outputDelays| && k < |c.outputDelays[e]| && k < 3
    && s.states[e][k + 1] != r.states[e][k + 1]
    && ev == Event(r.time + c.outputDelays[e][k], e, k, r.states[e][k + 1])
  }

  lemma LoopSubmits(c: Circuit, s: State, r: State, e: nat, k: nat, ev: Event)
    requires Inv(c, s) && Inv(c, r) && IsLooped(c, e) && (k == 1 || k == 2) && For(ev, Input(e, k))
    ensures (exists o :: Submits(c, s, r, o, ev)) <==> IsToggle(c, s, r, e, k, ev)
  {
    hide Inv, IsLooped, DrivenValues, Computes;
    LoopDriven(c, s, e, k);
    LoopDriven(c, r, e, k);
    assert Input(ev.element, ev.input) == Input(e, k);
    if o :| Submits(c, s, r, o, ev) {
      OnlyOwnOutput(c, e, k, o);
    }
    if IsToggle(c, s, r, e, k, ev) {
      assert Submits(c, s, r, Output(e, k), ev);
    }
  }

  /** In loop k only the event of a toggled output is new. */
  lemma LoopQueue(c: Circuit, s: State, t: int, r: State, e: nat, k: nat)
    requires Inv(c, s) && Step(c, s, Advance(t), r) && IsLooped(c, e) && (k == 1 || k == 2)
    ensures forall ev :: For(ev, Input(e, k)) ==>
      (ev in r.queue <==> (ev in s.queue && ev.time != t) || IsToggle(c, s, r, e, k, ev))
  {
    hide Inv, Step, IsLooped, Submits, IsToggle;
    AdvanceSubmits(c, s, t, r);
    forall ev | For(ev, Input(e, k)) ensures (exists o :: Submits(c, s, r, o, ev)) <==> IsToggle(c, s, r, e, k, ev) {
      LoopSubmits(c, s, r, e, k, ev);
    }
  }

  /** What the input of loop k holds after a time point: the value of its event, or what it held before. */
  lemma LoopInput(c: Circuit, s: State, t: int, r: State, e: nat, k: nat)
    requires Inv(c, s) && Step(c, s, Advance(t), r) && IsLooped(c, e) && (k == 1 || k == 2)
    ensures HasRows(s, e) && HasRows(r, e)
    ensures forall ev :: ev in s.queue && For(ev, Input(e, k)) && ev.time == t ==> r.inputs[e][k] == ev.value
    ensures (forall ev :: ev in s.queue && For(ev, Input(e, k)) ==> ev.time != t) ==> r.inputs[e][k] == s.inputs[e][k]
  {
    hide Inv, Step, IsLooped;
    AdvanceSetsInputs(c, s, t, r);
    LoopDriven(c, s, e, k);
    LoopDriven(c, r, e, k);
    GeneratorRows(c, s, e);
  }

  /** The rows of the generator at a time point, in terms of its stored values. */
  lemma GeneratorAdvances(c: Circuit, s: State, t: int, r: State, e: nat)
    requires Inv(c, s) && Step(c, s, Advance(t), r) && IsLooped(c, e)
    ensures HasRows(s, e) && HasRows(r, e)
    ensures var was, now := s.states[e], r.states[e];
      var enabled, onOver, offOver := Appears(c, r, e, 0), s.inputs[e][1] != r.inputs[e][1], s.inputs[e][2] != r.inputs[e][2];
      && (IsAddressed(s, t, e) && enabled && (!was[0] || (!onOver && offOver)) ==> now == [true, true, !was[2], was[3]])
      && (was[0] && onOver ==> now == [true, false, was[2], !was[3]])
      && (was[0] && !onOver && offOver && !enabled ==> now == [false, was[1], was[2], was[3]])
      && (was[0] && !onOver && !offOver ==> now == was)
      && (!was[0] && !enabled ==> now == was)
    ensures !IsAddressed(s, t, e) ==> r.states[e] == s.states[e] && r.inputs[e] == s.inputs[e]
  {
    hide Inv, Step, Appears, IsAddressed, IsLooped, Tick, Drives, Computes, Advances;
    AdvanceIsTick(c, s, t, r);
    GeneratorRows(c, s, e);
    GeneratorRows(c, r, e);
    IsGenerator(c, s, t, r, e);
    ClockGeneratorLaw(c, s, t, r, e);
    if !IsAddressed(s, t, e) {
      NotAddressedRow(c, s, t, r, e);
    }
  }

  lemma IsGenerator(c: Circuit, s: State, t: int, r: State, e: nat)
    requires Inv(c, s) && Step(c, s, Advance(t), r) && IsLooped(c, e)
    ensures e < c.Size() && Advances(c, s, t, r, e, ClockGenerator)
  {
    hide Inv, Step, Runnable;
  }

  lemma NotAddressedRow(c: Circuit, s: State, t: int, r: State, e: nat)
    requires Inv(c, s) && Step(c, s, Advance(t), r) && e < c.Size() && !IsAddressed(s, t, e)
    ensures e < |r.inputs| == |s.inputs| && r.inputs[e] == s.inputs[e]
  {
    hide Inv, Step, Tick, InputsAfter;
    AdvanceIsTick(c, s, t, r);
    InvSizes(c, s);
    AddressedIsActive(s, t, e);
    TickAt(c, s, t, e);
    IdleRow(s, t, e);
  }

  /** What both loops hold after a time point. */
  lemma LoopsAfter(c: Circuit, s: State, t: int, r: State, e: nat)
    requires Inv(c, s) && Step(c, s, Advance(t), r) && IsLooped(c, e)
    ensures CanTick(s, t) && r.time == t
    ensures forall ev :: IsLoopEvent(ev, e) ==>
      (ev in r.queue <==>
        (ev in s.queue && ev.time != t) || IsToggle(c, s, r, e, 1, ev) || IsToggle(c, s, r, e, 2, ev))
  {
    hide Inv, Step, IsLooped, CanTick;
    AdvanceIsTick(c, s, t, r);
    LoopQueue(c, s, t, r, e, 1);
    LoopQueue(c, s, t, r, e, 2);
    forall ev | IsLoopEvent(ev, e)
      ensures ev in r.queue <==>
        (ev in s.queue && ev.time != t) || IsToggle(c, s, r, e, 1, ev) || IsToggle(c, s, r, e, 2, ev)
    {
      assert For(ev, Input(e, 1)) || For(ev, Input(e, 2));
    }
  }

  /** A generator that stands still starts a phase when it is enabled. */
  lemma StandingAdvances(c: Circuit, s: State, t: int, r: State, e: nat)
    requires Inv(c, s) && Step(c, s, Advance(t), r) && IsLooped(c, e) && Stands(s, e)
    ensures if IsAddressed(s, t, e) && Appears(c, r, e, 0) then OnUntil(r, e, t + TimeOn(c, e)) else Stands(r, e)
  {
    hide Inv, Step, IsLooped, Appears, IsAddressed, CanTick;
    GeneratorAdvances(c, s, t, r, e);
    LoopsAfter(c, s, t, r, e);
    LoopInput(c, s, t, r, e, 1);
    LoopInput(c, s, t, r, e, 2);
    LoopDelays(c, e);
    assert r.inputs[e][1] == s.inputs[e][1] && r.inputs[e][2] == s.inputs[e][2];
    if IsAddressed(s, t, e) && Appears(c, r, e, 0) {
      assert r.states[e] == [true, true, !s.states[e][2], s.states[e][3]];
      assert IsToggle(c, s, r, e, 1, Event(t + TimeOn(c, e), e, 1, r.states[e][2]));
    }
  }

  lemma LoopDelays(c: Circuit, e: nat)
    requires IsLooped(c, e)
    ensures e < |c.outputDelays| && |c.outputDelays[e]| == 3
    ensures TimeOn(c, e) == c.outputDelays[e][1] && TimeOff(c, e) == c.outputDelays[e][2]
  {
  }

  /** An on phase ends exactly at its end, and an off phase follows. */
  lemma OnAdvances(c: Circuit, s: State, t: int, r: State, e: nat, end: int)
    requires Inv(c, s) && Step(c, s, Advance(t), r) && IsLooped(c, e) && OnUntil(s, e, end)
    ensures t <= end
    ensures if t == end then OffUntil(r, e, t + TimeOff(c, e)) else OnUntil(r, e, end)
  {
    hide Inv, Step, IsLooped, Appears, IsAddressed;
    GeneratorAdvances(c, s, t, r, e);
    LoopsAfter(c, s, t, r, e);
    LoopInput(c, s, t, r, e, 1);
    LoopInput(c, s, t, r, e, 2);
    LoopDelays(c, e);
    var event := Event(end, e, 1, s.states[e][2]);
    assert For(event, Input(e, 1)) && IsLoopEvent(event, e);
    assert r.inputs[e][2] == s.inputs[e][2];
    if t == end {
      assert r.inputs[e][1] == s.states[e][2];
      assert IsToggle(c, s, r, e, 2, Event(t + TimeOff(c, e), e, 2, r.states[e][3]));
    } else {
      assert r.inputs[e][1] == s.inputs[e][1];
    }
  }

  /** An off phase ends exactly at its end; the generator then switches on again, or stops where it is disabled. */
  lemma OffAdvances(c: Circuit, s: State, t: int, r: State, e: nat, end: int)
    requires Inv(c, s) && Step(c, s, Advance(t), r) && IsLooped(c, e) && OffUntil(s, e, end)
    ensures t <= end
    ensures if t != end then OffUntil(r, e, end)
            else if Appears(c, r, e, 0) then OnUntil(r, e, t + TimeOn(c, e)) else Stands(r, e)
  {
    hide Inv, Step, IsLooped, Appears;
    GeneratorAdvances(c, s, t, r, e);
    LoopsAfter(c, s, t, r, e);
    LoopInput(c, s, t, r, e, 1);
    LoopInput(c, s, t, r, e, 2);
    LoopDelays(c, e);
    var event := Event(end, e, 2, s.states[e][3]);
    assert For(event, Input(e, 2)) && IsLoopEvent(event, e);
    assert r.inputs[e][1] == s.inputs[e][1];
    if t == end {
      assert r.inputs[e][2] == s.states[e][3] && IsAddressed(s, t, e);
      if Appears(c, r, e, 0) {
        assert IsToggle(c, s, r, e, 1, Event(t + TimeOn(c, e), e, 1, r.states[e][2]));
      }
    } else {
      assert r.inputs[e][2] == s.inputs[e][2];
    }
  }

  /** Moves that let no time pass and do not write to the generator leave its phase alone. */
  lemma OtherMoveKeepsPhase(c: Circuit, s: State, m: Move, r: State, e: nat)
    requires Inv(c, s) && Step(c, s, m, r) && IsLooped(c, e) && !WritesTo(m, e) && !m.Advance?
    ensures r.time == s.time && HasRows(s, e) && HasRows(r, e) && r.states[e] == s.states[e] && r.inputs[e] == s.inputs[e]
    ensures Appears(c, r, e, 0) == Appears(c, s, e, 0)
    ensures forall ev :: IsLoopEvent(ev, e) ==> (ev in r.queue <==> ev in s.queue)
  {
    hide Inv, Step, Submits, IsLooped;
    GeneratorRows(c, s, e);
    IsElement(c, e);
    OtherMove(c, s, m, r, e);
    if m.WriteState? {
      WriteLaw(c, s, m.element, m.index, m.state, r);
      forall ev | IsLoopEvent(ev, e) ensures ev in r.queue <==> ev in s.queue {
        var k: nat := ev.input;
        LoopSubmits(c, s, r, e, k, ev);
      }
    } else {
      SetInputLaw(c, s, m.input, m.value, r);
      forall ev | IsLoopEvent(ev, e) ensures ev in r.queue <==> ev in s.queue {
        LoopIsConnected(c, s, m.input, m.value, r, e, ev);
      }
    }
  }

  lemma IsElement(c: Circuit, e: nat)
    requires IsLooped(c, e)
    ensures e < c.Size()
  {
  }

  lemma LoopIsConnected(c: Circuit, s: State, i: Input, value: bool, r: State, e: nat, ev: Event)
    requires Inv(c, s) && Step(c, s, SetInput(i, value), r) && IsLooped(c, e) && IsLoopEvent(ev, e)
    ensures ev != Event(s.time + 1, i.element, i.id, value)
  {
    assert c.HasOutput(Output(e, 1)) && c.Target(Output(e, 1)) == Some(Input(e, 1));
    assert c.HasOutput(Output(e, 2)) && c.Target(Output(e, 2)) == Some(Input(e, 2));
    assert c.HasInput(i) && c.Driver(i).None?;
  }

  //
  // Whole runs
  //

  /** A period that begins at the given time: first on, then off. */
  ghost predicate InPeriod(c: Circuit, s: State, e: nat, begin: int)
    requires IsLooped(c, e)
  {
    || (OnUntil(s, e, begin + TimeOn(c, e)) && begin <= s.time < begin + TimeOn(c, e))
    || (OffUntil(s, e, begin + TimeOn(c, e) + TimeOff(c, e))
        && begin + TimeOn(c, e) <= s.time < begin + TimeOn(c, e) + TimeOff(c, e))
  }

  ghost predicate Works(c: Circuit, s: State, e: nat)
    requires IsLooped(c, e)
  {
    Stands(s, e) || exists begin :: InPeriod(c, s, e, begin)
  }

  lemma EndsAhead(c: Circuit, s: State, ev: Event)
    requires Inv(c, s) && ev in s.queue
    ensures s.time < ev.time
  {
  }

  lemma PeriodAdvances(c: Circuit, s: State, t: int, r: State, e: nat, begin: int)
    requires Inv(c, s) && Step(c, s, Advance(t), r) && IsLooped(c, e) && InPeriod(c, s, e, begin)
    ensures || InPeriod(c, r, e, begin)
            || (Appears(c, r, e, 0) && InPeriod(c, r, e, begin + TimeOn(c, e) + TimeOff(c, e)))
            || (!Appears(c, r, e, 0) && Stands(r, e))
  {
    hide Inv, Step, IsLooped, Appears, Stands, CanTick, OnUntil, OffUntil, TimeOn, TimeOff, Tick;
    AdvanceIsTick(c, s, t, r);
    TimeForward(c, s, t, r);
    var on, off := begin + TimeOn(c, e), begin + TimeOn(c, e) + TimeOff(c, e);
    if OnUntil(s, e, on) && begin <= s.time {
      OnAdvances(c, s, t, r, e, on);
    } else {
      OffAdvances(c, s, t, r, e, off);
    }
  }

  lemma TimeForward(c: Circuit, s: State, t: int, r: State)
    requires Inv(c, s) && Step(c, s, Advance(t), r)
    ensures s.time < t
  {
    hide Inv, Tick;
  }

  /** Whatever happens, the period goes on; at its end the next one begins, unless the generator is disabled then. */
  lemma PeriodGoesOn(c: Circuit, s: State, m: Move, r: State, e: nat, begin: int)
    requires Inv(c, s) && Step(c, s, m, r) && IsLooped(c, e) && !WritesTo(m, e) && InPeriod(c, s, e, begin)
    ensures || InPeriod(c, r, e, begin)
            || (Appears(c, r, e, 0) && InPeriod(c, r, e, begin + TimeOn(c, e) + TimeOff(c, e)))
            || (!Appears(c, r, e, 0) && Stands(r, e))
  {
    hide Inv, Step, IsLooped, Appears;
    if m.Advance? {
      PeriodAdvances(c, s, m.time, r, e, begin);
    } else {
      OtherMoveKeepsPhase(c, s, m, r, e);
    }
  }

  lemma WorkingGoesOn(c: Circuit, s: State, m: Move, r: State, e: nat)
    requires Inv(c, s) && Step(c, s, m, r) && IsLooped(c, e) && !WritesTo(m, e) && Works(c, s, e)
    ensures Works(c, r, e)
  {
    hide Inv, Step, IsLooped, Appears, InPeriod;
    if Stands(s, e) {
      if m.Advance? {
        StandingAdvances(c, s, m.time, r, e);
        AdvanceIsTick(c, s, m.time, r);
        if !Stands(r, e) {
          StartedPeriod(c, r, e, m.time);
        }
      } else {
        OtherMoveKeepsPhase(c, s, m, r, e);
      }
    } else {
      var begin :| InPeriod(c, s, e, begin);
      PeriodGoesOn(c, s, m, r, e, begin);
    }
  }

  lemma StartedPeriod(c: Circuit, s: State, e: nat, begin: int)
    requires Inv(c, s) && IsLooped(c, e) && s.time == begin && OnUntil(s, e, begin + TimeOn(c, e))
    ensures InPeriod(c, s, e, begin)
  {
    hide Inv, IsLooped;
  }

  /** A generator that is enabled from the start begins a period at time zero; any other stands still. */
  lemma GeneratorStarts(c: Circuit, e: nat)
    requires IsLooped(c, e)
    ensures Inv(c, Start(c))
    ensures if Appears(c, Start(c), e, 0) then InPeriod(c, Start(c), e, 0) else Stands(Start(c), e)
  {
    hide Inv, Start, Appears, SubmitsAtStart, Runnable, InPeriod;
    var s := Start(c);
    StartSubmits(c);
    GeneratorRows(c, s, e);
    StartMemory(c, e, ClockGenerator);
    LoopStarts(c, e, 1);
    LoopStarts(c, e, 2);
    LoopDelays(c, e);
    forall ev | IsLoopEvent(ev, e)
      ensures ev in s.queue <==> s.states[e][ev.input + 1] && ev == Event(c.outputDelays[e][ev.input], e, ev.input, true)
    {
      LoopStartEvent(c, e, ev.input, ev);
    }
    if Appears(c, s, e, 0) {
      assert IsLoopEvent(Event(TimeOn(c, e), e, 1, true), e);
      StartedPeriod(c, s, e, 0);
    }
  }

  lemma LoopStarts(c: Circuit, e: nat, k: nat)
    requires IsLooped(c, e) && (k == 1 || k == 2)
    ensures HasRows(Start(c), e) && !Start(c).inputs[e][k]
  {
    hide Inv, Start, IsLooped, Runnable, BehindLogicItem, OnFromStart, Computes;
    LoopedRuns(c, e);
    StartKeepsInv(c, c.Size());
    StartIs(c);
    GeneratorRows(c, Start(c), e);
    LoopIsBehind(c, e, k);
    StartRows(c, Input(e, k));
  }

  lemma StartIs(c: Circuit)
    requires Runnable(c)
    ensures Start(c) == StartOver(c, c.Size())
  {
  }

  lemma LoopIsBehind(c: Circuit, e: nat, k: nat)
    requires IsLooped(c, e) && (k == 1 || k == 2)
    ensures c.HasInput(Input(e, k)) && BehindLogicItem(c, Input(e, k))
  {
    assert c.HasOutput(Output(e, k)) && c.Target(Output(e, k)) == Some(Input(e, k));
  }

  lemma LoopStartEvent(c: Circuit, e: nat, k: nat, ev: Event)
    requires IsLooped(c, e) && (k == 1 || k == 2) && For(ev, Input(e, k))
    ensures HasRows(Start(c), e) && e < |c.outputDelays| && k < |c.outputDelays[e]|
    ensures ev in Start(c).queue <==>
      Start(c).states[e][k + 1] && ev == Event(c.outputDelays[e][k], e, k, true)
  {
    hide Inv, IsLooped, DrivenValues, Computes, Start, Runnable;
    LoopedRuns(c, e);
    StartSubmits(c);
    LoopStarts(c, e, k);
    LoopDriven(c, Start(c), e, k);
    GeneratorRows(c, Start(c), e);
    assert Input(ev.element, ev.input) == Input(e, k);
    if o :| SubmitsAtStart(c, o, ev) {
      OnlyOwnOutput(c, e, k, o);
    }
    if Start(c).states[e][k + 1] && ev == Event(c.outputDelays[e][k], e, k, true) {
      assert SubmitsAtStart(c, Output(e, k), ev);
    }
  }

  lemma LoopedRuns(c: Circuit, e: nat)
    requires IsLooped(c, e)
    ensures Runnable(c) && e < c.Size() && c.types[e] == ClockGenerator
  {
  }

  /** In every run from construction that does not write to it, a generator stands still or is within a period. */
  lemma {:induction false} GeneratorAlwaysWorks(c: Circuit, states: seq<State>, moves: seq<Move>, e: nat, k: nat)
    requires IsLooped(c, e) && IsTrace(c, states, moves) && states[0] == Start(c)
    requires k < |states| && Unwritten(moves, e, 0, k)
    ensures Works(c, states[k], e)
  {
    hide Inv, Step, IsLooped, InPeriod, Stands, Start, Appears;
    if k == 0 {
      GeneratorStarts(c, e);
    } else {
      GeneratorAlwaysWorks(c, states, moves, e, k - 1);
      TraceStep(c, states, moves, k);
      WorkingGoesOn(c, states[k - 1], moves[k - 1], states[k], e);
    }
  }

  /** The enable input appears on in the states after the first one. */
  ghost predicate StaysEnabled(c: Circuit, states: seq<State>, e: nat, first: nat, last: nat) {
    forall m :: first < m <= last && m < |states| ==> Appears(c, states[m], e, 0)
  }

  /** The state lies in period n after the one that begins at the given time. */
  ghost predicate InPeriodAfter(c: Circuit, s: State, e: nat, begin: int, n: nat)
    requires IsLooped(c, e)
  {
    InPeriod(c, s, e, begin + n * (TimeOn(c, e) + TimeOff(c, e)))
  }

  lemma {:induction false} PeriodsFollow(c: Circuit, states: seq<State>, moves: seq<Move>, e: nat, begin: int, j: nat, k: nat)
    requires IsLooped(c, e) && IsTrace(c, states, moves) && j <= k < |states| && Unwritten(moves, e, j, k)
    requires InPeriod(c, states[j], e, begin) && StaysEnabled(c, states, e, j, k)
    ensures exists n: nat :: InPeriodAfter(c, states[k], e, begin, n)
    decreases k
  {
    hide Inv, Step, IsLooped, InPeriod, Stands, Appears, TimeOn, TimeOff;
    var period := TimeOn(c, e) + TimeOff(c, e);
    if j == k {
      assert begin + 0 * period == begin;
      assert InPeriodAfter(c, states[k], e, begin, 0);
    } else {
      PeriodsFollow(c, states, moves, e, begin, j, k - 1);
      var n: nat :| InPeriodAfter(c, states[k - 1], e, begin, n);
      TraceStep(c, states, moves, k);
      PeriodGoesOn(c, states[k - 1], moves[k - 1], states[k], e, begin + n * period);
      assert begin + n * period + TimeOn(c, e) + TimeOff(c, e) == begin + (n + 1) * period;
      assert InPeriodAfter(c, states[k], e, begin, n) || InPeriodAfter(c, states[k], e, begin, n + 1);
    }
  }

  /** What the first output shows in a period: on for the first delay, off for the second. */
  ghost predicate ShowsPeriod(c: Circuit, s: State, e: nat, begin: int, n: nat)
    requires IsLooped(c, e) && Inv(c, s) && Computes(c, e)
  {
    var period := TimeOn(c, e) + TimeOff(c, e);
    && begin + n * period <= s.time < begin + (n + 1) * period
    && DrivenValues(c, s, e)[0] == (s.time < begin + n * period + TimeOn(c, e))
  }

  lemma PeriodShows(c: Circuit, s: State, e: nat, begin: int, n: nat)
    requires IsLooped(c, e) && Inv(c, s) && InPeriodAfter(c, s, e, begin, n)
    ensures Computes(c, e) && ShowsPeriod(c, s, e, begin, n)
  {
    hide Inv, IsLooped, TimeOn, TimeOff, DrivenValues, Computes;
    GeneratorRows(c, s, e);
    OutputsShowState(c, s, e, ClockGenerator);
    var period := TimeOn(c, e) + TimeOff(c, e);
    assert begin + (n + 1) * period == begin + n * period + period;
  }

  /**
   As long as it stays enabled, a generator drives a square wave of exactly its two delays: in every state of the run
   its output is on during the first delay of a period and off during the second, whatever else happens.
   */
  lemma ClockGeneratorIsPeriodic(c: Circuit, states: seq<State>, moves: seq<Move>, e: nat, begin: int, j: nat, k: nat)
    requires IsLooped(c, e) && IsTrace(c, states, moves) && j <= k < |states| && Unwritten(moves, e, j, k)
    requires InPeriod(c, states[j], e, begin) && StaysEnabled(c, states, e, j, k)
    ensures Inv(c, states[k]) && Computes(c, e)
    ensures exists n: nat :: ShowsPeriod(c, states[k], e, begin, n)
  {
    hide Inv, Step, IsLooped, InPeriodAfter, ShowsPeriod, InPeriod, Computes;
    TraceKeepsInv(c, states, moves, k);
    PeriodsFollow(c, states, moves, e, begin, j, k);
    var n: nat :| InPeriodAfter(c, states[k], e, begin, n);
    PeriodShows(c, states[k], e, begin, n);
  }
}
