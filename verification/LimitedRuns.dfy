/**
 Runs that a time, a number of events or a timer limits: exactly when such a run stops, and that it does not matter
 how often it is interrupted on the way to its end.
 */
module LimitedRuns {
  import opened Wrappers
  import opened ElementLogic
  import opened Schematics
  import opened SimulationModel
  import opened SimulationQueues
  import opened SimulationRuns
  import opened Interruption
  import opened Reachability

  /** None stands for no limit: an infinite time, no timeout and any number of events. */
  datatype RunConfig = RunConfig(simulateFor: Option<int>, realtimeTimeout: Option<int>, maxEvents: Option<int>)

  datatype RunError = NegativeTime | NegativeTimeout | NegativeEvents

  function ConfigProblem(config: RunConfig): Option<RunError> {
    if config.simulateFor.Some? && config.simulateFor.value < 0 then Some(NegativeTime)
    else if config.realtimeTimeout.Some? && config.realtimeTimeout.value < 0 then Some(NegativeTimeout)
    else if config.maxEvents.Some? && config.maxEvents.value < 0 then Some(NegativeEvents)
    else None
  }

  predicate DoesNothing(config: RunConfig) {
    config.maxEvents == Some(0) || config.realtimeTimeout == Some(0) || config.simulateFor == Some(0)
  }

  function EndTime(config: RunConfig, time: int): Option<int> {
    if config.simulateFor.Some? then Some(time + config.simulateFor.value) else None
  }

  ghost predicate MaxReached(config: RunConfig, was: State, now: State) {
    config.maxEvents.Some? && was.eventCount + config.maxEvents.value <= now.eventCount
  }

  //
  // Checking the limits
  //

  /** How many events may pass before the timer is asked again. */
  const CHECK_INTERVAL := 1000

  function Sooner(a: Option<int>, b: Option<int>): Option<int> {
    if a.None? then b else if b.None? || a.value <= b.value then a else b
  }

  function MaxCount(config: RunConfig, eventCount: int): Option<int> {
    if config.maxEvents.Some? then Some(eventCount + config.maxEvents.value) else None
  }

  function FirstTimerCheck(config: RunConfig, eventCount: int): Option<int> {
    if config.realtimeTimeout.Some? then Some(eventCount + CHECK_INTERVAL) else None
  }

  /** The event count of the next check, and how often the timer was asked before. */
  datatype Checks = Checks(next: Option<int>, queries: nat)

  predicate IsReached(check: Option<int>, eventCount: int) {
    check.Some? && check.value <= eventCount
  }

  function NextChecks(checks: Checks, maxCount: Option<int>, eventCount: int): Checks {
    if IsReached(checks.next, eventCount)
    then Checks(Sooner(maxCount, Some(checks.next.value + CHECK_INTERVAL)), checks.queries + 1)
    else checks
  }

  /** The state after n time points of the run. */
  ghost function PointAt(c: Circuit, was: State, config: RunConfig, n: nat): State
    requires Inv(c, was)
  {
    Steps(c, was, EndTime(config, was.time), n)
  }

  ghost function ChecksAfter(c: Circuit, was: State, config: RunConfig, n: nat): Checks
    requires Inv(c, was)
  {
    var maxCount := MaxCount(config, was.eventCount);
    if n == 0 then Checks(Sooner(maxCount, FirstTimerCheck(config, was.eventCount)), 0)
    else NextChecks(ChecksAfter(c, was, config, n - 1), maxCount, PointAt(c, was, config, n).eventCount)
  }

  /** A limit stops the run after n time points: the limits are checked there, and one of them is reached. */
  ghost predicate StopsAt(c: Circuit, was: State, config: RunConfig, timer: nat -> bool, n: nat)
    requires Inv(c, was)
  {
    && n > 0
    && IsReached(ChecksAfter(c, was, config, n - 1).next, PointAt(c, was, config, n).eventCount)
    && (|| MaxReached(config, was, PointAt(c, was, config, n))
        || (config.realtimeTimeout.Some? && timer(ChecksAfter(c, was, config, n - 1).queries)))
  }

  /** Each of the first n time points was due, and no limit stopped the run before the last one. */
  ghost predicate GoesOn(c: Circuit, was: State, config: RunConfig, timer: nat -> bool, n: nat)
    requires Inv(c, was)
  {
    && (forall m: nat :: m < n ==> Due(PointAt(c, was, config, m), EndTime(config, was.time)))
    && (forall m: nat :: m < n ==> !StopsAt(c, was, config, timer, m))
  }

  /** An interrupted run stopped after n complete time points: the first at which a limit stops it. */
  ghost predicate Interrupted(c: Circuit, was: State, now: State, config: RunConfig, timer: nat -> bool, n: nat)
    requires Inv(c, was)
  {
    GoesOn(c, was, config, timer, n) && StopsAt(c, was, config, timer, n) && now == PointAt(c, was, config, n)
  }

  /** The clock at the end of a run that nothing interrupts. */
  function EndClock(config: RunConfig, start: int, last: State): int {
    if config.simulateFor.Some? then start + config.simulateFor.value else Max(last.time, last.largestHistoryEvent)
  }

  /**
   A completed run processed all n time points that were due, none of which a limit stops, and advanced the clock.
   It reached its end time, or the state in which nothing is pending.
   */
  ghost predicate Completed(c: Circuit, was: State, now: State, config: RunConfig, timer: nat -> bool, n: nat)
    requires Inv(c, was)
  {
    var last := PointAt(c, was, config, n);
    && GoesOn(c, was, config, timer, n) && !StopsAt(c, was, config, timer, n)
    && !Due(last, EndTime(config, was.time))
    && now == last.(time := EndClock(config, was.time, last))
    && ReachesEnd(c, was, now, EndTime(config, was.time))
  }

  /** The state at the end time, or the one in which nothing is pending. */
  ghost predicate ReachesEnd(c: Circuit, was: State, now: State, end: Option<int>)
    requires Inv(c, was)
  {
    if end.Some? then was.time <= end.value && now == RunTo(c, was, end.value)
    else Settles(c, was) && now == RunOut(c, was)
  }

  ghost predicate Ran(c: Circuit, was: State, now: State, config: RunConfig, timer: nat -> bool, n: nat, interrupted: bool)
    requires Inv(c, was)
  {
    if interrupted then Interrupted(c, was, now, config, timer, n) else Completed(c, was, now, config, timer, n)
  }

  /** The configuration, the start and the answers of the timer determine whether and where a run is interrupted. */
  lemma RanIsDetermined(c: Circuit, was: State, config: RunConfig, timer: nat -> bool,
                        a: State, n: nat, i: bool, b: State, m: nat, j: bool)
    requires Inv(c, was) && Ran(c, was, a, config, timer, n, i) && Ran(c, was, b, config, timer, m, j)
    ensures a == b && n == m && i == j
  {
    hide PointAt, StopsAt, Due, Inv, ReachesEnd;
    if n < m {
      RanIsNotLonger(c, was, config, timer, a, n, i, m);
      assert false;
    } else if m < n {
      RanIsNotLonger(c, was, config, timer, b, m, j, n);
      assert false;
    }
  }

  lemma RanIsNotLonger(c: Circuit, was: State, config: RunConfig, timer: nat -> bool, now: State, n: nat, i: bool, m: nat)
    requires Inv(c, was) && Ran(c, was, now, config, timer, n, i) && n < m
    ensures !GoesOn(c, was, config, timer, m)
  {
    hide PointAt, StopsAt, Due, Inv, ReachesEnd;
  }

  /** A check comes no later than the event limit; without any limit there is none. */
  lemma {:induction false} ChecksFit(c: Circuit, was: State, config: RunConfig, n: nat)
    requires Inv(c, was)
    ensures var next, maxCount := ChecksAfter(c, was, config, n).next, MaxCount(config, was.eventCount);
      && (maxCount.Some? ==> next.Some? && next.value <= maxCount.value)
      && (next.Some? <==> config.maxEvents.Some? || config.realtimeTimeout.Some?)
  {
    hide Inv, PointAt;
    if n > 0 {
      ChecksFit(c, was, config, n - 1);
    }
  }

  /** No limit has stopped the run up to its first n time points. */
  ghost predicate NotStopped(c: Circuit, was: State, config: RunConfig, timer: nat -> bool, n: nat)
    requires Inv(c, was)
  {
    forall m: nat :: m <= n ==> !StopsAt(c, was, config, timer, m)
  }

  /**
   The timer is asked for the q-th time after q thousand events, or at the event limit if that comes first. Every time
   point asks at most once, and without a timeout only the event limit is watched.
   */
  lemma {:induction false} ChecksAreThousands(c: Circuit, was: State, config: RunConfig, timer: nat -> bool, n: nat)
    requires Inv(c, was) && NotStopped(c, was, config, timer, n)
    ensures var checks := ChecksAfter(c, was, config, n);
      && (config.realtimeTimeout.Some? ==>
            && checks.next.Some? && checks.queries <= n
            && (if config.maxEvents.Some? && config.maxEvents.value <= 1000 * (checks.queries + 1)
                then checks.next.value == was.eventCount + config.maxEvents.value
                else checks.next.value == was.eventCount + 1000 * (checks.queries + 1)))
      && (config.realtimeTimeout.None? ==>
            && checks.queries == 0 && (checks.next.Some? <==> config.maxEvents.Some?)
            && (config.maxEvents.Some? ==> checks.next.value == was.eventCount + config.maxEvents.value))
  {
    hide Inv, PointAt, NotStopped;
    if n > 0 {
      NotStoppedBefore(c, was, config, timer, n);
      ChecksAreThousands(c, was, config, timer, n - 1);
    }
  }

  lemma NotStoppedBefore(c: Circuit, was: State, config: RunConfig, timer: nat -> bool, n: nat)
    requires Inv(c, was) && NotStopped(c, was, config, timer, n) && n > 0
    ensures NotStopped(c, was, config, timer, n - 1) && !StopsAt(c, was, config, timer, n)
  {
  }

  /** The first time point at which the event limit is reached stops the run. */
  lemma MaxReachedStops(c: Circuit, was: State, config: RunConfig, timer: nat -> bool, n: nat)
    requires Inv(c, was) && n > 0 && MaxReached(config, was, PointAt(c, was, config, n))
    ensures StopsAt(c, was, config, timer, n)
  {
    hide Inv, PointAt, ChecksAfter;
    ChecksFit(c, was, config, n - 1);
  }

  /** A run makes no time point after the event limit was reached, and a completed one never reached it. */
  lemma EventLimitIsKept(c: Circuit, was: State, now: State, config: RunConfig, timer: nat -> bool, n: nat, interrupted: bool,
                         m: nat)
    requires Inv(c, was) && ConfigProblem(config) == None && !DoesNothing(config)
    requires Ran(c, was, now, config, timer, n, interrupted) && (if interrupted then m < n else m <= n)
    ensures !MaxReached(config, was, PointAt(c, was, config, m))
  {
    hide Inv, PointAt, StopsAt, Due, ReachesEnd;
    RunStarts(c, was, config, timer);
    if m > 0 && MaxReached(config, was, PointAt(c, was, config, m)) {
      MaxReachedStops(c, was, config, timer, m);
      assert false;
    }
  }

  /** Without an event limit and a timeout nothing interrupts a run. */
  lemma UnlimitedIsNotInterrupted(c: Circuit, was: State, config: RunConfig, timer: nat -> bool, n: nat)
    requires Inv(c, was) && config.maxEvents.None? && config.realtimeTimeout.None?
    ensures !StopsAt(c, was, config, timer, n)
  {
  }

  lemma UnlimitedRunReachesEnd(c: Circuit, was: State, now: State, config: RunConfig, timer: nat -> bool, n: nat,
                               interrupted: bool)
    requires Inv(c, was) && config.maxEvents.None? && config.realtimeTimeout.None?
    requires Ran(c, was, now, config, timer, n, interrupted)
    ensures !interrupted && ReachesEnd(c, was, now, EndTime(config, was.time))
  {
    hide Inv, GoesOn, StopsAt, ReachesEnd, PointAt, Due;
    UnlimitedIsNotInterrupted(c, was, config, timer, n);
  }

  /** What a run that was not refused leaves behind, in terms of its limits alone. */
  lemma RanEnds(c: Circuit, was: State, now: State, config: RunConfig, timer: nat -> bool, n: nat, interrupted: bool)
    requires Inv(c, was) && ConfigProblem(config) == None && !DoesNothing(config)
    requires Ran(c, was, now, config, timer, n, interrupted)
    ensures !interrupted && config.simulateFor.Some? ==>
      now.time == was.time + config.simulateFor.value && forall ev :: ev in now.queue ==> now.time < ev.time
    ensures !interrupted && config.simulateFor.None? ==> now.queue == {} && now.largestHistoryEvent <= now.time
    ensures !interrupted && config.maxEvents.Some? ==> now.eventCount < was.eventCount + config.maxEvents.value
    ensures interrupted ==>
      || (config.maxEvents.Some? && was.eventCount + config.maxEvents.value <= now.eventCount)
      || (config.realtimeTimeout.Some? && exists query: nat :: Expires(timer, query))
  {
    hide Inv, Steps, RunTo, GoesOn, Due, RunOut, Settles;
    if interrupted {
      if !MaxReached(config, was, now) {
        assert Expires(timer, ChecksAfter(c, was, config, n - 1).queries);
      }
    } else {
      EventLimitIsKept(c, was, now, config, timer, n, interrupted, n);
      if config.simulateFor.Some? {
        NotDueIsLater(now, now.time);
      } else {
        SettledIsFinished(c, was);
      }
    }
  }

  lemma SettledIsFinished(c: Circuit, s: State)
    requires Inv(c, s) && Settles(c, s)
    ensures RunOut(c, s).queue == {} && RunOut(c, s).largestHistoryEvent <= RunOut(c, s).time
  {
  }

  //
  // Chains of runs
  //

  /** Each run of the chain is interrupted, the next one goes on, and all of them have the same end time. */
  ghost predicate IsChain(c: Circuit, states: seq<State>, configs: seq<RunConfig>, end: Option<int>) {
    && |states| == |configs| + 1
    && (forall i :: 0 <= i < |states| ==> Inv(c, states[i]))
    && (forall i :: 0 <= i < |configs| ==>
          EndTime(configs[i], states[i].time) == end && WasInterrupted(c, states[i], states[i + 1], configs[i]))
  }

  ghost predicate WasInterrupted(c: Circuit, was: State, now: State, config: RunConfig)
    requires Inv(c, was)
  {
    exists timer, n :: Interrupted(c, was, now, config, timer, n)
  }

  lemma OneInterruption(c: Circuit, was: State, now: State, config: RunConfig, last: State)
    requires Inv(c, was) && Inv(c, now) && WasInterrupted(c, was, now, config)
    requires config.simulateFor.Some? ==> config.simulateFor.value >= 0
    ensures ReachesEnd(c, now, last, EndTime(config, was.time)) <==> ReachesEnd(c, was, last, EndTime(config, was.time))
  {
    hide Inv, GoesOn, StopsAt, Settles, RunTo, RunOut, Steps;
    var timer, n :| Interrupted(c, was, now, config, timer, n);
    if config.simulateFor.Some? {
      ResumeReachesSame(c, was, was.time + config.simulateFor.value, n);
    } else {
      ResumeSettlesSame(c, was, n);
    }
  }

  /**
   However often runs are interrupted by event limits or timers and resumed to the same end time, or to none, they
   lead to the end exactly where one uninterrupted run does.
   */
  lemma {:induction false} ChainReachesSame(c: Circuit, states: seq<State>, configs: seq<RunConfig>, end: Option<int>,
                                            last: State)
    requires IsChain(c, states, configs, end) && (end.Some? ==> states[0].time <= end.value)
    ensures ReachesEnd(c, states[|configs|], last, end) <==> ReachesEnd(c, states[0], last, end)
    decreases |configs|
  {
    hide Inv, ReachesEnd, WasInterrupted;
    var n := |configs|;
    if n > 0 {
      var earlier := states[..n];
      assert forall i :: 0 <= i < n ==> earlier[i] == states[i];
      ChainReachesSame(c, earlier, configs[..n - 1], end, last);
      ChainTimes(c, states, configs, end, n - 1);
      OneInterruption(c, states[n - 1], states[n], configs[n - 1], last);
    }
  }

  lemma {:induction false} ChainTimes(c: Circuit, states: seq<State>, configs: seq<RunConfig>, end: Option<int>, i: nat)
    requires IsChain(c, states, configs, end) && i <= |configs| && (end.Some? ==> states[0].time <= end.value)
    ensures end.Some? ==> states[i].time <= end.value
  {
    hide Inv, GoesOn, StopsAt, Steps;
    if i > 0 {
      ChainTimes(c, states, configs, end, i - 1);
      assert WasInterrupted(c, states[i - 1], states[i], configs[i - 1]);
      var timer, n :| Interrupted(c, states[i - 1], states[i], configs[i - 1], timer, n);
      if end.Some? {
        ResumeReachesSame(c, states[i - 1], end.value, n);
      }
    }
  }

  //
  // The end of a run
  //

  /** Some query finds that the time is up. */
  ghost predicate Expires(timer: nat -> bool, queries: nat) {
    timer(queries)
  }

  /** What ends a run: its end time, its event limit, its timer, or that nothing is pending anymore. */
  ghost predicate Ends(c: Circuit, s: State, config: RunConfig, timer: nat -> bool)
    requires Inv(c, s)
  {
    || config.simulateFor.Some? || config.maxEvents.Some? || config.realtimeTimeout == Some(0)
    || (config.realtimeTimeout.Some? && exists query: nat :: Expires(timer, query))
    || Settles(c, s)
  }

  /** The query that ends a run, where that is what does. */
  ghost function LastQuery(timer: nat -> bool): (q: nat)
    ensures (exists query: nat :: Expires(timer, query)) ==> Expires(timer, q)
  {
    if exists query: nat :: Expires(timer, query) then
      var query: nat :| Expires(timer, query);
      query
    else 0
  }

  lemma TimerEnds(c: Circuit, s: State, config: RunConfig, timer: nat -> bool)
    requires Inv(c, s) && Ends(c, s, config, timer) && !DoesNothing(config)
    requires config.simulateFor.None? && config.maxEvents.None? && !Settles(c, s)
    ensures config.realtimeTimeout.Some? && Expires(timer, LastQuery(timer))
  {
  }

  /** A run that is not due anymore is completed up to the advance of the clock. */
  lemma CompletesTo(c: Circuit, s: State, end: int, n: nat)
    requires Inv(c, s) && s.time <= end && !Due(Steps(c, s, Some(end), n), Some(end))
    ensures Steps(c, s, Some(end), n).time <= end
    ensures RunTo(c, s, end) == Steps(c, s, Some(end), n).(time := end)
  {
    hide Inv, Advanced;
    ResumeReachesSame(c, s, end, n);
  }

  lemma SettledStays(c: Circuit, s: State, total: nat, n: nat)
    requires Inv(c, s) && Steps(c, s, None, total).queue == {} && total <= n
    ensures Steps(c, s, None, n) == Steps(c, s, None, total)
  {
    hide Inv, Advanced;
    StepsAdd(c, s, None, total, n - total);
    StepsIdle(c, Steps(c, s, None, total), None, n - total);
  }

  /** A run without end time that is not over has not made all its steps. */
  lemma NotSettledYet(c: Circuit, s: State, total: nat, n: nat)
    requires Inv(c, s) && Steps(c, s, None, total).queue == {} && Due(Steps(c, s, None, n), None)
    ensures n < total
  {
    if total <= n {
      SettledStays(c, s, total, n);
    }
  }

  //
  // The loop of a run
  //

  /** The number of time points after which nothing is pending, where that is what ends a run. */
  ghost function TotalSteps(c: Circuit, s: State, config: RunConfig): nat
    requires Inv(c, s)
  {
    if config.simulateFor.None? && config.maxEvents.None? && Settles(c, s) then
      var n: nat :| Steps(c, s, None, n).queue == {};
      n
    else 0
  }

  lemma RunStarts(c: Circuit, s: State, config: RunConfig, timer: nat -> bool)
    requires Inv(c, s)
    ensures PointAt(c, s, config, 0) == s
    ensures ChecksAfter(c, s, config, 0) ==
      Checks(Sooner(MaxCount(config, s.eventCount), FirstTimerCheck(config, s.eventCount)), 0)
    ensures GoesOn(c, s, config, timer, 0) && !StopsAt(c, s, config, timer, 0)
  {
  }

  /** One more time point that is due, and what checking the limits after it means. */
  lemma CheckOneMore(c: Circuit, s: State, config: RunConfig, timer: nat -> bool, n: nat)
    requires Inv(c, s) && GoesOn(c, s, config, timer, n) && !StopsAt(c, s, config, timer, n)
    requires Due(PointAt(c, s, config, n), EndTime(config, s.time))
    ensures GoesOn(c, s, config, timer, n + 1)
    ensures var checks, now := ChecksAfter(c, s, config, n), PointAt(c, s, config, n + 1);
      && ChecksAfter(c, s, config, n + 1) == NextChecks(checks, MaxCount(config, s.eventCount), now.eventCount)
      && (StopsAt(c, s, config, timer, n + 1) <==>
            IsReached(checks.next, now.eventCount) &&
            (IsReached(MaxCount(config, s.eventCount), now.eventCount)
             || (config.realtimeTimeout.Some? && timer(checks.queries))))
  {
    hide Inv, PointAt, Due;
  }

  lemma NextTimeIs(events: set<Event>, t: int)
    requires IsNextTime(events, Some(t))
    ensures events != {} && t == NextTime(events)
  {
  }

  /** What the loop needs to know about its next iteration: it is a step, and it brings the run closer to its end. */
  lemma RunOneMore(c: Circuit, s: State, config: RunConfig, n: nat, total: nat, next: Option<int>)
    requires Inv(c, s)
    requires total == TotalSteps(c, s, config)
    requires var r := Steps(c, s, EndTime(config, s.time), n);
      && IsNextTime(r.queue, next) && next.Some?
      && (config.simulateFor.Some? ==> next.value <= s.time + config.simulateFor.value)
    ensures var end := EndTime(config, s.time);
      var r := Steps(c, s, end, n);
      && Due(r, end) && r.queue != {} && next.value == NextTime(r.queue) && r.time < next.value
      && Steps(c, s, end, n + 1) == Advanced(c, r) && Advanced(c, r).time == next.value
      && r.eventCount < Advanced(c, r).eventCount
    ensures config.simulateFor.None? && config.maxEvents.None? && Settles(c, s) ==> n < total
  {
    var end := EndTime(config, s.time);
    var r := Steps(c, s, end, n);
    NextTimeIs(r.queue, next.value);
    hide Inv, Steps;
    assert Due(r, end);
    StepsSnoc(c, s, end, n);
    AdvancedCounts(c, r);
    if config.simulateFor.None? && config.maxEvents.None? && Settles(c, s) {
      NotSettledYet(c, s, total, n);
    }
  }

  /** Advancing the clock of a state in which nothing is due until then. */
  lemma ClockAdvances(c: Circuit, from: State, s: State, end: int)
    requires Reaches(c, from, s) && Inv(c, from) && Inv(c, s) && s.time <= end && !Due(s, Some(end))
    ensures forall ev :: ev in s.queue ==> end < ev.time
    ensures Inv(c, s.(time := end)) && Reaches(c, from, s.(time := end))
  {
    NotDueIsLater(s, end);
    TimeSetReaches(c, from, s, end);
    TimeSetKeepsInv(c, s, end);
  }

  lemma NotDueAnymore(s: State, end: Option<int>, next: Option<int>)
    requires IsNextTime(s.queue, next) && (next.None? || (end.Some? && end.value < next.value))
    ensures !Due(s, end) && (next.None? ==> forall t :: !Due(s, Some(t)))
  {
    if s.queue != {} {
      NextTimeIs(s.queue, next.value);
    }
  }

  /** When no event is due anymore, advancing the clock completes the run. */
  lemma RunIsOver(c: Circuit, s: State, config: RunConfig, timer: nat -> bool, n: nat, next: Option<int>)
    requires Inv(c, s) && ConfigProblem(config) == None
    requires GoesOn(c, s, config, timer, n) && !StopsAt(c, s, config, timer, n)
    requires IsNextTime(PointAt(c, s, config, n).queue, next)
    requires next.None? || (config.simulateFor.Some? && s.time + config.simulateFor.value < next.value)
    ensures var r := PointAt(c, s, config, n);
      var end := EndClock(config, s.time, r);
      && r.time <= end && (forall ev :: ev in r.queue ==> end < ev.time)
      && Inv(c, r.(time := end)) && Reaches(c, s, r.(time := end))
      && Completed(c, s, r.(time := end), config, timer, n)
  {
    hide Inv, Reaches, Steps, Due, RunTo, Settled, Settles, Advanced, IsNextTime, GoesOn, StopsAt;
    var end := EndTime(config, s.time);
    var r := Steps(c, s, end, n);
    NotDueAnymore(r, end, next);
    ReachesSelf(c, s);
    StepsReach(c, s, s, end, n);
    if config.simulateFor.Some? {
      CompletesTo(c, s, end.value, n);
      ClockAdvances(c, s, r, end.value);
    } else {
      NothingLeft(r, next);
      SettledIs(c, s, n);
      ClockAdvances(c, s, r, Max(r.time, r.largestHistoryEvent));
    }
  }

  lemma NothingLeft(s: State, next: Option<int>)
    requires IsNextTime(s.queue, next) && next.None?
    ensures s.queue == {}
  {
  }
}
