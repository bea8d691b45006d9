// Whole runs of the scheduler: every sequence of turns the event loop can make of it.
module SchedulerHistories {
  import opened Ids
  import opened Wrappers
  import opened Scheduling

  /** What happened so far, next to the state of the object. */
  datatype System = System(
    s: Sched,
    taken: seq<RunId>,       // runs admitted by `enqueue`, in order
    started: seq<RunId>,     // runs whose `run` was called, in order
    cancelled: seq<RunId>,   // runs whose `cancel` was called, in order
    finished: set<RunId>,    // started runs whose promise has settled
    unfinishedStops: nat,    // calls of `stopAccepting` still awaiting cancellations
    asked: set<WaiterId>,    // calls of `onIdle`
    released: set<WaiterId>) // calls of `onIdle` whose promise is resolved

  const INITIAL: System := System(FRESH, [], [], [], {}, 0, {}, {})

  datatype Event =
    | Enqueue(run: RunId)
    | StopAccepting
    | CancellationsSettled
    | OnIdle(waiter: WaiterId)
    | Immediate
    | Finish(run: RunId)

  /** Which turns the event loop can run: each run and each waiter is a new object, callbacks fire once. */
  predicate Enabled(sys: System, e: Event) {
    match e
    case Enqueue(r) => r !in sys.taken
    case StopAccepting => true
    case CancellationsSettled => sys.unfinishedStops > 0
    case OnIdle(w) => w !in sys.asked
    case Immediate => sys.s.drainScheduled
    case Finish(r) => r in sys.started && r !in sys.finished
  }

  function Step(l: Limits, sys: System, e: Event): System
    requires Enabled(sys, e)
  {
    match e
    case Enqueue(r) =>
      if Admits(l, sys.s) then sys.(s := AfterEnqueue(l, sys.s, r), taken := sys.taken + [r]) else sys
    case StopAccepting =>
      sys.(s := AfterStop(sys.s), cancelled := sys.cancelled + sys.s.queue, unfinishedStops := sys.unfinishedStops + 1)
    case CancellationsSettled =>
      sys.(s := ResolveIdle(sys.s),
           released := sys.released + Released(sys.s),
           unfinishedStops := sys.unfinishedStops - 1)
    case OnIdle(w) =>
      sys.(s := AfterOnIdle(sys.s, w), asked := sys.asked + {w},
           released := sys.released + if Idle(sys.s) then {w} else {})
    case Immediate =>
      Draining(l, sys.(s := sys.s.(drainScheduled := false)))
    case Finish(r) =>
      Draining(l, sys.(s := sys.s.(active := Less1(sys.s.active)), finished := sys.finished + {r}))
  }

  function Draining(l: Limits, sys: System): System {
    sys.(s := AfterDrain(l, sys.s), started := sys.started + Started(l, sys.s),
         released := sys.released + Released(Filled(l, sys.s)))
  }

  ghost predicate Reachable(l: Limits, sys: System, events: seq<Event>)
    decreases |events|
  {
    if events == [] then sys == INITIAL
    else
      var last := events[|events| - 1];
      exists before ::
        Reachable(l, before, events[..|events| - 1]) && Enabled(before, last) && sys == Step(l, before, last)
  }

  /** Admission order is start order, then cancellation order, then queue order: nothing is lost,
      duplicated or overtaken, and cancellation happens only after the stop. */
  predicate Conserved(sys: System) {
    && NoDuplicates(sys.taken)
    && sys.taken == sys.started + sys.cancelled + sys.s.queue
    && (sys.cancelled != [] ==> !sys.s.accepting)
    && (!sys.s.accepting ==> sys.s.queue == [])
    && sys.finished <= Elements(sys.started)
    && sys.s.active == |sys.started| - |sys.finished|
  }

  predicate Bounded(l: Limits, sys: System) {
    && sys.s.active <= l.concurrency
    && sys.s.active + |sys.s.queue| <= l.concurrency + l.maxQueuedRuns
  }

  /** A free slot and a waiting run together mean that a drain is on its way. */
  predicate NeverStalled(l: Limits, sys: System) {
    !sys.s.accepting || sys.s.drainScheduled || sys.s.queue == [] || sys.s.active == l.concurrency
  }

  /** Every caller of `onIdle` is waiting or released; on an idle scheduler only an unfinished stop keeps one
      waiting. */
  predicate WaitersServed(sys: System) {
    && sys.asked == sys.s.idleWaiters + sys.released
    && sys.s.idleWaiters !! sys.released
    && (Idle(sys.s) && sys.s.idleWaiters != {} ==> sys.unfinishedStops > 0)
  }

  predicate Invariant(l: Limits, sys: System) {
    Conserved(sys) && Bounded(l, sys) && NeverStalled(l, sys) && WaitersServed(sys)
  }

  lemma ProperSubset(a: set<RunId>, b: set<RunId>, r: RunId)
    requires a <= b && r in b && r !in a
    ensures |a| < |b|
  {
    assert |b - a| > 0 by { assert r in b - a; }
    assert b == a + (b - a);
  }

  lemma ActiveCount(sys: System)
    requires Conserved(sys)
    ensures sys.s.active == |Elements(sys.started) - sys.finished|
  {
    assert sys.started == sys.taken[..|sys.started|];
    ElementsCount(sys.started);
  }

  lemma DrainingConserves(l: Limits, sys: System)
    requires NoDuplicates(sys.taken) && sys.taken == sys.started + sys.cancelled + sys.s.queue
    requires sys.cancelled != [] ==> !sys.s.accepting
    requires !sys.s.accepting ==> sys.s.queue == []
    requires sys.finished <= Elements(sys.started) && sys.s.active == |sys.started| - |sys.finished|
    ensures Conserved(Draining(l, sys))
  {
    var after := Draining(l, sys);
    var n := Startable(l, sys.s);
    assert sys.s.queue == sys.s.queue[..n] + sys.s.queue[n..];
    if n > 0 {
      assert sys.cancelled == [];
      assert sys.started + [] + sys.s.queue == (sys.started + sys.s.queue[..n]) + [] + sys.s.queue[n..];
    } else {
      assert sys.s.queue[..0] == [] && sys.s.queue[0..] == sys.s.queue;
      assert sys.started + [] == sys.started;
    }
    assert forall r :: r in sys.started ==> r in after.started;
  }

  lemma StepConserves(l: Limits, sys: System, e: Event)
    requires Conserved(sys) && Enabled(sys, e)
    ensures Conserved(Step(l, sys, e))
  {
    match e
    case Enqueue(r) =>
      if Admits(l, sys.s) {
        assert sys.started + sys.cancelled + (sys.s.queue + [r]) == (sys.started + sys.cancelled + sys.s.queue) + [r];
      }
    case StopAccepting =>
      assert sys.started + (sys.cancelled + sys.s.queue) + [] == sys.started + sys.cancelled + sys.s.queue;
    case Immediate => DrainingConserves(l, sys.(s := sys.s.(drainScheduled := false)));
    case Finish(r) =>
      assert r in Elements(sys.started);
      ElementsCount(sys.taken[..|sys.started|]);
      assert sys.started == sys.taken[..|sys.started|];
      ProperSubset(sys.finished, Elements(sys.started), r);
      DrainingConserves(l, sys.(s := sys.s.(active := Less1(sys.s.active)), finished := sys.finished + {r}));
    case _ =>
  }

  lemma StepKeepsBounds(l: Limits, sys: System, e: Event)
    requires Conserved(sys) && Bounded(l, sys) && Enabled(sys, e)
    ensures Bounded(l, Step(l, sys, e))
  {
    hide NoDuplicates, Elements, Released;
  }

  lemma StepNeverStalls(l: Limits, sys: System, e: Event)
    requires Bounded(l, sys) && NeverStalled(l, sys) && Enabled(sys, e)
    ensures NeverStalled(l, Step(l, sys, e))
  {
    hide Released, AfterDrain, Started, Filled;
    DrainNeverStalls(l, sys.s.(drainScheduled := false));
    DrainNeverStalls(l, sys.s.(active := Less1(sys.s.active)));
  }

  /** A drain stops only at the end of the queue or when all slots are taken. */
  lemma DrainNeverStalls(l: Limits, s: Sched)
    requires s.active <= l.concurrency
    ensures var t := AfterDrain(l, s); !t.accepting || t.queue == [] || t.active == l.concurrency
  {
    hide Released;
  }

  lemma StepServesWaiters(l: Limits, sys: System, e: Event)
    requires WaitersServed(sys) && Enabled(sys, e)
    ensures WaitersServed(Step(l, sys, e))
  {
    hide Startable, Elements;
  }

  lemma StepKeepsInvariant(l: Limits, sys: System, e: Event)
    requires Invariant(l, sys) && Enabled(sys, e)
    ensures Invariant(l, Step(l, sys, e))
  {
    hide Conserved, Bounded, NeverStalled, WaitersServed, Step, Enabled;
    StepConserves(l, sys, e);
    StepKeepsBounds(l, sys, e);
    StepNeverStalls(l, sys, e);
    StepServesWaiters(l, sys, e);
  }

  /** Every reachable state satisfies all four groups of properties. */
  lemma {:induction false} ReachableInvariant(l: Limits, sys: System, events: seq<Event>)
    requires Reachable(l, sys, events)
    ensures Invariant(l, sys)
    decreases |events|
  {
    if events != [] {
      var last := events[|events| - 1];
      var before :| Reachable(l, before, events[..|events| - 1]) && Enabled(before, last)
          && sys == Step(l, before, last);
      ReachableInvariant(l, before, events[..|events| - 1]);
      StepKeepsInvariant(l, before, last);
    }
  }

  /** How often `x` occurs in `s`. */
  function Count(s: seq<RunId>, x: RunId): nat {
    if s == [] then 0 else (if s[0] == x then 1 else 0) + Count(s[1..], x)
  }

  lemma {:induction false} CountConcat(a: seq<RunId>, b: seq<RunId>, x: RunId)
    ensures Count(a + b, x) == Count(a, x) + Count(b, x)
  {
    if a == [] {
      assert a + b == b;
    } else {
      assert (a + b)[1..] == a[1..] + b;
      CountConcat(a[1..], b, x);
    }
  }

  lemma {:induction false} CountUnique(s: seq<RunId>, x: RunId)
    requires NoDuplicates(s)
    ensures Count(s, x) == if x in s then 1 else 0
  {
    if s != [] {
      assert s == [s[0]] + s[1..];
      CountUnique(s[1..], x);
    }
  }

  lemma FateCount(taken: seq<RunId>, started: seq<RunId>, cancelled: seq<RunId>, queue: seq<RunId>, r: RunId)
    requires NoDuplicates(taken) && taken == started + cancelled + queue
    ensures Count(started, r) + Count(cancelled, r) + Count(queue, r) == if r in taken then 1 else 0
    ensures r in started ==> Count(started, r) == 1
  {
    CountUnique(taken, r);
    CountConcat(started + cancelled, queue, r);
    CountConcat(started, cancelled, r);
    if r in started {
      assert started == taken[..|started|];
      CountUnique(started, r);
    }
  }

  /** Every admitted run is queued, started or cancelled, exactly one of these and exactly once;
      started runs are active or finished; a run never admitted is in none. */
  lemma ExactlyOneFate(l: Limits, sys: System, events: seq<Event>, r: RunId)
    requires Reachable(l, sys, events)
    ensures Count(sys.started, r) + Count(sys.cancelled, r) + Count(sys.s.queue, r) == if r in sys.taken then 1 else 0
    ensures r in sys.finished ==> Count(sys.started, r) == 1
    ensures sys.s.active == |Elements(sys.started) - sys.finished|
  {
    ReachableInvariant(l, sys, events);
    ActiveCount(sys);
    FateCount(sys.taken, sys.started, sys.cancelled, sys.s.queue, r);
    assert r in sys.finished ==> r in Elements(sys.started);
  }

  /** Starts are FIFO: in every reachable state the started runs are the first admitted ones, in order. */
  lemma StartsAreFifo(l: Limits, sys: System, events: seq<Event>)
    requires Reachable(l, sys, events)
    ensures sys.started <= sys.taken
  {
    ReachableInvariant(l, sys, events);
    assert sys.taken == sys.started + (sys.cancelled + sys.s.queue);
  }

  lemma StepAccepts(l: Limits, sys: System, e: Event)
    requires Enabled(sys, e)
    ensures Step(l, sys, e).s.accepting <==> sys.s.accepting && !e.StopAccepting?
  {
    hide Startable, Released, HasRoom;
  }

  /** The scheduler takes runs until it is told to stop, and never again. */
  lemma {:induction false} AcceptsUntilStopped(l: Limits, sys: System, events: seq<Event>)
    requires Reachable(l, sys, events)
    ensures sys.s.accepting <==> StopAccepting !in events
    decreases |events|
  {
    hide Step, Enabled;
    if events != [] {
      var n := |events| - 1;
      var before :| Reachable(l, before, events[..n]) && Enabled(before, events[n])
          && sys == Step(l, before, events[n]);
      AcceptsUntilStopped(l, before, events[..n]);
      StepAccepts(l, before, events[n]);
      assert events == events[..n] + [events[n]];
    }
  }

  /** A new run is refused exactly when the scheduler has been stopped or the runs it took and that neither finished
      nor were cancelled fill all slots and the queue; a refusal changes nothing, and a run that is taken waits at the
      end of the queue for a drain that is on its way. */
  lemma RefusedExactly(l: Limits, sys: System, events: seq<Event>, r: RunId)
    requires Reachable(l, sys, events) && r !in sys.taken
    ensures var unfinished := |sys.taken| - |sys.finished| - |sys.cancelled|;
            var after := Step(l, sys, Enqueue(r));
            if StopAccepting in events || unfinished >= l.concurrency + l.maxQueuedRuns then after == sys
            else
              && after.taken == sys.taken + [r] && after.s.queue == sys.s.queue + [r] && after.s.drainScheduled
              && after.started == sys.started && after.cancelled == sys.cancelled && after.finished == sys.finished
  {
    ReachableInvariant(l, sys, events);
    AcceptsUntilStopped(l, sys, events);
  }

  /** Stopping cancels what has not started: from then on every run ever taken was started or cancelled. */
  lemma StoppedCancelsTheRest(l: Limits, sys: System, events: seq<Event>)
    requires Reachable(l, sys, events) && StopAccepting in events
    ensures sys.taken == sys.started + sys.cancelled && sys.s.queue == []
  {
    ReachableInvariant(l, sys, events);
    AcceptsUntilStopped(l, sys, events);
  }

  /** A step releases a waiter only into an idle scheduler: no slot taken and nothing queued. */
  lemma ReleasedOnlyWhenIdle(l: Limits, sys: System, e: Event, w: WaiterId)
    requires Invariant(l, sys) && Enabled(sys, e)
    requires w !in sys.released && w in Step(l, sys, e).released
    ensures Idle(Step(l, sys, e).s)
  {}

  /** The turns a waiter hopes for. */
  predicate Serves(e: Event) {
    e.Immediate? || e.Finish? || e.CancellationsSettled?
  }

  function ServingRank(sys: System): nat {
    2 * |sys.s.queue| + sys.s.active + (if sys.s.drainScheduled then 1 else 0) + sys.unfinishedStops
  }

  /** While anyone waits, a turn that serves waiters can run. */
  lemma WaitersAreServed(l: Limits, sys: System, events: seq<Event>) returns (e: Event)
    requires Reachable(l, sys, events) && l.concurrency > 0 && sys.s.idleWaiters != {}
    ensures Serves(e) && Enabled(sys, e)
  {
    ReachableInvariant(l, sys, events);
    if sys.s.active > 0 {
      ActiveCount(sys);
      var running := Elements(sys.started) - sys.finished;
      assert running != {};
      var r :| r in running;
      e := Finish(r);
    } else {
      e := if sys.s.queue == [] then CancellationsSettled else Immediate;
    }
  }

  /** Such a turn brings the release nearer. */
  lemma ServingLowersRank(l: Limits, sys: System, e: Event)
    requires Invariant(l, sys) && Enabled(sys, e) && Serves(e)
    ensures ServingRank(Step(l, sys, e)) < ServingRank(sys)
  {
    hide Released, NoDuplicates;
    if e.Finish? { StepConserves(l, sys, e); FinishingIsActive(l, sys, e); }
    DrainLength(l, sys.s);
    QueueOfDrain(l, sys.s.(drainScheduled := false));
    QueueOfDrain(l, sys.s.(active := Less1(sys.s.active)));
  }

  lemma FinishingIsActive(l: Limits, sys: System, e: Event)
    requires Conserved(sys) && e.Finish? && Enabled(sys, e)
    ensures sys.s.active > 0
  {
    ActiveCount(sys);
    assert e.run in Elements(sys.started) - sys.finished;
  }

  lemma DrainLength(l: Limits, s: Sched)
    ensures |Filled(l, s).queue| + Startable(l, s) == |s.queue|
  {}

  lemma QueueOfDrain(l: Limits, s: Sched)
    ensures var t := AfterDrain(l, s);
            && t.active + |t.queue| == s.active + |s.queue|
            && |t.queue| <= |s.queue| && t.drainScheduled == s.drainScheduled
  {}

  /** The state after a series of turns; None when one of them could not run. */
  function RunAll(l: Limits, sys: System, more: seq<Event>): Option<System>
    decreases |more|
  {
    if more == [] then Some(sys)
    else
      var before := RunAll(l, sys, more[..|more| - 1]);
      var e := more[|more| - 1];
      if before.Some? && Enabled(before.value, e) then Some(Step(l, before.value, e)) else None
  }

  /** Nobody waits for ever: left to itself the scheduler can take at most `ServingRank` turns that serve waiters, and
      when it can take no more, every caller of `onIdle` has been released. */
  lemma {:induction false} EveryWaiterReleased(l: Limits, sys: System, events: seq<Event>, more: seq<Event>)
    requires Reachable(l, sys, events) && l.concurrency > 0
    requires RunAll(l, sys, more).Some? && forall i :: 0 <= i < |more| ==> Serves(more[i])
    ensures var last := RunAll(l, sys, more).value;
            && |more| + ServingRank(last) <= ServingRank(sys)
            && Reachable(l, last, events + more)
            && ((forall e :: Serves(e) ==> !Enabled(last, e)) ==>
                last.s.idleWaiters == {} && last.released == last.asked)
    decreases |more|
  {
    hide Step, Enabled, ServingRank, Invariant;
    var last := RunAll(l, sys, more).value;
    if more == [] {
      assert events + more == events;
    } else {
      var n := |more| - 1;
      var before := RunAll(l, sys, more[..n]).value;
      EveryWaiterReleased(l, sys, events, more[..n]);
      assert (events + more)[..|events| + n] == events + more[..n] && (events + more)[|events| + n] == more[n];
      ReachableInvariant(l, before, events + more[..n]);
      ServingLowersRank(l, before, more[n]);
      assert Reachable(l, before, (events + more)[..|events + more| - 1]) && last == Step(l, before, more[n]);
      assert Reachable(l, last, events + more);
    }
    ReachableInvariant(l, last, events + more);
    AllReleased(l, last);
    if last.s.idleWaiters != {} {
      var e := WaitersAreServed(l, last, events + more);
    }
  }

  lemma AllReleased(l: Limits, sys: System)
    requires Invariant(l, sys)
    ensures sys.s.idleWaiters == {} ==> sys.released == sys.asked
  {}
}
