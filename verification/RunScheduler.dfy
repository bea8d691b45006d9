// `RunScheduler`: a bounded FIFO queue in front of a fixed number of slots.
// The class is the code; `Sched` is its abstract value, one function per JavaScript turn.
module Scheduling {
  import opened Ids

  type WaiterId = nat

  datatype Limits = Limits(concurrency: nat, maxQueuedRuns: nat)

  datatype Sched = Sched(
    accepting: bool,
    active: nat,
    queue: seq<RunId>,
    idleWaiters: set<WaiterId>,
    drainScheduled: bool)

  const FRESH: Sched := Sched(true, 0, [], {}, false)

  predicate HasRoom(l: Limits, s: Sched) {
    s.active + |s.queue| < l.concurrency + l.maxQueuedRuns
  }

  predicate Idle(s: Sched) {
    s.active == 0 && s.queue == []
  }

  /** How many queued runs a drain starts: as many as there are free slots, none after a stop. */
  function Startable(l: Limits, s: Sched): (n: nat)
    ensures n <= |s.queue|
  {
    if !s.accepting || s.active >= l.concurrency then 0
    else if |s.queue| <= l.concurrency - s.active then |s.queue|
    else l.concurrency - s.active
  }

  function ResolveIdle(s: Sched): Sched {
    if Idle(s) then s.(idleWaiters := {}) else s
  }

  function Released(s: Sched): set<WaiterId> {
    if Idle(s) then s.idleWaiters else {}
  }

  function Started(l: Limits, s: Sched): seq<RunId> {
    s.queue[..Startable(l, s)]
  }

  /** The state after the starts of a drain, before waiters are looked at. */
  function Filled(l: Limits, s: Sched): Sched {
    s.(active := s.active + Startable(l, s), queue := s.queue[Startable(l, s)..])
  }

  function AfterDrain(l: Limits, s: Sched): Sched {
    ResolveIdle(Filled(l, s))
  }

  predicate Admits(l: Limits, s: Sched) {
    s.accepting && HasRoom(l, s)
  }

  function AfterEnqueue(l: Limits, s: Sched, run: RunId): Sched {
    if Admits(l, s) then s.(queue := s.queue + [run], drainScheduled := true) else s
  }

  /** The synchronous part of `stopAccepting`; the whole queue is cancelled. */
  function AfterStop(s: Sched): Sched {
    s.(accepting := false, queue := [])
  }

  function AfterOnIdle(s: Sched, w: WaiterId): Sched {
    if Idle(s) then s else s.(idleWaiters := s.idleWaiters + {w})
  }

  /** The `setImmediate` callback. */
  function AfterImmediate(l: Limits, s: Sched): Sched {
    AfterDrain(l, s.(drainScheduled := false))
  }

  /** The `finally` handler of a run. */
  function AfterFinish(l: Limits, s: Sched): Sched
    requires s.active > 0
  {
    AfterDrain(l, s.(active := s.active - 1))
  }

  function Less1(n: nat): nat {
    if n > 0 then n - 1 else 0
  }

  predicate NoDuplicates(s: seq<RunId>) {
    forall i, j :: 0 <= i < j < |s| ==> s[i] != s[j]
  }

  function Elements(s: seq<RunId>): set<RunId> {
    set r | r in s
  }

  lemma ElementsCount(s: seq<RunId>)
    requires NoDuplicates(s)
    ensures |Elements(s)| == |s|
  {
    if s == [] {
      assert Elements(s) == {};
    } else {
      var n := |s| - 1;
      ElementsCount(s[..n]);
      assert Elements(s) == Elements(s[..n]) + {s[n]};
      assert s[n] !in Elements(s[..n]);
    }
  }

  class RunScheduler {
    const limits: Limits
    var accepting: bool
    var active: nat
    var queue: seq<RunId>
    var idleWaiters: set<WaiterId>
    var drainScheduled: bool

    constructor (limits: Limits)
      ensures this.limits == limits && View() == FRESH
    {
      this.limits := limits;
      accepting, active, queue, idleWaiters, drainScheduled := true, 0, [], {}, false;
    }

    ghost function View(): Sched
      reads this
    {
      Sched(accepting, active, queue, idleWaiters, drainScheduled)
    }

    method HasCapacity() returns (room: bool)
      ensures room == HasRoom(limits, View())
    {
      room := active + |queue| < limits.concurrency + limits.maxQueuedRuns;
    }

    method Enqueue(run: RunId) returns (admitted: bool)
      modifies this
      ensures admitted == Admits(limits, old(View()))
      ensures View() == AfterEnqueue(limits, old(View()), run)
    {
      var room := HasCapacity();
      if !accepting || !room { return false; }
      queue := queue + [run];
      ScheduleDrain();
      return true;
    }

    method ScheduleDrain()
      modifies this`drainScheduled
      ensures drainScheduled
    {
      if drainScheduled { return; }
      drainScheduled := true;
    }

    /** The runs whose `cancel` is called, in order; their promises settle later. */
    method StopAccepting() returns (cancelled: seq<RunId>)
      modifies this
      ensures cancelled == old(queue)
      ensures View() == AfterStop(old(View()))
    {
      accepting := false;
      cancelled := queue;
      queue := [];
    }

    /** The rest of `stopAccepting`, once every cancellation has settled. */
    method CancellationsSettled() returns (released: set<WaiterId>)
      modifies this
      ensures released == Released(old(View()))
      ensures View() == ResolveIdle(old(View()))
    {
      released := ResolveIdleWaiters();
    }

    /** True when the returned promise is already resolved; otherwise the waiter is registered. */
    method OnIdle(w: WaiterId) returns (resolved: bool)
      modifies this
      ensures resolved == Idle(old(View()))
      ensures View() == AfterOnIdle(old(View()), w)
    {
      if active == 0 && |queue| == 0 { return true; }
      idleWaiters := idleWaiters + {w};
      return false;
    }

    method Immediate() returns (started: seq<RunId>, released: set<WaiterId>)
      modifies this
      ensures var s := old(View()).(drainScheduled := false);
              && started == Started(limits, s)
              && released == Released(Filled(limits, s))
              && View() == AfterImmediate(limits, old(View()))
    {
      drainScheduled := false;
      started, released := Drain();
    }

    method Finish() returns (started: seq<RunId>, released: set<WaiterId>)
      requires active > 0
      modifies this
      ensures var s := old(View()).(active := old(active) - 1);
              && started == Started(limits, s)
              && released == Released(Filled(limits, s))
              && View() == AfterFinish(limits, old(View()))
    {
      active := active - 1;
      started, released := Drain();
      var more := ResolveIdleWaiters();
      released := released + more;
    }

    method Drain() returns (started: seq<RunId>, released: set<WaiterId>)
      modifies this
      ensures started == Started(limits, old(View()))
      ensures released == Released(Filled(limits, old(View())))
      ensures View() == AfterDrain(limits, old(View()))
    {
      started := [];
      ghost var before := View();
      while accepting && active < limits.concurrency && |queue| > 0
        invariant |started| <= Startable(limits, before)
        invariant started == before.queue[..|started|]
        invariant View() == before.(active := before.active + |started|, queue := before.queue[|started|..])
        decreases |queue|
      {
        started := started + [queue[0]];
        queue := queue[1..];
        active := active + 1;
      }
      released := ResolveIdleWaiters();
    }

    method ResolveIdleWaiters() returns (released: set<WaiterId>)
      modifies this
      ensures released == Released(old(View()))
      ensures View() == ResolveIdle(old(View()))
    {
      if active != 0 || |queue| != 0 { return {}; }
      released := idleWaiters;
      idleWaiters := {};
    }
  }
}
