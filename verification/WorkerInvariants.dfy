// What every turn of the Worker keeps.
module WorkerInvariants {
  import opened Ids
  import opened Wrappers
  import opened Scheduling
  import opened Idempotency
  import opened WorkerProtocol

  ghost predicate BeforeDelivery(p: Phase) {
    p == Waiting || p == Picked || p == Executing
  }

  /** One run: its slot, owner, delivery count and record agree with its phase. */
  ghost predicate RunInv(run: Run, r: RunId) {
    && run.rec.runId == r
    && (BeforeDelivery(run.phase) ==> run.result.None?)
    && (run.slot ==> run.owner == BySlot && run.phase != Waiting)
    && (run.phase == Picked || run.phase == Executing ==> run.slot)
    && (run.owner != BySlot ==> run.result.None? && Delivery(run.phase))
    && run.deliveries == (if Delivery(run.phase) then 1 else 0)
    && (BeforeDelivery(run.phase) || run.phase == Delivering ==> !Terminal(run.rec.state) && !run.hookThrew)
    && (run.phase == Notifying || run.phase == Announcing ==>
        Sendable(run.result) && Terminal(run.rec.state) && !run.hookThrew)
    && (run.phase == Settled || run.phase == Done ==>
          && (run.announced <==> Sendable(run.result) && !run.hookThrew)
          && (Terminal(run.rec.state) <==> Sendable(run.result)))
    && (run.phase != Settled && run.phase != Done ==> !run.announced)
    && (run.event.Some? ==> run.announced)
  }

  ghost predicate RunsInv(w: World) {
    forall r :: r in w.runs ==> RunInv(w.runs[r], r)
  }

  /** The scheduler's queue and slots are exactly the waiting and the slot-holding runs. */
  ghost predicate QueueInv(w: World) {
    && NoDuplicates(w.sched.queue)
    && (forall r :: r in w.sched.queue <==> InPhase(w, r, Waiting))
    && (forall r :: r in w.slots <==> r in w.runs && w.runs[r].slot)
    && w.sched.active == |w.slots|
    && (!w.sched.accepting ==> w.sched.queue == [])
  }

  /** Follow-up work is tracked exactly as long as the run's chain is not over. */
  ghost predicate TrackInv(w: World) {
    && (forall r :: r in w.runs ==> Tracked(w.runs[r], r, w.callbackWork, w.nextEvent))
    && EventsBelow(w.callbackWork, w.nextEvent)
    && (forall r :: Chain(r) in w.callbackWork ==> r in w.runs)
  }

  ghost predicate Tracked(run: Run, r: RunId, work: set<Work>, nextEvent: nat) {
    && (Chain(r) in work <==> run.owner == BySlot && Delivery(run.phase) && run.phase != Done)
    && (run.event.Some? ==> run.event.value < nextEvent)
  }

  ghost predicate EventsBelow(work: set<Work>, nextEvent: nat) {
    forall n: nat :: EventDelivery(n) in work ==> n < nextEvent
  }

  ghost predicate Passed(w: World, d: Drain) {
    d.Looping? || d.Drained? || (d.AwaitingIdle? && d.waiter !in w.sched.idleWaiters)
  }

  ghost predicate RunOver(w: World, r: RunId)
    requires r in w.runs
  {
    && w.runs[r].phase == Done
    && (w.runs[r].event.Some? ==> EventDelivery(w.runs[r].event.value) !in w.callbackWork)
  }

  ghost predicate DrainInv(w: World, d: Drain) {
    && (d.AwaitingIdle? || d.Looping? || d.Drained? ==> !w.sched.accepting)
    && (Passed(w, d) ==> Idle(w.sched))
    && (d.Looping? || d.Drained? ==> w.cancelledSettled)
    && (d.Drained? ==> forall r :: r in w.runs && w.runs[r].owner != ByHandler ==> RunOver(w, r))
  }

  ghost predicate StopInv(w: World) {
    && DrainInv(w, w.graceful) && DrainInv(w, w.forced)
    && (w.cancelledSettled ==> forall r :: r in w.runs && w.runs[r].owner == ByStop ==> w.runs[r].phase == Done)
    && (w.graceful.Unentered? ==> w.sched.accepting && w.forced.Unentered? && !w.cancelledSettled)
    && (w.graceful.AwaitingIdle? ==> w.graceful.waiter == 1)
    && (w.forced.AwaitingIdle? ==> w.forced.waiter == 2)
  }

  ghost predicate LifeInv(w: World) {
    && (!w.served ==> w.runs == map[])
    && (w.life == Unstarted || w.life == Starting || w.life == Failed ==> !w.served && w.graceful.Unentered?)
    && (w.life == Serving ==> w.graceful.Unentered? && w.bound)
    && (!w.graceful.Unentered? ==> w.bound)
    && (w.life == Stopping && w.graceful.Unentered? ==> !w.served)
    && (w.life == Stopped ==> (w.graceful.Unentered? && !w.served) || w.graceful.Drained? || w.forced.Drained?)
  }

  ghost predicate ProtocolInv(w: World) {
    RunsInv(w) && QueueInv(w) && TrackInv(w) && StopInv(w) && LifeInv(w)
  }

  // ---- the turns by kind -----------------------------------------------------------------

  /** `v` has the runs, slots and queue of `w`. */
  predicate RunsStay(w: World, v: World) {
    && v.runs == w.runs && v.slots == w.slots && v.log == w.log && v.now >= w.now
    && v.sched.queue == w.sched.queue && v.sched.active == w.sched.active && v.sched.accepting == w.sched.accepting
  }

  lemma AsideStays(c: Config, w: World, e: Turn)
    requires Aside(e)
    ensures RunsStay(w, AsideStep(c, w, e))
  {
    hide Woken, Swept;
  }

  lemma AsideWork(c: Config, w: World, e: Turn)
    requires Aside(e)
    ensures !e.Sweep? ==> AsideStep(c, w, e).records == w.records
    ensures !e.EventEmitted? && !e.EventDelivered? ==> AsideStep(c, w, e).callbackWork == w.callbackWork
    ensures !e.EventEmitted? ==> AsideStep(c, w, e).nextEvent == w.nextEvent
  {
    hide Woken, Swept, ResolveIdle, AfterOnIdle;
  }

  lemma StepByKind(c: Config, w: World, e: Turn)
    requires Enabled(w, e)
    ensures Aside(e) ==> Step(c, w, e) == AsideStep(c, w, e)
    ensures OfOneRun(e) ==> e.run in w.runs && RunEnabled(w.runs[e.run], e) && Step(c, w, e) == RunStep(w, e)
    ensures e.HandlerTurn? ==>
              e.run !in w.runs && Step(c, w, e) == Handle(c, w, e.id, e.fingerprint, e.run, e.acceptedSent)
    ensures e.ImmediateFires? ==> Step(c, w, e) == Fill(c, w.(sched := w.sched.(drainScheduled := false)))
    ensures e.SlotReleased? ==> e.run in w.runs && Step(c, w, e) == Fill(c, Vacated(w, e.run))
    ensures e.ShutdownBegins? ==> w.graceful.Unentered? && Step(c, w, e) == BeginShutdown(w)
  {
    hide AsideStep, RunStep, Handle, Fill, Vacated, BeginShutdown, RunEnabled, Wakeable;
  }

  lemma StopByLife(c: Config, w: World, e: Turn)
    requires Enabled(w, e) && e.StopCalled?
    ensures w.life == Serving ==> Step(c, w, e) == BeginShutdown(w.(life := Stopping))
    ensures w.life == Starting ==> Step(c, w, e) == w.(life := Stopping)
    ensures w.life != Serving && w.life != Starting ==>
              (w.life == Unstarted || w.life == Failed) && Step(c, w, e) == w.(life := Stopped)
  {
    hide AsideStep, RunStep, Handle, Fill, Vacated, BeginShutdown, RunEnabled, Wakeable;
  }

  // ---- runs, queue and slots -----------------------------------------------------------

  ghost predicate SameQueue(w: World, v: World) {
    v.sched.queue == w.sched.queue && v.sched.active == w.sched.active && v.slots == w.slots
    && v.sched.accepting == w.sched.accepting
  }

  lemma NoRunChanges(w: World, v: World)
    requires RunsInv(w) && QueueInv(w) && v.runs == w.runs && SameQueue(w, v)
    ensures RunsInv(v) && QueueInv(v)
  {
    assert forall r :: InPhase(w, r, Waiting) == InPhase(v, r, Waiting);
  }

  /** One run moves on, without entering or leaving the queue or a slot. */
  lemma OneRunChanges(w: World, v: World, r: RunId)
    requires RunsInv(w) && QueueInv(w) && SameQueue(w, v)
    requires r in v.runs && v.runs == w.runs[r := v.runs[r]] && RunInv(v.runs[r], r)
    requires v.runs[r].phase != Waiting
    requires r in w.runs ==> w.runs[r].phase != Waiting && v.runs[r].slot == w.runs[r].slot
    requires r !in w.runs ==> !v.runs[r].slot
    ensures RunsInv(v) && QueueInv(v)
  {
    forall q ensures InPhase(w, q, Waiting) == InPhase(v, q, Waiting) {}
  }

  lemma QueueSplit(queue: seq<RunId>, n: nat)
    requires NoDuplicates(queue) && n <= |queue|
    ensures NoDuplicates(queue[..n]) && NoDuplicates(queue[n..])
    ensures forall r :: r in queue <==> (r in queue[..n] || r in queue[n..])
    ensures forall r :: r in queue[..n] ==> r !in queue[n..]
    ensures |Elements(queue[..n])| == n
  {
    assert queue == queue[..n] + queue[n..];
    ElementsCount(queue[..n]);
  }

  lemma FillKeepsRuns(c: Config, w: World)
    requires RunsInv(w) && QueueInv(w)
    ensures RunsInv(Fill(c, w))
  {
    var started := Started(c.limits, w.sched);
    forall r | r in w.runs ensures RunInv(Fill(c, w).runs[r], r) {
      if r in started {
        assert r in w.sched.queue;
        assert InPhase(w, r, Waiting);
      }
    }
  }

  lemma WaitingHasNoSlot(w: World, r: RunId)
    requires RunsInv(w) && InPhase(w, r, Waiting)
    ensures !w.runs[r].slot && w.runs[r].owner == BySlot
  {
    assert RunInv(w.runs[r], r);
  }

  /** A drain moves a prefix of the queue, `started`, into slots. */
  lemma FillSplits(c: Config, w: World) returns (started: seq<RunId>, rest: seq<RunId>)
    ensures started == Started(c.limits, w.sched)
    ensures Moves(w, Fill(c, w), started, rest)
  {
    var n := Startable(c.limits, w.sched);
    started, rest := w.sched.queue[..n], w.sched.queue[n..];
  }

  ghost predicate Moves(w: World, v: World, started: seq<RunId>, rest: seq<RunId>) {
    && w.sched.queue == started + rest
    && v.sched.queue == rest && v.sched.active == w.sched.active + |started|
    && v.sched.accepting == w.sched.accepting && v.slots == w.slots + Elements(started)
    && v.runs.Keys == w.runs.Keys
    && (forall r :: r in w.runs ==>
        v.runs[r] == if r in started then w.runs[r].(phase := Picked, slot := true) else w.runs[r])
  }

  lemma MoveKeepsWaiting(w: World, v: World, started: seq<RunId>, rest: seq<RunId>)
    requires QueueInv(w) && Moves(w, v, started, rest)
    ensures NoDuplicates(rest) && forall r :: r in rest <==> InPhase(v, r, Waiting)
  {
    QueueSplit(w.sched.queue, |started|);
    assert started == w.sched.queue[..|started|] && rest == w.sched.queue[|started|..];
    forall r ensures r in rest <==> InPhase(v, r, Waiting) {
      assert r in w.sched.queue <==> InPhase(w, r, Waiting);
    }
  }

  lemma MoveFillsSlots(w: World, v: World, started: seq<RunId>, rest: seq<RunId>)
    requires RunsInv(w) && QueueInv(w) && Moves(w, v, started, rest)
    ensures (forall r :: r in v.slots <==> r in v.runs && v.runs[r].slot)
    ensures v.sched.active == |v.slots|
  {
    hide RunInv;
    var slots, more := w.slots, Elements(started);
    forall r | r in started ensures r !in slots && r in w.runs {
      assert r in w.sched.queue;
      assert InPhase(w, r, Waiting);
      WaitingHasNoSlot(w, r);
    }
    assert slots !! more;
    QueueSplit(w.sched.queue, |started|);
    assert started == w.sched.queue[..|started|];
    assert |slots + more| == |slots| + |started|;
    forall r ensures r in v.slots <==> r in v.runs && v.runs[r].slot {
      assert r in v.slots <==> r in slots || r in started;
      assert r in slots <==> r in w.runs && w.runs[r].slot;
    }
  }

  lemma FillKeepsQueue(c: Config, w: World)
    requires RunsInv(w) && QueueInv(w)
    ensures QueueInv(Fill(c, w))
  {
    var started, rest := FillSplits(c, w);
    var v := Fill(c, w);
    hide RunInv;
    hide Fill;
    MoveKeepsWaiting(w, v, started, rest);
    MoveFillsSlots(w, v, started, rest);
  }

  lemma FillKeepsBoth(c: Config, w: World)
    requires RunsInv(w) && QueueInv(w)
    ensures RunsInv(Fill(c, w)) && QueueInv(Fill(c, w))
  {
    hide RunsInv;
    hide QueueInv;
    FillKeepsRuns(c, w);
    FillKeepsQueue(c, w);
  }

  lemma BeginShutdownKeepsBoth(w: World)
    requires RunsInv(w) && QueueInv(w)
    ensures RunsInv(BeginShutdown(w)) && QueueInv(BeginShutdown(w))
  {
    var v := BeginShutdown(w);
    assert v.sched.queue == [] && v.sched.active == w.sched.active;
    forall r ensures r in w.sched.queue <==> InPhase(w, r, Waiting) {}
    forall r | r in w.runs
      ensures RunInv(v.runs[r], r) && v.runs[r].phase != Waiting && v.runs[r].slot == w.runs[r].slot
    {
      if r in w.sched.queue { assert RunInv(w.runs[r], r); }
    }
  }

  /** A new run joins the end of the queue. */
  lemma RunJoinsQueue(w: World, v: World, r: RunId)
    requires RunsInv(w) && QueueInv(w) && r !in w.runs && w.sched.accepting
    requires r in v.runs && v.runs == w.runs[r := v.runs[r]] && RunInv(v.runs[r], r) && v.runs[r].phase == Waiting
    requires v.sched.queue == w.sched.queue + [r] && v.sched.active == w.sched.active
    requires v.sched.accepting && v.slots == w.slots
    ensures RunsInv(v) && QueueInv(v)
  {
    assert r !in w.sched.queue by { assert !InPhase(w, r, Waiting); }
    forall q ensures q in v.sched.queue <==> InPhase(v, q, Waiting) {
      assert q in w.sched.queue <==> InPhase(w, q, Waiting);
    }
  }

  lemma AcceptedRun(c: Config, w: World, rec: Rec, r: RunId)
    requires rec.runId == r && rec.state == Accepted
    ensures RunInv(NewRun(rec.(state := Queued, updatedAtMs := w.now), Admits(c.limits, w.sched)), r)
  {
    hide Admits;
  }

  lemma AcceptKeepsBoth(c: Config, w: World, rec: Rec, r: RunId)
    requires RunsInv(w) && QueueInv(w) && r !in w.runs && rec.runId == r && rec.state == Accepted
    ensures RunsInv(Accept(c, w, rec, r)) && QueueInv(Accept(c, w, rec, r))
  {
    hide RunsInv, QueueInv, AfterUpdate, RunInv, HasRoom;
    var v := Accept(c, w, rec, r);
    assert v.runs == w.runs[r := v.runs[r]];
    AcceptedRun(c, w, rec, r);
    if Admits(c.limits, w.sched) {
      RunJoinsQueue(w, v, r);
    } else {
      OneRunChanges(w, v, r);
    }
  }

  lemma HandleKeepsBoth(c: Config, w: World, id: InvocationId, f: Fingerprint, r: RunId, sent: bool)
    requires RunsInv(w) && QueueInv(w) && r !in w.runs
    ensures RunsInv(Handle(c, w, id, f, r, sent)) && QueueInv(Handle(c, w, id, f, r, sent))
  {
    hide RunsInv;
    hide QueueInv;
    hide Accept;
    hide RecordsAfter;
    hide Decide;
    var w1 := w.(records := RecordsAfter(c, w, id, f, r), log := w.log + [Entry(w.now, id, f, Decide(c, w, id, f, r))]);
    NoRunChanges(w, w1);
    if Decide(c, w, id, f, r).Ran? {
      AcceptKeepsBoth(c, w1, NewRecord(id, f, r, w.now, w.now), r);
      NoRunChanges(Accept(c, w1, NewRecord(id, f, r, w.now, w.now), r), Handle(c, w, id, f, r, sent));
    }
  }

  lemma RunOf(w: World, r: RunId)
    requires RunsInv(w) && r in w.runs
    ensures RunInv(w.runs[r], r)
  {}

  lemma SlotReleaseKeepsBoth(c: Config, w: World, r: RunId)
    requires RunsInv(w) && QueueInv(w) && Enabled(w, SlotReleased(r))
    ensures RunsInv(Step(c, w, SlotReleased(r))) && QueueInv(Step(c, w, SlotReleased(r)))
  {
    hide RunsInv, QueueInv, AsideStep, RunStep, Handle, Fill, Vacated, BeginShutdown;
    VacatedKeeps(w, r);
    FillKeepsBoth(c, Vacated(w, r));
  }

  /** One turn of one chain keeps that run coherent. */
  lemma RunTurnKeepsRun(run: Run, r: RunId, e: Turn, now: int, nextEvent: nat)
    requires RunInv(run, r) && OfOneRun(e) && RunEnabled(run, e)
    ensures RunInv(RunAfter(run, e, now, nextEvent), r)
    ensures run.phase != Waiting && RunAfter(run, e, now, nextEvent).phase != Waiting
    ensures RunAfter(run, e, now, nextEvent).slot == run.slot
  {
    hide Sendable;
  }

  lemma RunStepKeepsBoth(c: Config, w: World, e: Turn)
    requires RunsInv(w) && QueueInv(w) && OfOneRun(e) && e.run in w.runs && RunEnabled(w.runs[e.run], e)
    ensures RunsInv(RunStep(w, e)) && QueueInv(RunStep(w, e))
  {
    hide RunsInv;
    hide QueueInv;
    hide RunInv;
    hide RunEnabled;
    hide RunAfter;
    RunOf(w, e.run);
    RunTurnKeepsRun(w.runs[e.run], e.run, e, w.now, w.nextEvent);
    OneRunChanges(w, RunStep(w, e), e.run);
  }

  lemma StepKeepsQueue(c: Config, w: World, e: Turn)
    requires RunsInv(w) && QueueInv(w) && Enabled(w, e)
    ensures RunsInv(Step(c, w, e)) && QueueInv(Step(c, w, e))
  {
    hide RunsInv, QueueInv, Fill, Handle, BeginShutdown, RunStep, Vacated, AsideStep, Step, Enabled;
    StepByKind(c, w, e);
    if Aside(e) {
      AsideStays(c, w, e);
      NoRunChanges(w, AsideStep(c, w, e));
    } else if OfOneRun(e) {
      RunStepKeepsBoth(c, w, e);
    } else if e.HandlerTurn? {
      HandleKeepsBoth(c, w, e.id, e.fingerprint, e.run, e.acceptedSent);
    } else if e.ImmediateFires? {
      var w1 := w.(sched := w.sched.(drainScheduled := false));
      NoRunChanges(w, w1);
      FillKeepsBoth(c, w1);
    } else if e.SlotReleased? {
      SlotReleaseKeepsBoth(c, w, e.run);
    } else if e.StopCalled? {
      StopByLife(c, w, e);
      NoRunChanges(w, w.(life := Stopping));
      NoRunChanges(w, w.(life := Stopped));
      BeginShutdownKeepsBoth(w.(life := Stopping));
    } else {
      BeginShutdownKeepsBoth(w);
    }
  }

  // ---- tracked work ----------------------------------------------------------------------

  lemma MoveKeepsTrack(w: World, v: World, started: seq<RunId>, rest: seq<RunId>)
    requires TrackInv(w) && Moves(w, v, started, rest)
    requires forall r :: r in started ==> InPhase(w, r, Waiting)
    requires v.callbackWork == w.callbackWork && v.nextEvent == w.nextEvent
    ensures TrackInv(v)
  {
    forall r | r in v.runs ensures Tracked(v.runs[r], r, v.callbackWork, v.nextEvent) {
      assert Tracked(w.runs[r], r, w.callbackWork, w.nextEvent);
      if r in started { assert InPhase(w, r, Waiting); }
    }
  }

  lemma FillKeepsTrack(c: Config, w: World)
    requires QueueInv(w) && TrackInv(w)
    ensures TrackInv(Fill(c, w))
  {
    hide TrackInv;
    var started, rest := FillSplits(c, w);
    forall r | r in started ensures InPhase(w, r, Waiting) { assert r in w.sched.queue; }
    MoveKeepsTrack(w, Fill(c, w), started, rest);
  }

  lemma RunStepKeepsTrack(w: World, e: Turn)
    requires RunsInv(w) && TrackInv(w) && OfOneRun(e) && e.run in w.runs && RunEnabled(w.runs[e.run], e)
    ensures TrackInv(RunStep(w, e))
  {
    hide AfterUpdate, RunsInv, Tracked, RunAfter, WorkAfter, RunEnabled, Emits, Writes;
    var v := RunStep(w, e);
    RunOf(w, e.run);
    forall r | r in v.runs ensures Tracked(v.runs[r], r, v.callbackWork, v.nextEvent) {
      assert Tracked(w.runs[r], r, w.callbackWork, w.nextEvent);
      if r == e.run { OwnTrack(w, e); } else { OtherTrack(w, e, r); }
    }
    WorkBelow(w, e);
  }

  lemma OwnTrack(w: World, e: Turn)
    requires OfOneRun(e) && e.run in w.runs && RunEnabled(w.runs[e.run], e) && RunInv(w.runs[e.run], e.run)
    requires Tracked(w.runs[e.run], e.run, w.callbackWork, w.nextEvent)
    ensures Tracked(RunAfter(w.runs[e.run], e, w.now, w.nextEvent), e.run, WorkAfter(w, e),
                    if Emits(e) then w.nextEvent + 1 else w.nextEvent)
  {}

  lemma OtherTrack(w: World, e: Turn, r: RunId)
    requires OfOneRun(e) && r in w.runs && r != e.run && Tracked(w.runs[r], r, w.callbackWork, w.nextEvent)
    ensures Tracked(w.runs[r], r, WorkAfter(w, e), if Emits(e) then w.nextEvent + 1 else w.nextEvent)
  {}

  /** New events get a fresh number, and only a known run's chain is added. */
  lemma WorkBelow(w: World, e: Turn)
    requires OfOneRun(e) && TrackInv(w) && e.run in w.runs
    ensures EventsBelow(WorkAfter(w, e), if Emits(e) then w.nextEvent + 1 else w.nextEvent)
    ensures forall r :: Chain(r) in WorkAfter(w, e) ==> r in w.runs
  {}

  lemma AcceptKeepsTrack(c: Config, w: World, rec: Rec, r: RunId)
    requires TrackInv(w) && r !in w.runs
    ensures TrackInv(Accept(c, w, rec, r))
  {
    hide AfterUpdate;
    hide AfterEnqueue;
    hide Admits;
  }

  lemma TrackEventKeepsTrack(w: World)
    requires TrackInv(w)
    ensures TrackInv(TrackEvent(w))
  {}

  lemma HandleKeepsTrack(c: Config, w: World, id: InvocationId, f: Fingerprint, r: RunId, sent: bool)
    requires TrackInv(w) && r !in w.runs
    ensures TrackInv(Handle(c, w, id, f, r, sent))
  {
    hide Decide;
    hide RecordsAfter;
    hide Accept;
    hide TrackInv;
    hide TrackEvent;
    var w1 := w.(records := RecordsAfter(c, w, id, f, r), log := w.log + [Entry(w.now, id, f, Decide(c, w, id, f, r))]);
    assert TrackInv(w1) by { TrackUnchanged(w, w1); }
    if Decide(c, w, id, f, r).Ran? {
      var rec := NewRecord(id, f, r, w.now, w.now);
      AcceptKeepsTrack(c, w1, rec, r);
      TrackEventKeepsTrack(Accept(c, w1, rec, r));
    }
  }

  lemma TrackUnchanged(w: World, v: World)
    requires TrackInv(w) && v.runs == w.runs && v.callbackWork == w.callbackWork && v.nextEvent == w.nextEvent
    ensures TrackInv(v)
  {}

  lemma BeginShutdownKeepsTrack(w: World)
    requires TrackInv(w) && QueueInv(w)
    ensures TrackInv(BeginShutdown(w))
  {
    var v := BeginShutdown(w);
    forall r | r in v.runs ensures Tracked(v.runs[r], r, v.callbackWork, v.nextEvent) {
      assert Tracked(w.runs[r], r, w.callbackWork, w.nextEvent);
      if r in w.sched.queue { assert InPhase(w, r, Waiting); }
    }
  }

  lemma EventDeliveredKeepsTrack(w: World, n: nat)
    requires TrackInv(w)
    ensures TrackInv(w.(callbackWork := w.callbackWork - {EventDelivery(n)}))
  {
    forall r | r in w.runs ensures Tracked(w.runs[r], r, w.callbackWork - {EventDelivery(n)}, w.nextEvent) {}
  }

  lemma VacatedKeeps(w: World, r: RunId)
    requires RunsInv(w) && QueueInv(w) && Enabled(w, SlotReleased(r))
    ensures RunsInv(Vacated(w, r)) && QueueInv(Vacated(w, r))
    ensures TrackInv(w) ==> TrackInv(Vacated(w, r))
  {
    hide TrackInv, AsideStep, RunEnabled, Wakeable;
    var v := Vacated(w, r);
    assert r in w.slots;
    assert |v.slots| == |w.slots| - 1;
    forall q ensures InPhase(w, q, Waiting) == InPhase(v, q, Waiting) {}
    assert RunsInv(v) by { RunOf(w, r); }
    if TrackInv(w) { VacatedKeepsTrack(w, r); }
  }

  lemma VacatedKeepsTrack(w: World, r: RunId)
    requires TrackInv(w) && r in w.runs
    ensures TrackInv(Vacated(w, r))
  {
    var v := Vacated(w, r);
    forall q | q in v.runs ensures Tracked(v.runs[q], q, v.callbackWork, v.nextEvent) {
      assert Tracked(w.runs[q], q, w.callbackWork, w.nextEvent);
    }
  }

  lemma AsideKeepsTrack(c: Config, w: World, e: Turn)
    requires TrackInv(w) && Aside(e)
    ensures TrackInv(AsideStep(c, w, e))
  {
    hide TrackInv, TrackEvent;
    if e.EventEmitted? {
      TrackEventKeepsTrack(w);
    } else if e.EventDelivered? {
      EventDeliveredKeepsTrack(w, e.event);
    } else {
      hide AsideStep;
      AsideStays(c, w, e);
      AsideWork(c, w, e);
      TrackUnchanged(w, AsideStep(c, w, e));
    }
  }

  lemma StepKeepsTrack(c: Config, w: World, e: Turn)
    requires RunsInv(w) && QueueInv(w) && TrackInv(w) && Enabled(w, e)
    ensures TrackInv(Step(c, w, e))
  {
    hide RunsInv, QueueInv, TrackInv, Fill, Handle, BeginShutdown, RunStep, Vacated, AsideStep, Step;
    StepByKind(c, w, e);
    if Aside(e) {
      AsideKeepsTrack(c, w, e);
    } else if OfOneRun(e) {
      RunStepKeepsTrack(w, e);
    } else if e.HandlerTurn? {
      HandleKeepsTrack(c, w, e.id, e.fingerprint, e.run, e.acceptedSent);
    } else if e.ImmediateFires? {
      var w1 := w.(sched := w.sched.(drainScheduled := false));
      NoRunChanges(w, w1);
      TrackUnchanged(w, w1);
      FillKeepsTrack(c, w1);
    } else if e.SlotReleased? {
      hide Enabled;
      VacatedKeeps(w, e.run);
      FillKeepsTrack(c, Vacated(w, e.run));
    } else if e.StopCalled? {
      StopByLife(c, w, e);
      TrackUnchanged(w, w.(life := Stopping));
      TrackUnchanged(w, w.(life := Stopped));
      NoRunChanges(w, w.(life := Stopping));
      BeginShutdownKeepsTrack(w.(life := Stopping));
    } else {
      BeginShutdownKeepsTrack(w);
    }
  }
}
