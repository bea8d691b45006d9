// Shutdown: no `waitForDrain` finishes while work of the scheduler's runs is outstanding.
module WorkerShutdown {
  import opened Ids
  import opened Wrappers
  import opened Scheduling
  import opened Idempotency
  import opened WorkerProtocol
  import opened WorkerInvariants

  /** A turn that leaves the stop protocol where it is and only lets runs get nearer to their end. */
  ghost predicate Continues(w: World, v: World) {
    && v.graceful == w.graceful && v.forced == w.forced && v.cancelledSettled == w.cancelledSettled
    && v.sched.accepting == w.sched.accepting
    && (v.sched.idleWaiters == w.sched.idleWaiters || Idle(v.sched))
    && (!w.sched.accepting && Idle(w.sched) ==> Idle(v.sched))
    && (forall r :: r in v.runs ==> RunContinues(w, v, r))
  }

  ghost predicate RunContinues(w: World, v: World, r: RunId)
    requires r in v.runs
  {
    if r !in w.runs then v.runs[r].owner != ByStop && (!w.sched.accepting ==> v.runs[r].owner == ByHandler)
    else
      && v.runs[r].owner == w.runs[r].owner
      && (w.runs[r].phase == Done ==> v.runs[r].phase == Done)
      && (RunOver(w, r) ==> RunOver(v, r))
  }

  lemma ContinuingKeepsStop(w: World, v: World)
    requires StopInv(w) && Continues(w, v)
    ensures StopInv(v)
  {
    forall d | d == w.graceful || d == w.forced ensures DrainInv(v, d) {
      if d.Drained? {
        assert !w.sched.accepting;
        forall r | r in v.runs && v.runs[r].owner != ByHandler ensures RunOver(v, r) { assert RunContinues(w, v, r); }
      }
    }
    if w.cancelledSettled {
      forall r | r in v.runs && v.runs[r].owner == ByStop ensures v.runs[r].phase == Done {
        assert RunContinues(w, v, r);
      }
    }
  }

  lemma RunStepContinues(w: World, e: Turn)
    requires TrackInv(w) && OfOneRun(e) && e.run in w.runs && RunEnabled(w.runs[e.run], e)
    ensures Continues(w, RunStep(w, e))
  {
    hide AfterUpdate, WorkAfter, RunAfter, Emits, Writes, RunEnabled;
    var v := RunStep(w, e);
    WorkOfRun(w, e);
    OwnerStays(w.runs[e.run], e, w.now, w.nextEvent);
    forall r | r in v.runs ensures RunContinues(w, v, r) {
      assert Tracked(w.runs[r], r, w.callbackWork, w.nextEvent);
    }
  }

  /** No delivery of an event ends in this turn, and a new one has a fresh number. */
  lemma WorkOfRun(w: World, e: Turn)
    requires OfOneRun(e)
    ensures forall n: nat :: EventDelivery(n) in WorkAfter(w, e) ==>
            EventDelivery(n) in w.callbackWork || n == w.nextEvent
  {}

  lemma OwnerStays(run: Run, e: Turn, now: int, nextEvent: nat)
    requires OfOneRun(e) && RunEnabled(run, e)
    ensures RunAfter(run, e, now, nextEvent).owner == run.owner && run.phase != Done
  {}

  lemma FillContinues(c: Config, w: World)
    requires QueueInv(w)
    ensures Continues(w, Fill(c, w))
  {
    var started, rest := FillSplits(c, w);
    var v := Fill(c, w);
    assert v.graceful == w.graceful && v.forced == w.forced && v.cancelledSettled == w.cancelledSettled;
    assert v.sched.idleWaiters == w.sched.idleWaiters || Idle(v.sched);
    assert v.callbackWork == w.callbackWork;
    hide Fill;
    forall r | r in v.runs ensures RunContinues(w, v, r) {
      if r in started {
        assert r in w.sched.queue;
        assert InPhase(w, r, Waiting);
      }
    }
  }

  lemma VacatedContinues(w: World, r: RunId)
    requires QueueInv(w) && Enabled(w, SlotReleased(r))
    ensures Continues(w, Vacated(w, r))
  {
    assert r in w.slots;
    assert w.sched.active > 0;
  }

  lemma TrackEventContinues(w: World)
    requires TrackInv(w)
    ensures Continues(w, TrackEvent(w))
  {
    forall r | r in w.runs ensures RunContinues(w, TrackEvent(w), r) {
      assert Tracked(w.runs[r], r, w.callbackWork, w.nextEvent);
    }
  }

  lemma AcceptContinues(c: Config, w: World, rec: Rec, r: RunId)
    requires r !in w.runs
    ensures Continues(w, Accept(c, w, rec, r))
  {
    hide AfterUpdate;
    var v := Accept(c, w, rec, r);
    forall q | q in v.runs ensures RunContinues(w, v, q) {}
  }

  lemma ContinuesCompose(u: World, v: World, w: World)
    requires Continues(u, v) && Continues(v, w)
    requires v.runs.Keys <= w.runs.Keys && u.runs.Keys <= v.runs.Keys
    requires v.sched.idleWaiters == u.sched.idleWaiters
    ensures Continues(u, w)
  {
    forall r | r in w.runs ensures RunContinues(u, w, r) {
      assert RunContinues(v, w, r);
      if r in v.runs { assert RunContinues(u, v, r); }
    }
  }

  lemma HandleContinues(c: Config, w: World, id: InvocationId, f: Fingerprint, r: RunId, sent: bool)
    requires TrackInv(w) && r !in w.runs
    ensures Continues(w, Handle(c, w, id, f, r, sent))
  {
    hide Decide;
    hide RecordsAfter;
    hide Accept;
    hide TrackInv;
    hide TrackEvent;
    var w1 := w.(records := RecordsAfter(c, w, id, f, r), log := w.log + [Entry(w.now, id, f, Decide(c, w, id, f, r))]);
    if Decide(c, w, id, f, r).Ran? {
      var rec := NewRecord(id, f, r, w.now, w.now);
      var w2 := Accept(c, w1, rec, r);
      TrackUnchanged(w, w1);
      AcceptKeepsTrack(c, w1, rec, r);
      AcceptContinues(c, w1, rec, r);
      TrackEventContinues(w2);
      AcceptKeys(c, w1, rec, r);
      ContinuesCompose(w1, w2, TrackEvent(w2));
      assert Continues(w, w1);
      ContinuesCompose(w, w1, w2);
      ContinuesCompose(w, w1, TrackEvent(w2));
    }
  }

  lemma AcceptKeys(c: Config, w: World, rec: Rec, r: RunId)
    ensures Accept(c, w, rec, r).runs.Keys == w.runs.Keys + {r}
    ensures TrackEvent(Accept(c, w, rec, r)).runs.Keys == w.runs.Keys + {r}
    ensures Accept(c, w, rec, r).sched.idleWaiters == w.sched.idleWaiters
    ensures TrackEvent(Accept(c, w, rec, r)).sched.idleWaiters == w.sched.idleWaiters
  {
    hide AfterUpdate;
  }

  lemma BeginShutdownStops(w: World)
    requires StopInv(w) && w.graceful.Unentered?
    ensures StopInv(BeginShutdown(w))
  {}

  /** When a drain wakes up to an empty `callbackWork`, every run of the scheduler is over. */
  lemma EmptyWorkMeansOver(w: World, d: Drain)
    requires RunsInv(w) && QueueInv(w) && TrackInv(w) && StopInv(w)
    requires (d == w.graceful || d == w.forced) && Wakeable(w, d)
    requires w.callbackWork == {}
    ensures forall r :: r in w.runs && w.runs[r].owner != ByHandler ==> RunOver(w, r)
  {
    assert w.slots == {};
    forall r | r in w.runs && w.runs[r].owner != ByHandler ensures RunOver(w, r) {
      RunOf(w, r);
      assert Tracked(w.runs[r], r, w.callbackWork, w.nextEvent);
      assert r in w.sched.queue <==> InPhase(w, r, Waiting);
    }
  }

  lemma WakingKeepsStop(c: Config, w: World, e: Turn)
    requires RunsInv(w) && QueueInv(w) && TrackInv(w) && StopInv(w) && Enabled(w, e)
    requires e.GracefulWakes? || e.ForcedWakes?
    ensures StopInv(Step(c, w, e))
  {
    hide RunEnabled, RunStep, Handle, Fill, Vacated, BeginShutdown, TrackEvent, Swept, AfterOnIdle, ResolveIdle;
    var d := if e.GracefulWakes? then w.graceful else w.forced;
    if w.callbackWork == {} { EmptyWorkMeansOver(w, d); }
    var v := Step(c, w, e);
    assert Idle(w.sched) && !w.sched.accepting;
    assert v.runs == w.runs && v.sched == w.sched && v.callbackWork == w.callbackWork;
    forall r | r in w.runs && RunOver(w, r) ensures RunOver(v, r) {}
  }

  /** Runs, scheduler and drains stay; tracked work may only go. */
  lemma NothingMoves(w: World, v: World)
    requires v.runs == w.runs && v.sched == w.sched && v.callbackWork <= w.callbackWork
    requires v.graceful == w.graceful && v.forced == w.forced && v.cancelledSettled == w.cancelledSettled
    ensures Continues(w, v)
  {
    forall r | r in v.runs ensures RunContinues(w, v, r) {}
  }

  lemma AsideContinues(c: Config, w: World, e: Turn)
    requires Aside(e) && !e.EventEmitted? && !e.CancellationsSettle? && !e.GraceExpires? && !e.GracefulWakes?
             && !e.ForcedWakes?
    ensures Continues(w, AsideStep(c, w, e))
  {
    hide Swept, Woken, TrackEvent, AfterOnIdle, ResolveIdle, Continues;
    NothingMoves(w, AsideStep(c, w, e));
  }

  lemma EmittedStep(c: Config, w: World, e: Turn)
    requires e.EventEmitted?
    ensures AsideStep(c, w, e) == TrackEvent(w)
  {
    hide TrackEvent;
  }

  lemma StepKeepsStop(c: Config, w: World, e: Turn)
    requires ProtocolInv(w) && Enabled(w, e)
    ensures StopInv(Step(c, w, e))
  {
    hide RunsInv, QueueInv, TrackInv, StopInv, Fill, Handle, BeginShutdown, RunStep, TrackEvent, Vacated, AsideStep;
    hide Step, Continues;
    StepByKind(c, w, e);
    var v := Step(c, w, e);
    if OfOneRun(e) {
      RunStepContinues(w, e);
      ContinuingKeepsStop(w, v);
    } else if e.HandlerTurn? {
      HandleContinues(c, w, e.id, e.fingerprint, e.run, e.acceptedSent);
      ContinuingKeepsStop(w, v);
    } else if e.ImmediateFires? {
      var w1 := w.(sched := w.sched.(drainScheduled := false));
      ImmediateContinues(w);
      NoRunChanges(w, w1);
      ContinuingKeepsStop(w, w1);
      FillContinues(c, w1);
      ContinuingKeepsStop(w1, v);
    } else if e.SlotReleased? {
      VacatedContinues(w, e.run);
      VacatedKeeps(w, e.run);
      ContinuingKeepsStop(w, Vacated(w, e.run));
      FillContinues(c, Vacated(w, e.run));
      ContinuingKeepsStop(Vacated(w, e.run), v);
    } else if e.EventEmitted? {
      TrackEventContinues(w);
      ContinuingKeepsStop(w, TrackEvent(w));
      EmittedStep(c, w, e);
    } else if e.GracefulWakes? || e.ForcedWakes? {
      WakingKeepsStop(c, w, e);
    } else if e.ShutdownBegins? {
      BeginShutdownStops(w);
    } else if e.StopCalled? {
      StopByLife(c, w, e);
      LifeChangeKeepsStop(w, Stopping);
      LifeChangeKeepsStop(w, Stopped);
      if w.life == Serving { BeginShutdownStops(w.(life := Stopping)); }
    } else if e.CancellationsSettle? || e.GraceExpires? {
      StopStepKeepsStop(c, w, e);
    } else {
      AsideContinues(c, w, e);
      ContinuingKeepsStop(w, v);
    }
  }

  lemma ImmediateContinues(w: World)
    ensures Continues(w, w.(sched := w.sched.(drainScheduled := false)))
  {}

  lemma LifeChangeKeepsStop(w: World, life: Lifecycle)
    requires StopInv(w)
    ensures StopInv(w.(life := life))
  {
    assert Continues(w, w.(life := life));
    ContinuingKeepsStop(w, w.(life := life));
  }

  lemma StopStepKeepsStop(c: Config, w: World, e: Turn)
    requires StopInv(w) && Enabled(w, e) && (e.CancellationsSettle? || e.GraceExpires?)
    ensures StopInv(Step(c, w, e))
  {
    var v := Step(c, w, e);
    assert v.runs == w.runs && v.callbackWork == w.callbackWork;
    forall r | r in w.runs && RunOver(w, r) ensures RunOver(v, r) {}
  }

  ghost predicate SameLife(w: World, v: World) {
    && v.life == w.life && v.bound == w.bound && v.served == w.served
    && v.graceful == w.graceful && v.forced == w.forced
    && (v.runs.Keys == w.runs.Keys || w.served)
  }

  lemma SameLifeKeeps(w: World, v: World)
    requires LifeInv(w) && SameLife(w, v)
    ensures LifeInv(v)
  {
    if !w.served {
      assert v.runs.Keys == {};
      assert v.runs == map[];
    }
  }

  lemma RunStepSameLife(w: World, e: Turn)
    requires OfOneRun(e) && e.run in w.runs
    ensures SameLife(w, RunStep(w, e))
  {
    hide AfterUpdate, RunAfter, WorkAfter, Writes, Emits;
    assert RunStep(w, e).runs.Keys == w.runs.Keys;
  }

  lemma HandleSameLife(c: Config, w: World, id: InvocationId, f: Fingerprint, r: RunId, sent: bool)
    requires w.served
    ensures SameLife(w, Handle(c, w, id, f, r, sent))
  {
    hide AfterUpdate, Decide, RecordsAfter, NewRecord;
  }

  lemma FillSameLife(c: Config, w: World, v: World)
    requires SameLife(w, v) && v.runs.Keys == w.runs.Keys
    ensures SameLife(w, Fill(c, v))
  {
    hide AfterDrain, Started;
    assert Fill(c, v).runs.Keys == v.runs.Keys;
  }

  lemma StepKeepsLife(c: Config, w: World, e: Turn)
    requires LifeInv(w) && StopInv(w) && Enabled(w, e)
    ensures LifeInv(Step(c, w, e))
  {
    hide RunStep, Handle, Fill, Vacated, BeginShutdown, AsideStep, SameLife, Step, StopInv;
    StepByKind(c, w, e);
    if OfOneRun(e) {
      RunStepSameLife(w, e);
      SameLifeKeeps(w, RunStep(w, e));
    } else if e.HandlerTurn? {
      HandleSameLife(c, w, e.id, e.fingerprint, e.run, e.acceptedSent);
      SameLifeKeeps(w, Step(c, w, e));
    } else if e.ImmediateFires? {
      DrainedSameLife(c, w);
      SameLifeKeeps(w, Step(c, w, e));
    } else if e.SlotReleased? {
      VacatedSameLife(w, e.run);
      FillSameLife(c, w, Vacated(w, e.run));
      SameLifeKeeps(w, Step(c, w, e));
    } else if e.StopCalled? {
      StopByLife(c, w, e);
      BeginShutdownKeys(w.(life := Stopping));
    } else if e.ShutdownBegins? {
      BeginShutdownKeys(w);
    } else {
      AsideKeepsLife(c, w, e);
    }
  }

  lemma DrainedSameLife(c: Config, w: World)
    ensures SameLife(w, Fill(c, w.(sched := w.sched.(drainScheduled := false))))
  {
    FillSameLife(c, w, w.(sched := w.sched.(drainScheduled := false)));
  }

  lemma VacatedSameLife(w: World, r: RunId)
    requires r in w.runs
    ensures SameLife(w, Vacated(w, r)) && Vacated(w, r).runs.Keys == w.runs.Keys
  {}

  lemma BeginShutdownKeys(w: World)
    ensures BeginShutdown(w).runs.Keys == w.runs.Keys
    ensures var v := BeginShutdown(w);
            && v.life == w.life && v.served == w.served && v.bound == w.bound
            && v.forced == w.forced && v.graceful.AwaitingIdle?
    ensures w.runs == map[] ==> BeginShutdown(w).runs == map[]
  {}

  lemma AsideKeepsLife(c: Config, w: World, e: Turn)
    requires LifeInv(w) && StopInv(w) && Enabled(w, e) && Aside(e)
    ensures LifeInv(AsideStep(c, w, e))
  {
    hide RunEnabled, Swept, AfterOnIdle, ResolveIdle;
  }

  lemma StepKeepsProtocol(c: Config, w: World, e: Turn)
    requires ProtocolInv(w) && Enabled(w, e)
    ensures ProtocolInv(Step(c, w, e))
  {
    StepKeepsQueue(c, w, e);
    StepKeepsTrack(c, w, e);
    StepKeepsStop(c, w, e);
    StepKeepsLife(c, w, e);
  }

  lemma {:induction false} ReachableProtocol(c: Config, turns: seq<Turn>)
    requires Execute(c, turns).Some?
    ensures ProtocolInv(Execute(c, turns).value)
    decreases |turns|
  {
    if turns != [] {
      ReachableProtocol(c, turns[..|turns| - 1]);
      StepKeepsProtocol(c, Execute(c, turns[..|turns| - 1]).value, turns[|turns| - 1]);
    }
  }

  // ---- what `stop()` guarantees ---------------------------------------------------------------

  /** When `stop()` has reached "stopped", on either path and for every interleaving, the scheduler is idle
      and every run it ever took has made exactly one result delivery, is over, and has no work left in
      `callbackWork`. Its record is terminal exactly when `asJsonValue` accepted the result, and its
      terminal event was issued exactly when moreover nothing threw after the delivery. */
  lemma OwnedRunsAreDrained(c: Config, turns: seq<Turn>, r: RunId)
    requires Execute(c, turns).Some? && Execute(c, turns).value.life == Stopped
    ensures var w := Execute(c, turns).value;
            r in w.runs && w.runs[r].owner != ByHandler ==>
              && Idle(w.sched) && !w.sched.accepting && w.slots == {}
              && w.runs[r].phase == Done && w.runs[r].deliveries == 1
              && (Terminal(w.runs[r].rec.state) <==> Sendable(w.runs[r].result))
              && (w.runs[r].announced <==> Sendable(w.runs[r].result) && !w.runs[r].hookThrew)
              && Chain(r) !in w.callbackWork
              && (w.runs[r].event.Some? ==> EventDelivery(w.runs[r].event.value) !in w.callbackWork)
  {
    ReachableProtocol(c, turns);
    var w := Execute(c, turns).value;
    if r in w.runs && w.runs[r].owner != ByHandler {
      RunOf(w, r);
      assert w.served;
      var d := if w.graceful.Drained? then w.graceful else w.forced;
      assert DrainInv(w, d) && d.Drained?;
      assert Tracked(w.runs[r], r, w.callbackWork, w.nextEvent);
      assert RunOver(w, r);
    }
  }

  /** A run cancelled by `stop()` always reaches a terminal record: its result is built by the worker itself. */
  lemma CancelledRunsAreTerminal(c: Config, turns: seq<Turn>, r: RunId)
    requires Execute(c, turns).Some? && Execute(c, turns).value.life == Stopped
    requires r in Execute(c, turns).value.runs && Execute(c, turns).value.runs[r].owner == ByStop
    ensures Terminal(Execute(c, turns).value.runs[r].rec.state)
  {
    OwnedRunsAreDrained(c, turns, r);
    ReachableProtocol(c, turns);
    RunOf(Execute(c, turns).value, r);
  }

  // ---- and what it does not ---------------------------------------------------------------------

  lemma ExecuteMore(c: Config, turns: seq<Turn>, w: World, e: Turn)
    requires Execute(c, turns) == Some(w) && Enabled(w, e)
    ensures Execute(c, turns + [e]) == Some(Step(c, w, e))
  {
    assert (turns + [e])[..|turns + [e]| - 1] == turns;
  }

  const SMALL: Config := Config(Limits(1, 1), Options(1000, 10))

  /** Started: the server is bound. */
  lemma BoundWorker() returns (turns: seq<Turn>, w: World)
    ensures Execute(SMALL, turns) == Some(w) && w == START.(life := Serving, served := true, bound := true)
  {
    hide RunEnabled, RunStep, Handle, Fill, Vacated, Swept, Execute, TrackEvent, Woken, Wakeable, BeginShutdown;
    turns, w := [], START;
    NothingExecuted();
    ExecuteMore(SMALL, turns, w, StartCalled);
    turns, w := turns + [StartCalled], Step(SMALL, w, StartCalled);
    ExecuteMore(SMALL, turns, w, BindSucceeded);
    turns, w := turns + [BindSucceeded], Step(SMALL, w, BindSucceeded);
  }

  /** Started, then stopped at once: the server has not closed yet. */
  lemma StoppingWorker() returns (turns: seq<Turn>, w: World)
    ensures Execute(SMALL, turns) == Some(w)
    ensures w == World(0, Stopping, true, true, Sched(false, 0, [], {}, false), {}, map[], map[], {}, 0, true,
                       AwaitingIdle(1), Unentered, false, [])
  {
    hide RunEnabled, RunStep, Handle, Fill, Vacated, Swept, Execute, TrackEvent, Woken, Wakeable;
    turns, w := BoundWorker();
    ExecuteMore(SMALL, turns, w, StopCalled);
    turns, w := turns + [StopCalled], Step(SMALL, w, StopCalled);
    ExecuteMore(SMALL, turns, w, CancellationsSettle);
    turns, w := turns + [CancellationsSettle], Step(SMALL, w, CancellationsSettle);
  }

  lemma NothingExecuted()
    ensures Execute(SMALL, []) == Some(START)
  {}

  /** With nothing left to wait for, a stopping worker stops, whatever its runs are doing. */
  lemma FinishStop(start: seq<Turn>, w: World) returns (turns: seq<Turn>)
    requires Execute(SMALL, start) == Some(w)
    requires w.life == Stopping && w.graceful == AwaitingIdle(1) && w.forced.Unentered? && !w.closed
    requires w.sched.idleWaiters == {} && w.cancelledSettled && w.callbackWork == {}
    ensures Execute(SMALL, turns) == Some(w.(life := Stopped, closed := true, graceful := Drained))
  {
    hide RunEnabled, RunStep, Handle, Fill, Vacated, Swept, Execute, BeginShutdown;
    ExecuteMore(SMALL, start, w, ServerCloses);
    turns := start + [ServerCloses];
    var v := w.(closed := true);
    ExecuteMore(SMALL, turns, v, GracefulWakes);
    turns := turns + [GracefulWakes];
    v := v.(graceful := Drained);
    ExecuteMore(SMALL, turns, v, StopCompletes);
    turns := turns + [StopCompletes];
  }

  /** A request accepted during the stop is answered 202, refused by `enqueue`, and cancelled by its handler
      alone: `stop()` can finish while that delivery is still going on. */
  lemma LateRunMayOutliveStop() returns (turns: seq<Turn>)
    ensures Execute(SMALL, turns).Some?
    ensures var w := Execute(SMALL, turns).value;
            w.life == Stopped && 7 in w.runs && w.runs[7].owner == ByHandler && w.runs[7].phase == Delivering
  {
    hide RunEnabled, RunStep, Handle, Fill, Vacated, Swept, Execute, BeginShutdown;
    var w: World;
    turns, w := StoppingWorker();
    var late := HandlerTurn("a", "f", 7, false);
    LateRequest(w);
    ExecuteMore(SMALL, turns, w, late);
    turns := FinishStop(turns + [late], Step(SMALL, w, late));
  }

  lemma LateRequest(w: World)
    requires w.records == map[] && w.sched == Sched(false, 0, [], {}, false) && w.runs == map[]
    ensures var v := Handle(SMALL, w, "a", "f", 7, false);
            && v.runs.Keys == {7} && v.runs[7].owner == ByHandler && v.runs[7].phase == Delivering
            && v == w.(runs := v.runs, records := v.records, log := v.log)
  {
    assert Decide(SMALL, w, "a", "f", 7) == Ran(7, w.now);
  }
}
