// Shutdown cannot get stuck: as long as `stop()` has not finished, some turn that brings
// it nearer is ready to run.
module WorkerProgress {
  import opened Ids
  import opened Wrappers
  import opened Scheduling
  import opened Idempotency
  import ExecuteRun
  import opened WorkerProtocol
  import opened WorkerInvariants
  import opened WorkerShutdown

  /** On an idle scheduler a waiter is left only until the cancellations have settled. */
  ghost predicate WaitersInv(w: World) {
    && (w.graceful.Unentered? ==> w.sched.idleWaiters == {})
    && (Idle(w.sched) && w.sched.idleWaiters != {} ==> !w.cancelledSettled)
  }

  lemma FillKeepsWaiters(c: Config, w: World)
    requires w.graceful.Unentered? ==> w.sched.idleWaiters == {}
    ensures WaitersInv(Fill(c, w))
  {}

  lemma StepKeepsWaiters(c: Config, w: World, e: Turn)
    requires WaitersInv(w) && ProtocolInv(w) && Enabled(w, e)
    ensures WaitersInv(Step(c, w, e))
  {
    hide RunsInv, QueueInv, TrackInv, StopInv, LifeInv, RunStep, Handle, Fill, Vacated, BeginShutdown, AsideStep;
    hide Step, Enabled;
    StepByKind(c, w, e);
    if e.ImmediateFires? {
      FillKeepsWaiters(c, w.(sched := w.sched.(drainScheduled := false)));
    } else if e.SlotReleased? {
      VacatedWaiters(w, e.run);
      FillKeepsWaiters(c, Vacated(w, e.run));
    } else if OfOneRun(e) {
      RunStepWaiters(w, e);
    } else if e.HandlerTurn? {
      HandleWaiters(c, w, e.id, e.fingerprint, e.run, e.acceptedSent);
    } else if Aside(e) {
      AsideKeepsWaiters(c, w, e);
    } else {
      StopKeepsWaiters(c, w, e);
    }
  }

  lemma VacatedWaiters(w: World, r: RunId)
    requires r in w.runs
    ensures Vacated(w, r).graceful == w.graceful && Vacated(w, r).sched.idleWaiters == w.sched.idleWaiters
  {}

  lemma RunStepWaiters(w: World, e: Turn)
    requires OfOneRun(e) && e.run in w.runs
    ensures var v := RunStep(w, e);
            v.graceful == w.graceful && v.sched == w.sched && v.cancelledSettled == w.cancelledSettled
  {
    hide AfterUpdate, RunAfter, WorkAfter, Emits, Writes;
  }

  lemma HandleWaiters(c: Config, w: World, id: InvocationId, f: Fingerprint, r: RunId, sent: bool)
    requires WaitersInv(w)
    ensures WaitersInv(Handle(c, w, id, f, r, sent))
  {
    hide Decide, RecordsAfter, AfterUpdate, NewRecord, HasRoom;
  }

  lemma AsideKeepsWaiters(c: Config, w: World, e: Turn)
    requires WaitersInv(w) && StopInv(w) && Enabled(w, e) && Aside(e)
    ensures WaitersInv(AsideStep(c, w, e))
  {
    hide RunEnabled, Swept;
  }

  lemma StopKeepsWaiters(c: Config, w: World, e: Turn)
    requires WaitersInv(w) && StopInv(w) && LifeInv(w) && Enabled(w, e) && (e.StopCalled? || e.ShutdownBegins?)
    ensures WaitersInv(Step(c, w, e))
  {
    hide RunStep, Handle, Fill, AsideStep;
  }

  lemma {:induction false} ReachableWaiters(c: Config, turns: seq<Turn>)
    requires Execute(c, turns).Some?
    ensures WaitersInv(Execute(c, turns).value)
    decreases |turns|
  {
    if turns != [] {
      var before := turns[..|turns| - 1];
      ReachableWaiters(c, before);
      ReachableProtocol(c, before);
      StepKeepsWaiters(c, Execute(c, before).value, turns[|turns| - 1]);
    }
  }

  /** Turns that work towards the end of a stop: no new requests, no late events, no mere passing of time. */
  predicate Progress(e: Turn) {
    || OfOneRun(e) || e.SlotReleased? || e.EventDelivered? || e.ShutdownBegins? || e.CancellationsSettle?
    || e.ServerCloses? || e.GracefulWakes? || e.ForcedWakes? || e.StopCompletes?
  }

  /** The turn that a run's own chain waits for. */
  function NextOfRun(run: Run, r: RunId): Turn
    requires run.phase != Waiting && run.phase != Done
  {
    match run.phase
    case Picked => RunBegins(r)
    case Executing => AgentReturns(r, ExecuteRun.PLAIN)
    case Delivering => if Sendable(run.result) then ResultAnswered(r, true) else ResultRefused(r)
    case Notifying => HookReturned(r, false)
    case Announcing => TerminalEmitted(r, false)
    case Settled => ChainObserved(r)
  }

  lemma UnfinishedRunMoves(w: World, r: RunId)
    requires r in w.runs && w.runs[r].phase != Waiting && w.runs[r].phase != Done
    ensures Enabled(w, NextOfRun(w.runs[r], r)) && OfOneRun(NextOfRun(w.runs[r], r))
  {}

  /** In every reachable stopping state with a bound server some turn that makes progress can run; `WorkerRank` bounds
      how many of them there can be. */
  lemma StopNeverStuck(c: Config, turns: seq<Turn>) returns (e: Turn)
    requires Execute(c, turns).Some?
    requires Execute(c, turns).value.life == Stopping && Execute(c, turns).value.bound
    ensures Progress(e) && Enabled(Execute(c, turns).value, e)
  {
    var w := Execute(c, turns).value;
    ReachableProtocol(c, turns);
    ReachableWaiters(c, turns);
    if w.graceful.Unentered? {
      e := ShutdownBegins;
    } else if r :| r in w.runs && w.runs[r].phase != Done {
      WaitingNeedsQueue(w, r);
      UnfinishedRunMoves(w, r);
      e := NextOfRun(w.runs[r], r);
    } else if r :| r in w.slots {
      e := SlotReleased(r);
    } else if !w.cancelledSettled {
      e := CancellationsSettle;
    } else if x :| x in w.callbackWork {
      e := OnlyEventsLeft(w, x);
    } else if !w.closed {
      e := ServerCloses;
    } else {
      e := if w.forced.Unentered? then (if w.graceful.Drained? then StopCompletes else GracefulWakes)
           else if w.forced.Drained? then StopCompletes else ForcedWakes;
      assert w.sched.active == 0;
    }
  }

  lemma WaitingNeedsQueue(w: World, r: RunId)
    requires QueueInv(w) && StopInv(w) && !w.graceful.Unentered? && r in w.runs
    ensures w.runs[r].phase != Waiting
  {
    assert r in w.sched.queue <==> InPhase(w, r, Waiting);
  }

  lemma ChainIsUnfinished(w: World, r: RunId)
    requires TrackInv(w) && Chain(r) in w.callbackWork
    ensures r in w.runs && w.runs[r].phase != Done
  {
    assert Tracked(w.runs[r], r, w.callbackWork, w.nextEvent);
  }

  lemma OnlyEventsLeft(w: World, x: Work) returns (e: Turn)
    requires TrackInv(w) && x in w.callbackWork
    requires forall r :: r in w.runs ==> w.runs[r].phase == Done
    ensures e.EventDelivered? && Enabled(w, e)
  {
    if x.Chain? {
      ChainIsUnfinished(w, x.run);
      assert false;
    }
    e := EventDelivered(x.id);
  }
}
