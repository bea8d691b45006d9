// `TenvyrWorkerRuntime`, reduced to its state: the scheduler, the store with its shared record objects, the
// tracked work and the progress of `stop()`. One method for each uninterrupted turn; each is proved to take
// exactly the step of the protocol that bears its name.
module WorkerRuntimes {
  import opened Ids
  import opened Wrappers
  import opened Scheduling
  import opened Idempotency
  import opened WorkerProtocol
  import opened WorkerInvariants
  import opened WorkerShutdown
  import opened RunChains
  import ExecuteRun

  /** A turn of one run's chain: the run, the store and the tracked work after it. */
  lemma RunTurn(c: Config, w: World, e: Turn)
    requires OfOneRun(e) && Enabled(w, e)
    ensures e.run in w.runs
    ensures var run := w.runs[e.run];
            Step(c, w, e) ==
            w.(runs := w.runs[e.run := RunAfter(run, e, w.now, w.nextEvent)],
               records := if Writes(e).None? then w.records
                          else AfterUpdate(w.records, run.rec.invocationId, e.run, Writes(e).value, w.now),
               callbackWork := WorkAfter(w, e),
               nextEvent := if Emits(e) then w.nextEvent + 1 else w.nextEvent)
  {}

  /** A run that releases its slot holds one, so the scheduler counts it. */
  lemma SlotIsCounted(c: Config, w: World, r: RunId)
    requires ProtocolInv(w) && Enabled(w, Turn.SlotReleased(r))
    ensures r in w.runs && r in w.slots && w.sched.active > 0
    ensures Step(c, w, Turn.SlotReleased(r)) == Fill(c, Vacated(w, r))
  {
    assert r in w.slots && w.sched.active == |w.slots|;
  }

  /** The record and the answer of the handler's turn, branch by branch. */
  lemma AnswerBranches(c: Config, w: World, id: InvocationId, f: Fingerprint, r: RunId)
    ensures var answer, m, rec := LookupAnswer(w.records, id, f, w.now, c.options.ttlMs),
                                  AfterLookup(w.records, id, w.now, c.options.ttlMs), NewRecord(id, f, r, w.now, w.now);
            var reply, records := Decide(c, w, id, f, r), RecordsAfter(c, w, id, f, r);
            && (answer.Duplicate? ==> reply == Repeated(answer.rec.runId, answer.rec.acceptedAt) && records == m)
            && (answer.Conflict? ==> reply == Conflicted && records == m)
            && (answer.Miss? && !HasRoom(c.limits, w.sched) ==> reply == QueueFull && records == m)
            && (answer.Miss? && HasRoom(c.limits, w.sched) ==>
                  && records == AfterCreate(c.options, m, rec, w.now)
                  && reply == if CreateResult(c.options, m, rec, w.now).Created? then Ran(r, w.now) else CapacityFull)
  {
    hide LookupAnswer, AfterLookup, CreateResult, AfterCreate, HasRoom;
  }

  /** The scheduler takes the run, or the handler delivers its cancellation. */
  function Scheduled(c: Config, w: World, r: RunId): World
    requires r in w.runs
  {
    var run := w.runs[r];
    if Admits(c.limits, w.sched) then w.(sched := AfterEnqueue(c.limits, w.sched, r))
    else
      w.(records := AfterUpdate(w.records, run.rec.invocationId, r, CallbackPending, w.now),
         runs := w.runs[r := run.(rec := Written(run.rec, Some(CallbackPending), w.now),
                                  phase := Delivering, owner := ByHandler, deliveries := 1)])
  }

  /** The run enters, its record `queued`, and its event is tracked. */
  function Entered(w: World, rec: Rec, r: RunId, sent: bool): World {
    var q := NewRun(rec.(state := Queued, updatedAtMs := w.now), true);
    var entered := w.(records := AfterUpdate(w.records, rec.invocationId, r, Queued, w.now), runs := w.runs[r := q]);
    if sent then TrackEvent(entered) else entered
  }

  /** The rest of the handler's turn: the run enters, then the scheduler is asked. */
  lemma AcceptBranches(c: Config, w: World, rec: Rec, r: RunId, sent: bool)
    ensures r in Entered(w, rec, r, sent).runs
    ensures var a := Accept(c, w, rec, r);
            Scheduled(c, Entered(w, rec, r, sent), r) == if sent then TrackEvent(a) else a
  {
    hide AfterUpdate, HasRoom;
    var q := NewRun(rec.(state := Queued, updatedAtMs := w.now), true);
    var refused := q.(rec := Written(q.rec, Some(CallbackPending), w.now), phase := Delivering, owner := ByHandler,
                      deliveries := 1);
    assert w.runs[r := q][r := refused] == w.runs[r := refused];
  }

  class WorkerRuntime {
    const config: Config
    const scheduler: RunScheduler
    const store: InMemoryIdempotencyStore
    const chains: Chains
    var now: int
    var state: Lifecycle
    var served: bool
    var bound: bool
    var slots: set<RunId>
    var callbackWork: set<Work>
    var nextEvent: nat
    var cancelledSettled: bool
    var graceful: Drain
    var forced: Drain
    var closed: bool
    var log: seq<Entry>

    /** The heap is in order: what the scheduler, the store and the chains share. */
    ghost predicate Valid()
      reads chains, chains.store, chains.Footprint()
    {
      && chains.store == store && chains.Valid()
      && this !in chains.Footprint() && scheduler !in chains.Footprint()
      && scheduler.limits == config.limits && store.options == config.options
    }

    ghost function View(): World
      reads this, scheduler, chains, chains.store, chains.Footprint()
    {
      World(now, state, served, bound, scheduler.View(), slots, chains.StoreView(), chains.View(), callbackWork,
            nextEvent, cancelledSettled, graceful, forced, closed, log)
    }

    constructor (config: Config)
      ensures Valid() && View() == START && this.config == config
      ensures fresh(scheduler) && fresh(store) && fresh(chains)
    {
      this.config := config;
      scheduler := new RunScheduler(config.limits);
      var made := new InMemoryIdempotencyStore(config.options);
      store := made;
      chains := new Chains(made);
      now, state, served, bound := 0, Unstarted, false, false;
      slots, callbackWork, nextEvent := {}, {}, 0;
      cancelledSettled, graceful, forced, closed, log := false, Unentered, Unentered, false, [];
    }

    // ---- one run --------------------------------------------------------------------------------

    /** `executeRun`, up to the call of the agent. */
    method RunBegins(r: RunId)
      requires Valid() && Enabled(View(), Turn.RunBegins(r))
      modifies this, chains.Footprint()
      ensures Valid() && View() == Step(config, old(View()), Turn.RunBegins(r))
    {
      hide Step, Enabled, AfterUpdate;
      hide Chains.Valid, Chains.Footprint, Chains.View, Chains.StoreView, RunEnabled;
      chains.Known(r);
      RunTurn(config, View(), Turn.RunBegins(r));
      chains.Advance(r, Some(Running), chains.all[r].(phase := Executing), now);
    }

    /** `executeRun`, from the return of `executeAgent` on: the delivery starts and is tracked in the same turn. */
    method AgentReturns(r: RunId, x: ExecuteRun.Execution)
      requires Valid() && Enabled(View(), Turn.AgentReturns(r, x))
      modifies this, chains.Footprint()
      ensures Valid() && View() == Step(config, old(View()), Turn.AgentReturns(r, x))
    {
      hide Step, Enabled, AfterUpdate;
      hide Chains.Valid, Chains.Footprint, Chains.View, Chains.StoreView, RunEnabled;
      chains.Known(r);
      RunTurn(config, View(), Turn.AgentReturns(r, x));
      var p := chains.all[r];
      var result := ExecuteRun.ExecuteAgent(x);
      p := p.(phase := Delivering, result := Some(result), deliveries := p.deliveries + 1);
      chains.Advance(r, Some(CallbackPending), p, now);
      callbackWork := callbackWork + {Chain(r)};
    }

    /** `deliverResult`, when `deliverCallback` has answered. */
    method ResultAnswered(r: RunId, delivered: bool)
      requires Valid() && Enabled(View(), Turn.ResultAnswered(r, delivered))
      modifies this, chains.Footprint()
      ensures Valid() && View() == Step(config, old(View()), Turn.ResultAnswered(r, delivered))
    {
      hide Step, Enabled, AfterUpdate;
      hide Chains.Valid, Chains.Footprint, Chains.View, Chains.StoreView, RunEnabled;
      chains.Known(r);
      RunTurn(config, View(), Turn.ResultAnswered(r, delivered));
      var phase := if delivered then Announcing else Notifying;
      chains.Advance(r, Some(if delivered then Delivered else CallbackFailed), chains.all[r].(phase := phase), now);
    }

    /** `deliverResult`, when `asJsonValue` has refused the result: the chain rejects. */
    method ResultRefused(r: RunId)
      requires Valid() && Enabled(View(), Turn.ResultRefused(r))
      modifies this, chains.Footprint()
      ensures Valid() && View() == Step(config, old(View()), Turn.ResultRefused(r))
    {
      hide Step, Enabled, AfterUpdate;
      hide Chains.Valid, Chains.Footprint, Chains.View, Chains.StoreView, RunEnabled;
      chains.Known(r);
      RunTurn(config, View(), Turn.ResultRefused(r));
      chains.Advance(r, None, chains.all[r].(phase := Settled), now);
    }

    method HookReturned(r: RunId, threw: bool)
      requires Valid() && Enabled(View(), Turn.HookReturned(r, threw))
      modifies this, chains.Footprint()
      ensures Valid() && View() == Step(config, old(View()), Turn.HookReturned(r, threw))
    {
      hide Step, Enabled, AfterUpdate;
      hide Chains.Valid, Chains.Footprint, Chains.View, Chains.StoreView, RunEnabled;
      chains.Known(r);
      RunTurn(config, View(), Turn.HookReturned(r, threw));
      chains.Advance(r, None, chains.all[r].(phase := if threw then Settled else Announcing, hookThrew := threw), now);
    }

    /** `emitTerminalEvent`; `sent` is whether the emitter scheduled a delivery. */
    method TerminalEmitted(r: RunId, sent: bool)
      requires Valid() && Enabled(View(), Turn.TerminalEmitted(r, sent))
      modifies this, chains.Footprint()
      ensures Valid() && View() == Step(config, old(View()), Turn.TerminalEmitted(r, sent))
    {
      hide Step, Enabled, AfterUpdate;
      hide Chains.Valid, Chains.Footprint, Chains.View, Chains.StoreView, RunEnabled;
      chains.Known(r);
      RunTurn(config, View(), Turn.TerminalEmitted(r, sent));
      var event := if sent then Some(nextEvent) else None;
      chains.Advance(r, None, chains.all[r].(phase := Settled, announced := true, event := event), now);
      if sent {
        callbackWork := callbackWork + {EventDelivery(nextEvent)};
        nextEvent := nextEvent + 1;
      }
    }

    /** The `finally` of `trackCallback`, or whoever awaited the chain. */
    method ChainObserved(r: RunId)
      requires Valid() && Enabled(View(), Turn.ChainObserved(r))
      modifies this, chains.Footprint()
      ensures Valid() && View() == Step(config, old(View()), Turn.ChainObserved(r))
    {
      hide Step, Enabled, AfterUpdate;
      hide Chains.Valid, Chains.Footprint, Chains.View, Chains.StoreView, RunEnabled;
      chains.Known(r);
      RunTurn(config, View(), Turn.ChainObserved(r));
      chains.Advance(r, None, chains.all[r].(phase := Done), now);
      callbackWork := callbackWork - {Chain(r)};
    }

    method EventEmitted(r: RunId)
      requires Valid() && Enabled(View(), Turn.EventEmitted(r))
      modifies this
      ensures Valid() && View() == Step(config, old(View()), Turn.EventEmitted(r))
    {
      hide Chains.Valid, Chains.Footprint, Chains.View, Chains.StoreView, RunEnabled;
      chains.Known(r);
      callbackWork := callbackWork + {EventDelivery(nextEvent)};
      nextEvent := nextEvent + 1;
    }

    method EventDelivered(event: nat)
      requires Valid() && Enabled(View(), Turn.EventDelivered(event))
      modifies this
      ensures Valid() && View() == Step(config, old(View()), Turn.EventDelivered(event))
    {
      hide Chains.Valid, Chains.Footprint, Chains.View, Chains.StoreView, RunEnabled;
      chains.Known(0);
      callbackWork := callbackWork - {EventDelivery(event)};
    }

    // ---- the scheduler's turns ---------------------------------------------------------------------

    /** The `setImmediate` callback. */
    method ImmediateFires()
      requires Valid() && Enabled(View(), Turn.ImmediateFires)
      modifies this, scheduler, chains.Footprint()
      ensures Valid() && View() == Step(config, old(View()), Turn.ImmediateFires)
    {
      hide Chains.Valid, Chains.Footprint, Chains.View, Chains.StoreView;
      hide Started, AfterDrain, Filled, Step, Enabled;
      chains.Known(0);
      StepByKind(config, View(), Turn.ImmediateFires);
      assert allocated(chains.Footprint());
      var started, released := scheduler.Immediate();
      chains.Pick(started);
      slots := slots + Elements(started);
      assert chains.View() == Step(config, old(View()), Turn.ImmediateFires).runs;
    }

    /** The run gives its slot up. */
    method FreeSlot(r: RunId)
      requires Valid() && r in chains.View()
      modifies `slots, chains.Footprint()
      ensures Valid() && chains.Footprint() == old(chains.Footprint())
      ensures View() == old(View()).(runs := old(chains.View())[r := old(chains.View())[r].(slot := false)],
                                     slots := old(slots) - {r})
    {
      hide Chains.Valid, Chains.Footprint, Chains.View, Chains.StoreView, RunEnabled;
      chains.Known(r);
      chains.Advance(r, None, chains.all[r].(slot := false), now);
      slots := slots - {r};
    }

    /** A run promise has settled: its slot goes to the next in the queue. */
    method SlotReleased(r: RunId)
      requires Valid() && ProtocolInv(View()) && Enabled(View(), Turn.SlotReleased(r))
      modifies this, scheduler, chains.Footprint()
      ensures Valid() && View() == Step(config, old(View()), Turn.SlotReleased(r))
    {
      hide Chains.Valid, Chains.Footprint, Chains.View, Chains.StoreView, RunEnabled;
      hide Started, AfterDrain, Filled, Step, Enabled, ProtocolInv;
      SlotIsCounted(config, View(), r);
      FreeSlot(r);
      chains.Known(r);
      assert allocated(chains.Footprint());
      var started, released := scheduler.Finish();
      chains.Pick(started);
      slots := slots + Elements(started);
      assert chains.View() == Step(config, old(View()), Turn.SlotReleased(r)).runs;
    }

    // ---- the clock, starting, and the request handler ---------------------------------------------

    method Tick(ms: nat)
      requires Valid() && Enabled(View(), Turn.Tick(ms))
      modifies this
      ensures Valid() && View() == Step(config, old(View()), Turn.Tick(ms))
    {
      hide Chains.Valid, Chains.Footprint, Chains.View, Chains.StoreView, RunEnabled;
      chains.Known(0);
      now := now + ms;
    }

    method StartCalled()
      requires Valid() && Enabled(View(), Turn.StartCalled)
      modifies this
      ensures Valid() && View() == Step(config, old(View()), Turn.StartCalled)
    {
      hide Chains.Valid, Chains.Footprint, Chains.View, Chains.StoreView, RunEnabled;
      chains.Known(0);
      state := Starting;
    }

    method BindSucceeded()
      requires Valid() && Enabled(View(), Turn.BindSucceeded)
      modifies this
      ensures Valid() && View() == Step(config, old(View()), Turn.BindSucceeded)
    {
      hide Chains.Valid, Chains.Footprint, Chains.View, Chains.StoreView, RunEnabled;
      chains.Known(0);
      bound := true;
      if state != Stopping {
        state := Serving;
        served := true;
      }
    }

    method BindFailed()
      requires Valid() && Enabled(View(), Turn.BindFailed)
      modifies this
      ensures Valid() && View() == Step(config, old(View()), Turn.BindFailed)
    {
      hide Chains.Valid, Chains.Footprint, Chains.View, Chains.StoreView, RunEnabled;
      chains.Known(0);
      state := if state == Stopping then Stopped else Failed;
    }

    /** The cleanup timer. */
    method Sweep()
      requires Valid() && Enabled(View(), Turn.Sweep)
      modifies this, chains.Footprint()
      ensures Valid() && View() == Step(config, old(View()), Turn.Sweep)
    {
      hide Chains.Valid, Chains.Footprint, Chains.View, Chains.StoreView, RunEnabled;
      chains.Known(0);
      assert allocated(chains.Footprint());
      chains.Cleanup(now);
    }

    /** `handleRequest`, from the lookup on: one uninterrupted turn. */
    method HandlerTurn(id: InvocationId, fingerprint: Fingerprint, r: RunId, acceptedSent: bool) returns (reply: Reply)
      requires Valid() && Enabled(View(), Turn.HandlerTurn(id, fingerprint, r, acceptedSent))
      modifies this, scheduler, chains.Footprint()
      ensures Valid() && View() == Step(config, old(View()), Turn.HandlerTurn(id, fingerprint, r, acceptedSent))
      ensures reply == Decide(config, old(View()), id, fingerprint, r)
    {
      hide Chains.Valid, Chains.Footprint, Chains.View, Chains.StoreView, Chains.ValidBut;
      hide Decide, RecordsAfter, Accept, NewRecord;
      chains.Known(r);
      var record;
      reply, record := Answer(id, fingerprint, r);
      if record.Some? { AcceptRun(r, record.value, acceptedSent); }
    }

    /** What the client is told, and the record of the run if there is to be one. */
    method Answer(id: InvocationId, fingerprint: Fingerprint, r: RunId)
        returns (reply: Reply, record: Option<RunRecord>)
      requires Valid() && r !in chains.View()
      modifies `log, chains.store
      ensures chains.all == old(chains.all)
      ensures chains.Footprint() <= old(chains.Footprint()) + if record.Some? then {record.value} else {}
      ensures reply == Decide(config, old(View()), id, fingerprint, r) && (record.Some? <==> reply.Ran?)
      ensures View() == old(View()).(records := RecordsAfter(config, old(View()), id, fingerprint, r),
                                     log := old(log) + [Entry(now, id, fingerprint, reply)])
      ensures record.None? ==> chains.Valid()
      ensures record.Some? ==> fresh(record.value) && record.value.runId == r && chains.ValidBut(record.value)
                               && record.value.Value() == NewRecord(id, fingerprint, r, now, now)
    {
      hide Chains.Valid, Chains.Footprint, Chains.View, Chains.StoreView, Chains.ValidBut;
      hide LookupAnswer, AfterLookup, CreateResult, AfterCreate, HasRoom, NewRecord, Decide, RecordsAfter;
      AnswerBranches(config, View(), id, fingerprint, r);
      chains.Known(r);
      assert allocated(chains.Footprint());
      record := None;
      var answer := chains.Lookup(id, fingerprint, now);
      if answer.Duplicate? {
        reply := Repeated(answer.rec.runId, answer.rec.acceptedAt);
      } else if answer.Conflict? {
        reply := Conflicted;
      } else {
        var room := scheduler.HasCapacity();
        if !room {
          reply := QueueFull;
        } else {
          record := chains.Create(id, fingerprint, r, now);
          reply := if record.Some? then Ran(r, now) else CapacityFull;
        }
      }
      log := log + [Entry(now, id, fingerprint, reply)];
    }

    /** The new run's chain, its record now `queued`. */
    method EnterRun(r: RunId, record: RunRecord)
      requires chains.store == store && this !in chains.Footprint() && scheduler !in chains.Footprint()
      requires chains.ValidBut(record) && r !in chains.all && record.runId == r
      modifies chains.Footprint(), record
      ensures chains.Valid() && chains.Footprint() <= old(chains.Footprint()) + {record}
      ensures chains.View() ==
              old(chains.View())[r := NewRun(old(record.Value()).(state := Queued, updatedAtMs := now), true)]
      ensures chains.StoreView() ==
              AfterUpdate(old(chains.StoreView()), old(record.Value()).invocationId, r, Queued, now)
    {
      hide Chains.Valid, Chains.Footprint, Chains.View, Chains.StoreView, Chains.ValidBut, AfterUpdate;
      chains.Known(r);
      chains.Add(r, record);
      chains.Known(r);
      chains.Advance(r, Some(Queued), chains.all[r], now);
    }

    /** `enqueue`; a run it refuses is cancelled by the handler itself. */
    method Schedule(r: RunId)
      requires Valid() && r in chains.View()
      modifies scheduler, chains.Footprint()
      ensures Valid()
      ensures View() == Scheduled(config, old(View()), r)
    {
      hide Chains.Valid, Chains.Footprint, Chains.View, Chains.StoreView, AfterUpdate;
      hide HasRoom;
      chains.Known(r);
      assert allocated(chains.Footprint());
      var enqueued := scheduler.Enqueue(r);
      if !enqueued {
        chains.Advance(r, Some(CallbackPending),
                       chains.all[r].(phase := Delivering, owner := ByHandler, deliveries := 1), now);
      }
    }

    /** From the answer to the client on. */
    method AcceptRun(r: RunId, record: RunRecord, acceptedSent: bool)
      requires chains.store == store && this !in chains.Footprint() && scheduler !in chains.Footprint()
      requires scheduler.limits == config.limits && store.options == config.options
      requires chains.ValidBut(record) && r !in chains.all && record.runId == r
      modifies `callbackWork, `nextEvent, scheduler, chains.Footprint(), record
      ensures Valid()
      ensures View() ==
              var w := Accept(config, old(View()), old(record.Value()), r);
              if acceptedSent then TrackEvent(w) else w
    {
      hide Chains.Valid, Chains.Footprint, Chains.View, Chains.StoreView, Chains.ValidBut, AfterUpdate;
      hide Accept, Scheduled, Entered;
      AcceptBranches(config, View(), record.Value(), r, acceptedSent);
      Enter(r, record, acceptedSent);
      Schedule(r);
    }

    /** The new run's chain, and its event. */
    method Enter(r: RunId, record: RunRecord, acceptedSent: bool)
      requires chains.store == store && this !in chains.Footprint() && scheduler !in chains.Footprint()
      requires scheduler.limits == config.limits && store.options == config.options
      requires chains.ValidBut(record) && r !in chains.all && record.runId == r
      modifies `callbackWork, `nextEvent, chains.Footprint(), record
      ensures Valid() && chains.Footprint() <= old(chains.Footprint()) + {record}
      ensures View() == Entered(old(View()), old(record.Value()), r, acceptedSent)
    {
      hide Chains.Valid, Chains.Footprint, Chains.View, Chains.StoreView, Chains.ValidBut, AfterUpdate, NewRun;
      chains.Known(r);
      EnterRun(r, record);
      if acceptedSent {
        callbackWork := callbackWork + {EventDelivery(nextEvent)};
        nextEvent := nextEvent + 1;
      }
    }

    // ---- stopping ------------------------------------------------------------------------------------

    method ServerCloses()
      requires Valid() && Enabled(View(), Turn.ServerCloses)
      modifies this
      ensures Valid() && View() == Step(config, old(View()), Turn.ServerCloses)
    {
      hide Chains.Valid, Chains.Footprint, Chains.View, Chains.StoreView, RunEnabled;
      chains.Known(0);
      closed := true;
    }

    /** The end of `stopAccepting`. */
    method CancellationsSettle()
      requires Valid() && Enabled(View(), Turn.CancellationsSettle)
      modifies this, scheduler
      ensures Valid() && View() == Step(config, old(View()), Turn.CancellationsSettle)
    {
      hide Chains.Valid, Chains.Footprint, Chains.View, Chains.StoreView, RunEnabled;
      chains.Known(0);
      assert allocated(chains.Footprint());
      var released := scheduler.CancellationsSettled();
      cancelledSettled := true;
    }

    /** The grace is over: the second `waitForDrain` starts. */
    method GraceExpires()
      requires Valid() && Enabled(View(), Turn.GraceExpires)
      modifies this, scheduler
      ensures Valid() && View() == Step(config, old(View()), Turn.GraceExpires)
    {
      hide Chains.Valid, Chains.Footprint, Chains.View, Chains.StoreView, RunEnabled;
      chains.Known(0);
      assert allocated(chains.Footprint());
      var resolved := scheduler.OnIdle(2);
      forced := AwaitingIdle(2);
    }

    /** One round of the loop of the first `waitForDrain`: it ends only when every run of the scheduler is over. */
    method GracefulWakes()
      requires Valid() && ProtocolInv(View()) && Enabled(View(), Turn.GracefulWakes)
      modifies this
      ensures Valid() && View() == Step(config, old(View()), Turn.GracefulWakes)
      ensures graceful.Drained? ==>
                forall r :: r in View().runs && View().runs[r].owner != ByHandler ==> RunOver(View(), r)
      ensures !graceful.Drained? ==> graceful == Looping(callbackWork) && exists work :: work in callbackWork
    {
      hide Chains.Valid, Chains.Footprint, Chains.View, Chains.StoreView, ProtocolInv, Step, Enabled, Wakeable;
      chains.Known(0);
      ghost var was := View();
      WakingStep(config, was);
      if callbackWork == {} { DrainedMeansOver(was, was.graceful); }
      graceful := if callbackWork == {} then Drained else Looping(callbackWork);
      forall r | r in was.runs && RunOver(was, r) ensures RunOver(View(), r) {}
    }

    method ForcedWakes()
      requires Valid() && ProtocolInv(View()) && Enabled(View(), Turn.ForcedWakes)
      modifies this
      ensures Valid() && View() == Step(config, old(View()), Turn.ForcedWakes)
      ensures forced.Drained? ==>
                forall r :: r in View().runs && View().runs[r].owner != ByHandler ==> RunOver(View(), r)
      ensures !forced.Drained? ==> forced == Looping(callbackWork) && exists work :: work in callbackWork
    {
      hide Chains.Valid, Chains.Footprint, Chains.View, Chains.StoreView, ProtocolInv, Step, Enabled, Wakeable;
      chains.Known(0);
      ghost var was := View();
      WakingStep(config, was);
      if callbackWork == {} { DrainedMeansOver(was, was.forced); }
      forced := if callbackWork == {} then Drained else Looping(callbackWork);
      forall r | r in was.runs && RunOver(was, r) ensures RunOver(View(), r) {}
    }

    method StopCompletes()
      requires Valid() && Enabled(View(), Turn.StopCompletes)
      modifies this
      ensures Valid() && View() == Step(config, old(View()), Turn.StopCompletes)
    {
      hide Chains.Valid, Chains.Footprint, Chains.View, Chains.StoreView, RunEnabled;
      chains.Known(0);
      state := Stopped;
    }

    /** `stop()`. */
    method StopCalled()
      requires Valid() && ProtocolInv(View()) && Enabled(View(), Turn.StopCalled)
      modifies this, scheduler, chains.Footprint()
      ensures Valid() && View() == Step(config, old(View()), Turn.StopCalled)
    {
      hide Chains.Valid, Chains.Footprint, Chains.View, Chains.StoreView, BeginShutdown, ProtocolInv, Step, Enabled;
      chains.Known(0);
      StopByLife(config, View(), Turn.StopCalled);
      if state == Unstarted || state == Failed {
        state := Stopped;
      } else if state == Starting {
        state := Stopping;
      } else {
        QueueIsWaiting(View());
        state := Stopping;
        Shutdown();
      }
    }

    /** `stop()` called while starting: the shutdown begins once the server is bound. */
    method ShutdownBegins()
      requires Valid() && ProtocolInv(View()) && Enabled(View(), Turn.ShutdownBegins)
      modifies this, scheduler, chains.Footprint()
      ensures Valid() && View() == Step(config, old(View()), Turn.ShutdownBegins)
    {
      QueueIsWaiting(View());
      Shutdown();
    }

    /** The synchronous part of `shutdown`. */
    method Shutdown()
      requires Valid() && NoDuplicates(scheduler.queue) && forall r :: r in scheduler.queue ==> r in chains.View()
      modifies this, scheduler, chains.Footprint()
      ensures Valid() && View() == BeginShutdown(old(View()))
    {
      hide Chains.Valid, Chains.Footprint, Chains.View, Chains.StoreView, RunEnabled;
      chains.Known(0);
      assert allocated(chains.Footprint());
      var queued := scheduler.StopAccepting();
      chains.CancelAll(queued, now);
      assert allocated(chains.Footprint());
      var resolved := scheduler.OnIdle(1);
      graceful := AwaitingIdle(1);
      assert chains.View() == BeginShutdown(old(View())).runs;
      assert chains.StoreView() == BeginShutdown(old(View())).records;
    }
  }

  lemma WakingStep(c: Config, w: World)
    ensures Enabled(w, Turn.GracefulWakes) ==>
              Wakeable(w, w.graceful) && Step(c, w, Turn.GracefulWakes) == w.(graceful := Woken(w))
    ensures Enabled(w, Turn.ForcedWakes) ==>
              Wakeable(w, w.forced) && Step(c, w, Turn.ForcedWakes) == w.(forced := Woken(w))
  {
    hide Woken, Wakeable, RunEnabled;
  }

  lemma DrainedMeansOver(w: World, d: Drain)
    requires ProtocolInv(w) && (d == w.graceful || d == w.forced) && Wakeable(w, d) && w.callbackWork == {}
    ensures forall r :: r in w.runs && w.runs[r].owner != ByHandler ==> RunOver(w, r)
  {
    EmptyWorkMeansOver(w, d);
  }

  lemma QueueIsWaiting(w: World)
    requires ProtocolInv(w)
    ensures NoDuplicates(w.sched.queue) && forall r :: r in w.sched.queue ==> r in w.runs
  {
    assert forall r :: r in w.sched.queue ==> InPhase(w, r, Waiting);
  }
}
