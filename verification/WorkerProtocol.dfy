// The Worker runtime as a transition system: one event for each uninterrupted JavaScript turn.
// Runs, deliveries, event callbacks, the clock and `stop()` interleave arbitrarily.
module WorkerProtocol {
  import opened Ids
  import opened Wrappers
  import opened Scheduling
  import opened Idempotency
  import AgentResults
  import ExecuteRun

  datatype Lifecycle = Unstarted | Starting | Serving | Stopping | Stopped | Failed

  /** Where the promise chain of an accepted run stands. */
  datatype Phase =
    | Waiting      // in the scheduler's queue
    | Picked       // given a slot, `run` not called yet
    | Executing    // inside `executeAgent`
    | Delivering   // `deliverResult` is sending the result
    | Notifying    // the delivery failed, the failure hook is running
    | Announcing   // the result is settled, the terminal event comes next
    | Settled      // the chain has resolved or rejected
    | Done         // whoever waited for the chain has been told

  /** Who waits for the chain: `callbackWork`, the `cancelled` promise of `stop()`, or only the request handler. */
  datatype Owner = BySlot | ByStop | ByHandler

  type Result = AgentResults.AgentResult

  /** `asJsonValue` accepts the result that `executeAgent` gave; the one for a cancelled run is worded by the Worker. */
  predicate Sendable(result: Option<Result>) {
    result.None? || AgentResults.Sent(result.value).Some?
  }

  datatype Run = Run(
    rec: Rec,              // the run's record object, whether or not the store still holds it
    phase: Phase,
    owner: Owner,
    slot: bool,            // holds one of the scheduler's slots
    result: Option<Result>, // what `executeAgent` gave; none for the result of a run that was cancelled in the queue
    hookThrew: bool,       // the failure hook failed and so did the configured logger
    deliveries: nat,       // calls of `deliverResult`
    announced: bool,       // the terminal event was passed to the emitter
    event: Option<nat>)    // the delivery of the terminal event, if the emitter scheduled one

  datatype Work = Chain(run: RunId) | EventDelivery(id: nat)

  /** One call of `waitForDrain`. */
  datatype Drain = Unentered | AwaitingIdle(waiter: WaiterId) | Looping(snapshot: set<Work>) | Drained

  datatype Reply = Ran(run: RunId, at: int) | Repeated(run: RunId, at: int) | Conflicted | QueueFull | CapacityFull

  datatype Entry = Entry(nowMs: int, id: InvocationId, fingerprint: Fingerprint, reply: Reply)

  datatype Config = Config(limits: Limits, options: Options)

  datatype World = World(
    now: int,
    life: Lifecycle,
    served: bool,                // the server has been accepting requests
    bound: bool,
    sched: Sched,
    slots: set<RunId>,           // the runs holding a slot
    records: Records,            // the store
    runs: map<RunId, Run>,       // every run ever accepted
    callbackWork: set<Work>,
    nextEvent: nat,
    cancelledSettled: bool,
    graceful: Drain,
    forced: Drain,
    closed: bool,                // the HTTP server has closed
    log: seq<Entry>)             // every answered request, in order

  const START: World :=
    World(0, Unstarted, false, false, FRESH, {}, map[], map[], {}, 0, false, Unentered, Unentered, false, [])

  datatype Turn =
    | Tick(ms: nat)
    | StartCalled
    | BindSucceeded
    | BindFailed
    | HandlerTurn(id: InvocationId, fingerprint: Fingerprint, run: RunId, acceptedSent: bool)
    | Sweep
    | ImmediateFires
    | RunBegins(run: RunId)
    | EventEmitted(run: RunId)
    | EventDelivered(event: nat)
    | AgentReturns(run: RunId, execution: ExecuteRun.Execution)
    | SlotReleased(run: RunId)
    | ResultAnswered(run: RunId, delivered: bool)
    | ResultRefused(run: RunId)
    | HookReturned(run: RunId, threw: bool)
    | TerminalEmitted(run: RunId, sent: bool)
    | ChainObserved(run: RunId)
    | StopCalled
    | ShutdownBegins
    | CancellationsSettle
    | GraceExpires
    | ServerCloses
    | GracefulWakes
    | ForcedWakes
    | StopCompletes

  predicate InPhase(w: World, r: RunId, p: Phase) {
    r in w.runs && w.runs[r].phase == p
  }

  predicate Delivery(p: Phase) {
    p == Delivering || p == Notifying || p == Announcing || p == Settled || p == Done
  }

  // ---- turns of one run's chain -------------------------------------------------------

  predicate OfOneRun(e: Turn) {
    || e.RunBegins? || e.AgentReturns? || e.ResultAnswered? || e.ResultRefused?
    || e.HookReturned? || e.TerminalEmitted? || e.ChainObserved?
  }

  predicate RunEnabled(run: Run, e: Turn)
    requires OfOneRun(e)
  {
    match e
    case RunBegins(_) => run.phase == Picked
    case AgentReturns(_, _) => run.phase == Executing
    case ResultAnswered(_, _) => run.phase == Delivering && Sendable(run.result)
    case ResultRefused(_) => run.phase == Delivering && !Sendable(run.result)
    case HookReturned(_, _) => run.phase == Notifying
    case TerminalEmitted(_, _) => run.phase == Announcing
    case ChainObserved(_) => run.phase == Settled
  }

  /** The state that `updateState` writes in this turn, if any. */
  function Writes(e: Turn): Option<RunState> {
    match e
    case RunBegins(_) => Some(Running)
    case AgentReturns(_, _) => Some(CallbackPending)
    case ResultAnswered(_, delivered) => Some(if delivered then Delivered else CallbackFailed)
    case _ => None
  }

  function Written(rec: Rec, state: Option<RunState>, now: int): Rec {
    if state.None? then rec else rec.(state := state.value, updatedAtMs := now)
  }

  function RunAfter(run: Run, e: Turn, now: int, nextEvent: nat): Run
    requires OfOneRun(e)
  {
    var after := run.(rec := Written(run.rec, Writes(e), now));
    match e
    case RunBegins(_) => after.(phase := Executing)
    case AgentReturns(_, x) =>
      after.(phase := Delivering, result := Some(ExecuteRun.ExecuteAgent(x)), deliveries := run.deliveries + 1)
    case ResultAnswered(_, delivered) => after.(phase := if delivered then Announcing else Notifying)
    case ResultRefused(_) => after.(phase := Settled)
    case HookReturned(_, threw) => after.(phase := if threw then Settled else Announcing, hookThrew := threw)
    case TerminalEmitted(_, sent) =>
      after.(phase := Settled, announced := true, event := if sent then Some(nextEvent) else None)
    case ChainObserved(_) => after.(phase := Done)
  }

  function Emits(e: Turn): bool {
    match e
    case HandlerTurn(_, _, _, sent) => sent
    case EventEmitted(_) => true
    case TerminalEmitted(_, sent) => sent
    case _ => false
  }

  /** `trackCallback` and the removal of tracked work, in this turn. */
  function WorkAfter(w: World, e: Turn): set<Work> {
    match e
    case AgentReturns(r, _) => w.callbackWork + {Chain(r)}
    case TerminalEmitted(_, true) => w.callbackWork + {EventDelivery(w.nextEvent)}
    case ChainObserved(r) => w.callbackWork - {Chain(r)}
    case _ => w.callbackWork
  }

  function RunStep(w: World, e: Turn): World
    requires OfOneRun(e) && e.run in w.runs
  {
    var r := e.run;
    var rec := w.runs[r].rec;
    w.(runs := w.runs[r := RunAfter(w.runs[r], e, w.now, w.nextEvent)],
       records := if Writes(e).None? then w.records
                  else AfterUpdate(w.records, rec.invocationId, r, Writes(e).value, w.now),
       callbackWork := WorkAfter(w, e),
       nextEvent := if Emits(e) then w.nextEvent + 1 else w.nextEvent)
  }

  // ---- which turns can happen -----------------------------------------------------------

  predicate Enabled(w: World, e: Turn) {
    match e
    case Tick(_) => true
    case StartCalled => w.life == Unstarted
    case BindSucceeded => !w.bound && (w.life == Starting || w.life == Stopping)
    case BindFailed => !w.bound && (w.life == Starting || w.life == Stopping)
    case HandlerTurn(_, _, r, _) => w.served && r !in w.runs
    case Sweep => w.life == Serving || w.life == Stopping
    case ImmediateFires => w.sched.drainScheduled
    case EventEmitted(r) => r in w.runs
    case EventDelivered(n) => EventDelivery(n) in w.callbackWork
    case SlotReleased(r) => r in w.runs && w.runs[r].slot && Delivery(w.runs[r].phase)
    case StopCalled => w.life != Stopping && w.life != Stopped
    case ShutdownBegins => w.life == Stopping && w.bound && w.graceful.Unentered?
    case CancellationsSettle =>
      !w.graceful.Unentered? && !w.cancelledSettled &&
      forall r :: r in w.runs && w.runs[r].owner == ByStop ==> w.runs[r].phase == Done
    case GraceExpires =>
      w.life == Stopping && !w.graceful.Unentered? && w.forced.Unentered? && !(w.graceful.Drained? && w.closed)
    case ServerCloses => !w.graceful.Unentered? && !w.closed
    case GracefulWakes => Wakeable(w, w.graceful)
    case ForcedWakes => Wakeable(w, w.forced)
    case StopCompletes =>
      w.life == Stopping && w.closed && (if w.forced.Unentered? then w.graceful.Drained? else w.forced.Drained?)
    case _ => e.run in w.runs && RunEnabled(w.runs[e.run], e)
  }

  predicate Wakeable(w: World, d: Drain) {
    match d
    case AwaitingIdle(waiter) => waiter !in w.sched.idleWaiters && w.cancelledSettled
    case Looping(snapshot) => snapshot !! w.callbackWork
    case _ => false
  }

  /** A turn that leaves every run where it is. */
  predicate Aside(e: Turn) {
    || e.Tick? || e.StartCalled? || e.BindSucceeded? || e.BindFailed? || e.Sweep?
    || e.EventEmitted? || e.EventDelivered? || e.CancellationsSettle? || e.GraceExpires?
    || e.ServerCloses? || e.GracefulWakes? || e.ForcedWakes? || e.StopCompletes?
  }

  function AsideStep(c: Config, w: World, e: Turn): World
    requires Aside(e)
  {
    match e
    case Tick(ms) => w.(now := w.now + ms)
    case StartCalled => w.(life := Starting)
    case BindSucceeded =>
      if w.life == Stopping then w.(bound := true) else w.(bound := true, life := Serving, served := true)
    case BindFailed => w.(life := if w.life == Stopping then Stopped else Failed)
    case Sweep => w.(records := Swept(w.records, w.now, c.options.ttlMs))
    case EventEmitted(_) => TrackEvent(w)
    case EventDelivered(n) => w.(callbackWork := w.callbackWork - {EventDelivery(n)})
    case CancellationsSettle => w.(cancelledSettled := true, sched := ResolveIdle(w.sched))
    case GraceExpires => w.(forced := AwaitingIdle(2), sched := AfterOnIdle(w.sched, 2))
    case ServerCloses => w.(closed := true)
    case GracefulWakes => w.(graceful := Woken(w))
    case ForcedWakes => w.(forced := Woken(w))
    case StopCompletes => w.(life := Stopped)
  }

  function Step(c: Config, w: World, e: Turn): World
    requires Enabled(w, e)
  {
    if Aside(e) then AsideStep(c, w, e)
    else if OfOneRun(e) then RunStep(w, e)
    else
      match e
      case HandlerTurn(id, f, r, sent) => Handle(c, w, id, f, r, sent)
      case ImmediateFires => Fill(c, w.(sched := w.sched.(drainScheduled := false)))
      case SlotReleased(r) => Fill(c, Vacated(w, r))
      case StopCalled =>
        if w.life == Unstarted || w.life == Failed then w.(life := Stopped)
        else if w.life == Starting then w.(life := Stopping)
        else BeginShutdown(w.(life := Stopping))
      case ShutdownBegins => BeginShutdown(w)
  }

  /** `while (this.callbackWork.size > 0) await Promise.allSettled([...this.callbackWork])`. */
  function Woken(w: World): Drain {
    if w.callbackWork == {} then Drained else Looping(w.callbackWork)
  }

  function TrackEvent(w: World): World {
    w.(callbackWork := w.callbackWork + {EventDelivery(w.nextEvent)}, nextEvent := w.nextEvent + 1)
  }

  /** The run promise has settled: its slot is free. */
  function Vacated(w: World, r: RunId): World
    requires r in w.runs
  {
    w.(runs := w.runs[r := w.runs[r].(slot := false)],
       sched := w.sched.(active := Less1(w.sched.active)),
       slots := w.slots - {r})
  }

  /** `drain`: queued runs move into free slots; then idle waiters are released if nothing is left. */
  function Fill(c: Config, w: World): World {
    var started := Started(c.limits, w.sched);
    w.(sched := AfterDrain(c.limits, w.sched),
       slots := w.slots + Elements(started),
       runs := map r | r in w.runs :: if r in started then w.runs[r].(phase := Picked, slot := true) else w.runs[r])
  }

  function CancelledRun(run: Run, now: int): Run {
    run.(phase := Delivering, owner := ByStop, deliveries := run.deliveries + 1,
         rec := run.rec.(state := CallbackPending, updatedAtMs := now))
  }

  /** The synchronous part of `shutdown`: the queue is cancelled, and the first `waitForDrain` asks for idleness. */
  function BeginShutdown(w: World): World {
    var queue := w.sched.queue;
    w.(sched := AfterOnIdle(AfterStop(w.sched), 1),
       runs := map r | r in w.runs :: if r in queue then CancelledRun(w.runs[r], w.now) else w.runs[r],
       records := map k | k in w.records ::
                    if w.records[k].runId in queue then w.records[k].(state := CallbackPending, updatedAtMs := w.now)
                    else w.records[k],
       graceful := AwaitingIdle(1))
  }

  // ---- the accept tail of `handleRequest` ---------------------------------------------------

  /** What the client is told: the store's answer first, then the queue's room, then the store's. */
  function Decide(c: Config, w: World, id: InvocationId, f: Fingerprint, r: RunId): Reply {
    match LookupAnswer(w.records, id, f, w.now, c.options.ttlMs)
    case Duplicate(rec) => Repeated(rec.runId, rec.acceptedAt)
    case Conflict(_) => Conflicted
    case Miss =>
      if !HasRoom(c.limits, w.sched) then QueueFull
      else
        var m := AfterLookup(w.records, id, w.now, c.options.ttlMs);
        var rec := NewRecord(id, f, r, w.now, w.now);
        if CreateResult(c.options, m, rec, w.now).Created? then Ran(r, w.now) else CapacityFull
  }

  function RecordsAfter(c: Config, w: World, id: InvocationId, f: Fingerprint, r: RunId): Records {
    var m := AfterLookup(w.records, id, w.now, c.options.ttlMs);
    var reply := Decide(c, w, id, f, r);
    if reply.Ran? || reply.CapacityFull? then AfterCreate(c.options, m, NewRecord(id, f, r, w.now, w.now), w.now) else m
  }

  /** The whole turn, from the lookup on. */
  function Handle(c: Config, w: World, id: InvocationId, f: Fingerprint, r: RunId, sent: bool): World {
    var reply := Decide(c, w, id, f, r);
    var w1 := w.(records := RecordsAfter(c, w, id, f, r), log := w.log + [Entry(w.now, id, f, reply)]);
    if !reply.Ran? then w1
    else
      var w2 := Accept(c, w1, NewRecord(id, f, r, w.now, w.now), r);
      if sent then TrackEvent(w2) else w2
  }

  /** From the answer to the client to `enqueue`; a run that `enqueue` refuses is cancelled by the handler itself. */
  function Accept(c: Config, w: World, rec: Rec, r: RunId): World {
    var admitted := Admits(c.limits, w.sched);
    var records := AfterUpdate(w.records, rec.invocationId, r, Queued, w.now);
    w.(sched := AfterEnqueue(c.limits, w.sched, r),
       records := if admitted then records else AfterUpdate(records, rec.invocationId, r, CallbackPending, w.now),
       runs := w.runs[r := NewRun(rec.(state := Queued, updatedAtMs := w.now), admitted)])
  }

  function NewRun(queued: Rec, admitted: bool): Run {
    if admitted then Run(queued, Waiting, BySlot, false, None, false, 0, false, None)
    else Run(queued.(state := CallbackPending), Delivering, ByHandler, false, None, false, 1, false, None)
  }

  /** The state after a run of the event loop; None if some turn was not enabled. */
  function Execute(c: Config, turns: seq<Turn>): Option<World>
    decreases |turns|
  {
    if turns == [] then Some(START)
    else
      var before := Execute(c, turns[..|turns| - 1]);
      var e := turns[|turns| - 1];
      if before.Some? && Enabled(before.value, e) then Some(Step(c, before.value, e)) else None
  }
}
