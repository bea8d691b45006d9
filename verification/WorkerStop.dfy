// What `stop()` promises about the runs that were accepted before it, and what it does not promise.
module WorkerStop {
  import opened Ids
  import opened Wrappers
  import opened Scheduling
  import opened Idempotency
  import opened WorkerProtocol
  import opened WorkerInvariants
  import opened WorkerShutdown
  import AgentResults
  import ExecuteRun

  /** The request of turn `i` is accepted: its run exists from then on. */
  ghost predicate Enters(c: Config, turns: seq<Turn>, i: nat) {
    && i < |turns| && turns[i].HandlerTurn?
    && Execute(c, turns[..i]).Some? && Execute(c, turns[..i + 1]).Some?
    && turns[i].run in Execute(c, turns[..i + 1]).value.runs
  }

  /** The scheduler was still accepting when turn `i` came. */
  ghost predicate BeforeStop(c: Config, turns: seq<Turn>, i: nat) {
    i <= |turns| && Execute(c, turns[..i]).Some? && Execute(c, turns[..i]).value.sched.accepting
  }

  /** The scheduler stops accepting exactly when a shutdown begins. */
  lemma AcceptingUntilShutdown(c: Config, turns: seq<Turn>)
    requires Execute(c, turns).Some?
    ensures var w := Execute(c, turns).value; w.sched.accepting <==> w.graceful.Unentered?
  {
    ReachableProtocol(c, turns);
  }

  // ---- who waits for a run ------------------------------------------------------------------

  ghost predicate KeepsHandlerRuns(w: World, v: World) {
    forall r :: r in w.runs ==> r in v.runs && (v.runs[r].owner == ByHandler <==> w.runs[r].owner == ByHandler)
  }

  lemma RunStepKeepsHandlers(w: World, e: Turn)
    requires OfOneRun(e) && e.run in w.runs
    ensures KeepsHandlerRuns(w, RunStep(w, e))
  {}

  lemma HandleKeepsHandlers(c: Config, w: World, id: InvocationId, f: Fingerprint, r: RunId, sent: bool)
    requires r !in w.runs
    ensures KeepsHandlerRuns(w, Handle(c, w, id, f, r, sent))
  {
    hide Decide, RecordsAfter, AfterUpdate, Admits, AfterEnqueue, NewRecord;
  }

  lemma ShutdownKeepsHandlers(w: World)
    requires RunsInv(w) && QueueInv(w)
    ensures KeepsHandlerRuns(w, BeginShutdown(w))
  {
    forall r | r in w.sched.queue && r in w.runs ensures w.runs[r].owner == BySlot {
      assert InPhase(w, r, Waiting);
      WaitingHasNoSlot(w, r);
    }
  }

  lemma StepKeepsHandlers(c: Config, w: World, e: Turn)
    requires ProtocolInv(w) && Enabled(w, e)
    ensures KeepsHandlerRuns(w, Step(c, w, e))
  {
    hide RunsInv, QueueInv, TrackInv, StopInv, LifeInv, KeepsHandlerRuns;
    hide RunStep, Handle, BeginShutdown, Fill, Vacated, AsideStep, Step, Enabled;
    StepByKind(c, w, e);
    if Aside(e) {
      AsideStays(c, w, e);
      SameKeepHandlers(w, AsideStep(c, w, e));
    } else if OfOneRun(e) {
      RunStepKeepsHandlers(w, e);
    } else if e.HandlerTurn? {
      HandleKeepsHandlers(c, w, e.id, e.fingerprint, e.run, e.acceptedSent);
    } else if e.ImmediateFires? {
      SameKeepHandlers(w, w.(sched := w.sched.(drainScheduled := false)));
      FillKeepsHandlers(c, w.(sched := w.sched.(drainScheduled := false)), w);
    } else if e.SlotReleased? {
      VacatedKeepsHandlers(w, e.run);
      FillKeepsHandlers(c, Vacated(w, e.run), w);
    } else {
      ShutdownKeepsHandlers(w);
      if e.StopCalled? {
        StopByLife(c, w, e);
        LifeAsideKeepsHandlers(w);
        SameKeepHandlers(w, w.(life := Stopping));
        SameKeepHandlers(w, w.(life := Stopped));
      }
    }
  }

  lemma SameKeepHandlers(w: World, v: World)
    requires v.runs == w.runs
    ensures KeepsHandlerRuns(w, v)
  {}

  lemma FillKeepsHandlers(c: Config, v: World, w: World)
    requires KeepsHandlerRuns(w, v)
    ensures KeepsHandlerRuns(w, Fill(c, v))
  {
    hide Started, AfterDrain;
  }

  lemma VacatedKeepsHandlers(w: World, r: RunId)
    requires r in w.runs
    ensures KeepsHandlerRuns(w, Vacated(w, r))
  {}

  lemma LifeAsideKeepsHandlers(w: World)
    requires KeepsHandlerRuns(w, BeginShutdown(w))
    ensures KeepsHandlerRuns(w, BeginShutdown(w.(life := Stopping)))
  {
    assert BeginShutdown(w.(life := Stopping)).runs == BeginShutdown(w).runs;
  }

  lemma {:induction false} HandlerRunsStay(c: Config, turns: seq<Turn>, i: nat, r: RunId)
    requires Execute(c, turns).Some? && i <= |turns| && Execute(c, turns[..i]).Some?
             && r in Execute(c, turns[..i]).value.runs
    ensures var v, w := Execute(c, turns[..i]).value, Execute(c, turns).value;
            r in w.runs && (w.runs[r].owner == ByHandler <==> v.runs[r].owner == ByHandler)
    decreases |turns|
  {
    hide Step, Enabled;
    if i == |turns| {
      assert turns[..i] == turns;
    } else {
      var before := turns[..|turns| - 1];
      assert before[..i] == turns[..i];
      HandlerRunsStay(c, before, i, r);
      ReachableProtocol(c, before);
      StepKeepsHandlers(c, Execute(c, before).value, turns[|turns| - 1]);
    }
  }

  lemma AcceptedOwner(c: Config, w: World, id: InvocationId, f: Fingerprint, r: RunId, sent: bool)
    requires r !in w.runs && r in Handle(c, w, id, f, r, sent).runs
    ensures Handle(c, w, id, f, r, sent).runs[r].owner == ByHandler <==> !w.sched.accepting
  {
    hide RecordsAfter, AfterUpdate, LookupAnswer, AfterLookup, CreateResult;
    assert HasRoom(c.limits, w.sched);
  }

  /** A run is its handler's alone exactly when the scheduler had stopped accepting before the handler's turn. */
  lemma ByHandlerExactlyWhenLate(c: Config, turns: seq<Turn>, i: nat)
    requires Execute(c, turns).Some? && Enters(c, turns, i)
    ensures var w, r := Execute(c, turns).value, turns[i].run;
            r in w.runs && (w.runs[r].owner == ByHandler <==> !BeforeStop(c, turns, i))
  {
    hide Handle, Step;
    var before, after := turns[..i], turns[..i + 1];
    assert after[..|after| - 1] == before && after[i] == turns[i];
    EnterStep(c, before, turns[i]);
    HandlerRunsStay(c, turns, i + 1, turns[i].run);
  }

  lemma EnterStep(c: Config, before: seq<Turn>, e: Turn)
    requires e.HandlerTurn? && Execute(c, before).Some? && Enabled(Execute(c, before).value, e)
    requires e.run in Step(c, Execute(c, before).value, e).runs
    ensures var w := Execute(c, before).value;
            Step(c, w, e).runs[e.run].owner == ByHandler <==> !w.sched.accepting
  {
    hide Handle;
    AcceptedOwner(c, Execute(c, before).value, e.id, e.fingerprint, e.run, e.acceptedSent);
  }

  // ---- the results of the runs --------------------------------------------------------------------

  predicate Returns(e: Turn, r: RunId) {
    e.AgentReturns? && e.run == r
  }

  function ResultOf(e: Turn): Result
    requires e.AgentReturns?
  {
    ExecuteRun.ExecuteAgent(e.execution)
  }

  ghost predicate SameResults(w: World, v: World) {
    forall r :: r in v.runs ==> v.runs[r].result == if r in w.runs then w.runs[r].result else None
  }

  lemma HandleSameResults(c: Config, w: World, id: InvocationId, f: Fingerprint, r: RunId, sent: bool)
    requires r !in w.runs
    ensures SameResults(w, Handle(c, w, id, f, r, sent))
  {
    hide Decide, RecordsAfter, AfterUpdate, Admits, AfterEnqueue, NewRecord;
  }

  lemma RunStepResult(w: World, e: Turn, r: RunId)
    requires OfOneRun(e) && e.run in w.runs && r in RunStep(w, e).runs
    ensures r in w.runs
    ensures RunStep(w, e).runs[r].result == if Returns(e, r) then Some(ResultOf(e)) else w.runs[r].result
  {
    hide AfterUpdate, WorkAfter, Emits, Writes, Written;
  }

  lemma StepResult(c: Config, w: World, e: Turn, r: RunId)
    requires Enabled(w, e) && r in Step(c, w, e).runs
    ensures var v := Step(c, w, e);
            v.runs[r].result == if Returns(e, r) then Some(ResultOf(e))
                                else if r in w.runs then w.runs[r].result else None
  {
    hide RunStep, Handle, BeginShutdown, Fill, Vacated, AsideStep, Step, Enabled, SameResults;
    StepByKind(c, w, e);
    var v := Step(c, w, e);
    if OfOneRun(e) {
      RunStepResult(w, e, r);
    } else {
      if Aside(e) {
        AsideStays(c, w, e);
        SameRunsResults(w, v);
      } else if e.HandlerTurn? {
        HandleSameResults(c, w, e.id, e.fingerprint, e.run, e.acceptedSent);
      } else if e.ImmediateFires? {
        SameRunsResults(w, w.(sched := w.sched.(drainScheduled := false)));
        FillSameResults(c, w, w.(sched := w.sched.(drainScheduled := false)));
      } else if e.SlotReleased? {
        VacatedSameResults(w, e.run);
        FillSameResults(c, w, Vacated(w, e.run));
      } else {
        ShutdownSameResults(w, w);
        if e.StopCalled? {
          StopByLife(c, w, e);
          ShutdownSameResults(w, w.(life := Stopping));
          SameRunsResults(w, w.(life := Stopping));
          SameRunsResults(w, w.(life := Stopped));
        }
      }
      SameResult(w, v, r);
    }
  }

  lemma SameRunsResults(w: World, v: World)
    requires v.runs == w.runs
    ensures SameResults(w, v)
  {}

  lemma FillSameResults(c: Config, w: World, v: World)
    requires SameResults(w, v)
    ensures SameResults(w, Fill(c, v))
  {
    hide Started, AfterDrain;
  }

  lemma VacatedSameResults(w: World, r: RunId)
    requires r in w.runs
    ensures SameResults(w, Vacated(w, r))
  {}

  lemma ShutdownSameResults(w: World, v: World)
    requires v.runs == w.runs
    ensures SameResults(w, BeginShutdown(v))
  {}

  lemma SameResult(w: World, v: World, r: RunId)
    requires SameResults(w, v) && r in v.runs
    ensures v.runs[r].result == if r in w.runs then w.runs[r].result else None
  {}

  lemma KnownRunsStay(c: Config, w: World, e: Turn, r: RunId)
    requires ProtocolInv(w) && Enabled(w, e) && r in w.runs
    ensures r in Step(c, w, e).runs
  {
    hide Step, Enabled, ProtocolInv;
    StepKeepsHandlers(c, w, e);
  }

  /** `executeAgent` returns for a run that has no result yet. */
  lemma ReturnsOnce(c: Config, w: World, e: Turn, r: RunId)
    requires ProtocolInv(w) && Enabled(w, e) && Returns(e, r)
    ensures r in w.runs && w.runs[r].result.None?
  {
    hide QueueInv, TrackInv, StopInv, LifeInv, Wakeable;
    RunOf(w, r);
  }

  /** The result of a run is what `executeAgent` made of the run's one outcome. */
  lemma {:induction false} ResultWasReturned(c: Config, turns: seq<Turn>, r: RunId)
    requires Execute(c, turns).Some?
    ensures var runs := Execute(c, turns).value.runs;
            && (forall j :: 0 <= j < |turns| && Returns(turns[j], r) ==>
                  r in runs && runs[r].result == Some(ResultOf(turns[j])))
            && (r in runs && runs[r].result.Some? ==> exists j :: 0 <= j < |turns| && Returns(turns[j], r))
    decreases |turns|
  {
    hide Step, Enabled, ProtocolInv, ResultOf;
    if turns != [] {
      var n := |turns| - 1;
      var before, w := Execute(c, turns[..n]).value, Execute(c, turns).value;
      ReachableProtocol(c, turns[..n]);
      ResultWasReturned(c, turns[..n], r);
      assert forall j :: 0 <= j < n ==> turns[..n][j] == turns[j];
      if r in before.runs { KnownRunsStay(c, before, turns[n], r); }
      if Returns(turns[n], r) { ReturnsOnce(c, before, turns[n], r); }
      if r in w.runs { StepResult(c, before, turns[n], r); }
    }
  }

  // ---- main result -----------------------------------------------------------------------------

  /** `executeAgent` returned a result for the run that `asJsonValue` refuses. */
  ghost predicate StrandedRun(turns: seq<Turn>, r: RunId) {
    exists j :: 0 <= j < |turns| && Returns(turns[j], r) && ExecuteRun.Stranded(turns[j].execution)
  }

  lemma SendableExactly(c: Config, turns: seq<Turn>, r: RunId)
    requires Execute(c, turns).Some? && r in Execute(c, turns).value.runs
    ensures Sendable(Execute(c, turns).value.runs[r].result) <==> !StrandedRun(turns, r)
  {
    hide Execute, ExecuteRun.Stranded, ExecuteRun.ExecuteAgent, AgentResults.Sent;
    ResultWasReturned(c, turns, r);
    forall j | 0 <= j < |turns| && Returns(turns[j], r)
      ensures AgentResults.Sent(ResultOf(turns[j])).None? <==> ExecuteRun.Stranded(turns[j].execution)
    {
      ExecuteRun.StrandedExactly(turns[j].execution);
    }
  }

  /** At "stopped" every run that was accepted before the scheduler stopped accepting is over. */
  lemma StoppedRunsAreOver(c: Config, turns: seq<Turn>, i: nat)
    requires Execute(c, turns).Some? && Execute(c, turns).value.life == Stopped
    requires Enters(c, turns, i) && BeforeStop(c, turns, i)
    ensures var w, r := Execute(c, turns).value, turns[i].run;
            && r in w.runs
            && Idle(w.sched) && !w.sched.accepting && w.slots == {}
            && w.runs[r].phase == Done && w.runs[r].deliveries == 1
            && (Terminal(w.runs[r].rec.state) <==> !StrandedRun(turns, r))
            && (w.runs[r].announced <==> !StrandedRun(turns, r) && !w.runs[r].hookThrew)
            && Chain(r) !in w.callbackWork
            && (w.runs[r].event.Some? ==> EventDelivery(w.runs[r].event.value) !in w.callbackWork)
  {
    hide Execute, StrandedRun, Sendable;
    ByHandlerExactlyWhenLate(c, turns, i);
    OwnedRunsAreDrained(c, turns, turns[i].run);
    SendableExactly(c, turns, turns[i].run);
  }

  /** In particular a run whose output was refused ends with a terminal record: its failure was delivered, or failed
      to be. */
  lemma RefusedOutputEndsTerminal(c: Config, turns: seq<Turn>, i: nat, j: nat)
    requires Execute(c, turns).Some? && Execute(c, turns).value.life == Stopped
    requires Enters(c, turns, i) && BeforeStop(c, turns, i)
    requires j < |turns| && Returns(turns[j], turns[i].run) && ExecuteRun.OutputRefused(turns[j].execution)
    ensures var runs, r := Execute(c, turns).value.runs, turns[i].run;
            && r in runs && runs[r].result == Some(ExecuteRun.InvalidOutput(turns[j].execution))
            && Terminal(runs[r].rec.state)
  {
    hide Execute, ExecuteRun.ExecuteAgent, ExecuteRun.InvalidOutput, AgentResults.Sent, ExecuteRun.OutputRefused;
    StoppedRunsAreOver(c, turns, i);
    ResultWasReturned(c, turns, turns[i].run);
    SendableExactly(c, turns, turns[i].run);
    ExecuteRun.RefusedOutputIsReported(turns[j].execution);
  }

  // ---- two ways to stop short of it ---------------------------------------------------------------

  const REC: Rec := Rec("a", "f", 7, 0, Queued, 0, 0)

  /** Run 7 of invocation "a", somewhere in its life, alone in a worker that serves. */
  function Alone(sched: Sched, slots: set<RunId>, run: Run, work: set<Work>): World {
    World(0, Serving, true, true, sched, slots, map["a" := run.rec], map[7 := run], work, 0, false,
          Unentered, Unentered, false, [Entry(0, "a", "f", Ran(7, 0))])
  }

  function Slotted(active: nat): Sched { Sched(true, active, [], {}, false) }

  lemma FirstRequest(w: World)
    requires w == World(0, Serving, true, true, FRESH, {}, map[], map[], {}, 0, false, Unentered, Unentered, false, [])
    ensures Handle(SMALL, w, "a", "f", 7, false) ==
            Alone(Sched(true, 0, [7], {}, true), {}, Run(REC, Waiting, BySlot, false, None, false, 0, false, None), {})
  {
    assert Decide(SMALL, w, "a", "f", 7) == Ran(7, 0);
    assert RecordsAfter(SMALL, w, "a", "f", 7) == map["a" := NewRecord("a", "f", 7, 0, 0)];
  }

  lemma ServingWorker() returns (turns: seq<Turn>, w: World)
    ensures Execute(SMALL, turns) == Some(w)
    ensures w == Alone(Sched(true, 0, [7], {}, true), {},
                       Run(REC, Waiting, BySlot, false, None, false, 0, false, None), {})
  {
    hide RunEnabled, RunStep, Handle, Fill, Vacated, Swept, Execute, BeginShutdown;
    turns, w := BoundWorker();
    var request := HandlerTurn("a", "f", 7, false);
    FirstRequest(w);
    ExecuteMore(SMALL, turns, w, request);
    turns, w := turns + [request], Step(SMALL, w, request);
  }

  lemma DrainsOne()
    ensures var s := Sched(true, 0, [7], {}, false);
            Started(SMALL.limits, s) == [7] && AfterDrain(SMALL.limits, s) == Slotted(1)
    ensures Elements([7]) == {7}
  {
    hide Elements;
    var s := Sched(true, 0, [7], {}, false);
    assert Startable(SMALL.limits, s) == 1;
    ElementsOfOne();
  }

  lemma ElementsOfOne()
    ensures Elements([7]) == {7} && Elements([]) == {}
  {}

  lemma DrainsNone()
    ensures Started(SMALL.limits, Slotted(0)) == [] && AfterDrain(SMALL.limits, Slotted(0)) == Slotted(0)
    ensures Elements([]) == {}
  {
    hide Elements;
    assert Startable(SMALL.limits, Slotted(0)) == 0;
    ElementsOfOne();
  }

  lemma FillOne(run: Run)
    ensures Fill(SMALL, Alone(Sched(true, 0, [7], {}, false), {}, run, {})) ==
            Alone(Slotted(1), {7}, run.(phase := Picked, slot := true), {})
  {
    hide Started, AfterDrain, Elements;
    DrainsOne();
    var v := Fill(SMALL, Alone(Sched(true, 0, [7], {}, false), {}, run, {}));
    assert v.runs == map[7 := run.(phase := Picked, slot := true)];
  }

  lemma StartOfRun(run: Run)
    ensures var w := Alone(Sched(true, 0, [7], {}, true), {}, run, {});
            Enabled(w, ImmediateFires)
            && Step(SMALL, w, ImmediateFires) == Alone(Slotted(1), {7}, run.(phase := Picked, slot := true), {})
  {
    hide RunStep, Handle, Vacated, BeginShutdown, Fill, RunEnabled, Woken, Wakeable;
    FillOne(run);
  }

  function WorkOfAlone(work: set<Work>, e: Turn): set<Work> {
    if e.AgentReturns? then work + {Chain(7)} else if e.ChainObserved? then work - {Chain(7)} else work
  }

  /** One turn of run 7's chain. */
  lemma AloneMoves(sched: Sched, slots: set<RunId>, run: Run, work: set<Work>, e: Turn)
    requires OfOneRun(e) && e.run == 7 && RunEnabled(run, e) && !Emits(e)
    requires run.rec.invocationId == "a" && run.rec.runId == 7
    ensures var w := Alone(sched, slots, run, work);
            Enabled(w, e) && Step(SMALL, w, e) == Alone(sched, slots, RunAfter(run, e, 0, 0), WorkOfAlone(work, e))
  {
    hide AsideStep, RunStep, Step, RunEnabled, Wakeable;
    var w := Alone(sched, slots, run, work);
    StepByKind(SMALL, w, e);
    AloneRunStep(sched, slots, run, work, e);
  }

  lemma AloneRunStep(sched: Sched, slots: set<RunId>, run: Run, work: set<Work>, e: Turn)
    requires OfOneRun(e) && e.run == 7 && !Emits(e) && run.rec.invocationId == "a" && run.rec.runId == 7
    ensures RunStep(Alone(sched, slots, run, work), e) ==
            Alone(sched, slots, RunAfter(run, e, 0, 0), WorkOfAlone(work, e))
  {
    var v := RunStep(Alone(sched, slots, run, work), e);
    assert v.runs == map[7 := RunAfter(run, e, 0, 0)];
    assert v.records == map["a" := RunAfter(run, e, 0, 0).rec];
  }

  lemma FillNone(run: Run, work: set<Work>)
    ensures Fill(SMALL, Alone(Slotted(0), {}, run, work)) == Alone(Slotted(0), {}, run, work)
  {
    hide Started, AfterDrain, Elements;
    DrainsNone();
    assert Fill(SMALL, Alone(Slotted(0), {}, run, work)).runs == map[7 := run];
  }

  lemma SlotFreed(run: Run, work: set<Work>)
    requires run.slot && Delivery(run.phase)
    ensures var w := Alone(Slotted(1), {7}, run, work);
            && Enabled(w, SlotReleased(7))
            && Step(SMALL, w, SlotReleased(7)) == Alone(Slotted(0), {}, run.(slot := false), work)
  {
    hide RunStep, Handle, BeginShutdown, Fill, RunEnabled, Woken, Wakeable;
    var v := Vacated(Alone(Slotted(1), {7}, run, work), 7);
    assert v.runs == map[7 := run.(slot := false)] && v.slots == {};
    FillNone(run.(slot := false), work);
  }

  /** The agent of run 7 has come back with `x` and the delivery of its result is going on. */
  lemma DeliveringWorker(x: ExecuteRun.Execution) returns (turns: seq<Turn>, run: Run)
    ensures Execute(SMALL, turns) == Some(Alone(Slotted(0), {}, run, {Chain(7)}))
    ensures run == Run(REC.(state := CallbackPending), Delivering, BySlot, false, Some(ExecuteRun.ExecuteAgent(x)),
                       false, 1, false, None)
  {
    hide ExecuteRun.ExecuteAgent;
    hide RunStep, Handle, Fill, Vacated, Swept, Execute, BeginShutdown, Alone, Step, Enabled;
    var w;
    turns, w := ServingWorker();
    StartOfRun(Run(REC, Waiting, BySlot, false, None, false, 0, false, None));
    ExecuteMore(SMALL, turns, w, ImmediateFires);
    turns := turns + [ImmediateFires];
    run := Run(REC, Picked, BySlot, true, None, false, 0, false, None);
    turns, run := ChainTurn(turns, Slotted(1), {7}, run, {}, RunBegins(7), {});
    turns, run := ChainTurn(turns, Slotted(1), {7}, run, {}, AgentReturns(7, x), {Chain(7)});
    SlotFreed(run, {Chain(7)});
    ExecuteMore(SMALL, turns, Alone(Slotted(1), {7}, run, {Chain(7)}), SlotReleased(7));
    turns, run := turns + [SlotReleased(7)], run.(slot := false);
  }

  lemma ChainTurn(start: seq<Turn>, sched: Sched, slots: set<RunId>, run: Run, work: set<Work>, e: Turn,
                  left: set<Work>)
    returns (turns: seq<Turn>, after: Run)
    requires Execute(SMALL, start) == Some(Alone(sched, slots, run, work))
    requires OfOneRun(e) && e.run == 7 && RunEnabled(run, e) && !Emits(e)
    requires run.rec.invocationId == "a" && run.rec.runId == 7 && left == WorkOfAlone(work, e)
    ensures after == RunAfter(run, e, 0, 0)
    ensures Execute(SMALL, turns) == Some(Alone(sched, slots, after, left))
  {
    hide Execute, Step, Enabled, RunEnabled, RunAfter;
    AloneMoves(sched, slots, run, work, e);
    ExecuteMore(SMALL, start, Alone(sched, slots, run, work), e);
    turns, after := start + [e], RunAfter(run, e, 0, 0);
  }

  /** A worker whose only run is over stops. */
  lemma StopAlone(start: seq<Turn>, run: Run) returns (turns: seq<Turn>)
    requires Execute(SMALL, start) == Some(Alone(Slotted(0), {}, run, {})) && run.owner == BySlot
    ensures Execute(SMALL, turns).Some?
    ensures var w := Execute(SMALL, turns).value; w.life == Stopped && w.runs == map[7 := run]
  {
    hide RunEnabled, RunStep, Handle, Fill, Vacated, Swept, Execute;
    var w := Alone(Slotted(0), {}, run, {});
    ExecuteMore(SMALL, start, w, StopCalled);
    turns, w := start + [StopCalled], Step(SMALL, w, StopCalled);
    assert w.runs == map[7 := run];
    ExecuteMore(SMALL, turns, w, CancellationsSettle);
    turns, w := turns + [CancellationsSettle], Step(SMALL, w, CancellationsSettle);
    turns := FinishStop(turns, w);
  }

  /** A worker can stop with a record still pending: the agent put a date into the metadata of its result. */
  lemma RefusedResultStaysPending() returns (turns: seq<Turn>)
    ensures Execute(SMALL, turns).Some?
    ensures var w := Execute(SMALL, turns).value;
            && w.life == Stopped && 7 in w.runs && w.runs[7].rec.state == CallbackPending && !w.runs[7].announced
            && w.runs[7].result == Some(ExecuteRun.ExecuteAgent(ExecuteRun.DATED)) && !Sendable(w.runs[7].result)
  {
    hide Execute, Alone, ExecuteRun.ExecuteAgent, ExecuteRun.DATED, ExecuteRun.Stranded, AgentResults.Sent;
    ExecuteRun.DatedIsStranded();
    ExecuteRun.StrandedExactly(ExecuteRun.DATED);
    var run;
    turns, run := DeliveringWorker(ExecuteRun.DATED);
    turns, run := ChainTurn(turns, Slotted(0), {}, run, {Chain(7)}, ResultRefused(7), {Chain(7)});
    turns, run := ChainTurn(turns, Slotted(0), {}, run, {Chain(7)}, ChainObserved(7), {});
    turns := StopAlone(turns, run);
  }

  /** A worker can stop without a terminal event for a result that could not be delivered: the hook threw and so did
      the logger. */
  lemma ThrowingHookSilencesTerminal() returns (turns: seq<Turn>)
    ensures Execute(SMALL, turns).Some?
    ensures var w := Execute(SMALL, turns).value;
            && w.life == Stopped && 7 in w.runs && w.runs[7].hookThrew && w.runs[7].rec.state == CallbackFailed
            && w.runs[7].result == Some(ExecuteRun.ExecuteAgent(ExecuteRun.PLAIN)) && Sendable(w.runs[7].result)
            && !w.runs[7].announced
  {
    hide Execute, Alone, ExecuteRun.ExecuteAgent, ExecuteRun.PLAIN, AgentResults.Sent;
    ExecuteRun.PlainIsSent();
    var run;
    turns, run := DeliveringWorker(ExecuteRun.PLAIN);
    turns, run := ChainTurn(turns, Slotted(0), {}, run, {Chain(7)}, ResultAnswered(7, false), {Chain(7)});
    turns, run := ChainTurn(turns, Slotted(0), {}, run, {Chain(7)}, HookReturned(7, true), {Chain(7)});
    turns, run := ChainTurn(turns, Slotted(0), {}, run, {Chain(7)}, ChainObserved(7), {});
    turns := StopAlone(turns, run);
  }
}
