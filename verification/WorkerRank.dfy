// A measure of how far a stop is from its end: every turn that makes progress lowers it, so without late requests
// and late events only that many such turns can come before "stopped".
module WorkerRank {
  import opened Ids
  import opened Wrappers
  import opened Scheduling
  import opened Idempotency
  import opened WorkerProtocol
  import opened WorkerInvariants
  import opened WorkerShutdown
  import opened WorkerProgress
  import ExecuteRun

  function PhaseRank(p: Phase): nat {
    match p
    case Waiting => 14
    case Picked => 13
    case Executing => 12
    case Delivering => 11
    case Notifying => 10
    case Announcing => 9
    case Settled => 4
    case Done => 0
  }

  ghost function RunsRank(runs: map<RunId, Run>): nat
    decreases |runs|
  {
    if runs == map[] then 0
    else
      var r :| r in runs;
      assert |runs - {r}| < |runs| by { FewerRuns(runs, r); }
      PhaseRank(runs[r].phase) + RunsRank(runs - {r})
  }

  lemma FewerRuns(runs: map<RunId, Run>, r: RunId)
    requires r in runs
    ensures |runs - {r}| == |runs| - 1
  {
    assert (runs - {r}).Keys == runs.Keys - {r};
    assert |runs.Keys| == |runs| && |(runs - {r}).Keys| == |runs - {r}|;
  }

  /** The sum does not depend on the order of its terms. */
  lemma {:induction false} TakeOut(runs: map<RunId, Run>, r: RunId)
    requires r in runs
    ensures RunsRank(runs) == PhaseRank(runs[r].phase) + RunsRank(runs - {r})
    decreases |runs|
  {
    hide PhaseRank;
    var q :| q in runs && RunsRank(runs) == PhaseRank(runs[q].phase) + RunsRank(runs - {q});
    if q != r {
      FewerRuns(runs, q);
      FewerRuns(runs, r);
      TakeOut(runs - {q}, r);
      TakeOut(runs - {r}, q);
      assert runs - {q} - {r} == runs - {r} - {q};
    }
  }

  lemma RunMoves(runs: map<RunId, Run>, r: RunId, run: Run)
    requires r in runs
    ensures RunsRank(runs[r := run]) == RunsRank(runs) - PhaseRank(runs[r].phase) + PhaseRank(run.phase)
  {
    TakeOut(runs, r);
    TakeOut(runs[r := run], r);
    assert runs[r := run] - {r} == runs - {r};
  }

  lemma {:induction false} SamePhases(a: map<RunId, Run>, b: map<RunId, Run>)
    requires a.Keys == b.Keys && forall r :: r in a ==> a[r].phase == b[r].phase
    ensures RunsRank(a) == RunsRank(b)
    decreases |a|
  {
    if a != map[] {
      var r :| r in a;
      TakeOut(a, r);
      TakeOut(b, r);
      FewerRuns(a, r);
      SamePhases(a - {r}, b - {r});
    } else {
      assert b.Keys == {};
      assert b == map[];
    }
  }

  ghost function Events(work: set<Work>): set<Work> {
    set x | x in work && x.EventDelivery?
  }

  function DrainRank(d: Drain, work: set<Work>): nat {
    match d
    case Unentered => 4
    case AwaitingIdle(_) => 3
    case Looping(snapshot) => if snapshot !! work then 1 else 0
    case Drained => 0
  }

  ghost function Rank(w: World): nat {
    RunsRank(w.runs) + 4 * |Events(w.callbackWork)| + |w.slots|
    + DrainRank(w.graceful, w.callbackWork) + DrainRank(w.forced, w.callbackWork)
    + (if w.cancelledSettled then 0 else 1) + (if w.closed then 0 else 1) + (if w.life == Stopped then 0 else 1)
  }

  // ---- turns of one run --------------------------------------------------------------------------

  lemma RemovalRank(d: Drain, work: set<Work>, x: Work)
    ensures DrainRank(d, work - {x}) <= DrainRank(d, work) + 1
    ensures DrainRank(d, work + {x}) <= DrainRank(d, work)
  {}

  lemma ChainEvents(work: set<Work>, r: RunId)
    ensures Events(work + {Chain(r)}) == Events(work) && Events(work - {Chain(r)}) == Events(work)
  {}

  lemma EventEvents(work: set<Work>, n: nat)
    ensures EventDelivery(n) !in work ==> |Events(work + {EventDelivery(n)})| == |Events(work)| + 1
    ensures EventDelivery(n) in work ==> |Events(work - {EventDelivery(n)})| == |Events(work)| - 1
  {
    assert EventDelivery(n) !in work ==> Events(work + {EventDelivery(n)}) == Events(work) + {EventDelivery(n)};
    assert EventDelivery(n) in work ==> Events(work - {EventDelivery(n)}) == Events(work) - {EventDelivery(n)};
  }

  /** The phase of the run drops by more than its turn can add in tracked work. */
  lemma PhaseDrops(run: Run, e: Turn, now: int, nextEvent: nat)
    requires OfOneRun(e) && RunEnabled(run, e)
    ensures var after := RunAfter(run, e, now, nextEvent);
            PhaseRank(run.phase) >=
            PhaseRank(after.phase) + if e.TerminalEmitted? then 5 else if e.ChainObserved? then 3 else 1
  {
    hide ExecuteRun.ExecuteAgent, Sendable, Writes, Written;
  }

  lemma RunTurnLowers(w: World, e: Turn)
    requires TrackInv(w) && OfOneRun(e) && e.run in w.runs && RunEnabled(w.runs[e.run], e)
    ensures Rank(RunStep(w, e)) < Rank(w)
  {
    hide AfterUpdate, Events, DrainRank, RunsRank, Sendable, RunAfter, RunEnabled, PhaseRank, Writes;
    var r := e.run;
    PhaseDrops(w.runs[r], e, w.now, w.nextEvent);
    RunMoves(w.runs, r, RunAfter(w.runs[r], e, w.now, w.nextEvent));
    ChainEvents(w.callbackWork, r);
    EventEvents(w.callbackWork, w.nextEvent);
    assert EventDelivery(w.nextEvent) !in w.callbackWork;
    RemovalRank(w.graceful, w.callbackWork, Chain(r));
    RemovalRank(w.forced, w.callbackWork, Chain(r));
    RemovalRank(w.graceful, w.callbackWork, EventDelivery(w.nextEvent));
    RemovalRank(w.forced, w.callbackWork, EventDelivery(w.nextEvent));
  }

  // ---- the other turns ------------------------------------------------------------------------------

  lemma QueueHeadRuns(w: World)
    requires QueueInv(w)
    ensures w.sched.queue != [] ==> w.sched.queue[0] in w.runs
  {
    if w.sched.queue != [] { assert InPhase(w, w.sched.queue[0], Waiting); }
  }

  /** While stopping nothing is started any more. */
  lemma NothingStarts(c: Config, w: World)
    requires ProtocolInv(w) && w.life == Stopping
    ensures w.graceful.Unentered? ==> w.runs == map[] && w.sched.queue == []
    ensures !w.graceful.Unentered? ==> !w.sched.accepting && w.sched.queue == []
    ensures Started(c.limits, w.sched) == []
  {
    QueueHeadRuns(w);
  }

  lemma SlotTurnLowers(c: Config, w: World, r: RunId)
    requires ProtocolInv(w) && w.life == Stopping && Enabled(w, SlotReleased(r))
    ensures Rank(Step(c, w, SlotReleased(r))) < Rank(w)
  {
    hide ProtocolInv, Rank, Fill, Vacated, Step, Enabled;
    NothingStarts(c, w);
    SlotsHeld(w, r);
    StepByKind(c, w, SlotReleased(r));
    VacatedRank(w, r);
    FillRank(c, Vacated(w, r));
  }

  lemma SlotsHeld(w: World, r: RunId)
    requires ProtocolInv(w) && Enabled(w, SlotReleased(r))
    ensures r in w.slots && w.runs[r].phase != Waiting
  {}

  lemma VacatedRank(w: World, r: RunId)
    requires r in w.runs && r in w.slots
    ensures Rank(Vacated(w, r)) < Rank(w)
    ensures Vacated(w, r).sched.queue == w.sched.queue
  {
    hide Events, DrainRank, RunsRank;
    SamePhases(w.runs, Vacated(w, r).runs);
    assert Vacated(w, r).slots == w.slots - {r};
  }

  /** A drain that finds nothing to start. */
  lemma FillRank(c: Config, w: World)
    requires w.sched.queue == []
    ensures Rank(Fill(c, w)) == Rank(w)
  {
    hide Events, DrainRank, RunsRank, AfterDrain;
    assert Started(c.limits, w.sched) == [];
    SamePhases(w.runs, Fill(c, w).runs);
    assert Fill(c, w).slots == w.slots by { assert Elements([]) == {}; }
  }

  lemma StopTurnLowers(c: Config, w: World, e: Turn)
    requires ProtocolInv(w) && w.life == Stopping && Enabled(w, e)
    requires e.CancellationsSettle? || e.ServerCloses? || e.GracefulWakes? || e.ForcedWakes? || e.StopCompletes?
    ensures Rank(AsideStep(c, w, e)) < Rank(w)
  {
    hide RunsRank, Events, RunEnabled, ProtocolInv, AfterOnIdle, ResolveIdle, TrackEvent, Swept;
  }

  lemma ShutdownLowers(c: Config, w: World)
    requires ProtocolInv(w) && w.life == Stopping && w.graceful.Unentered?
    ensures Rank(BeginShutdown(w)) < Rank(w)
  {
    hide RunsRank, Events, AfterOnIdle, AfterStop, ProtocolInv;
    NothingStarts(c, w);
    assert BeginShutdown(w).runs == map[];
  }

  lemma EventTurnLowers(c: Config, w: World, n: nat)
    requires Enabled(w, EventDelivered(n))
    ensures Rank(AsideStep(c, w, EventDelivered(n))) < Rank(w)
  {
    hide RunsRank, Events, DrainRank, RunEnabled, Wakeable;
    EventEvents(w.callbackWork, n);
    RemovalRank(w.graceful, w.callbackWork, EventDelivery(n));
    RemovalRank(w.forced, w.callbackWork, EventDelivery(n));
  }

  /** Every turn that makes progress towards the end of a stop lowers the rank. */
  lemma ProgressLowersRank(c: Config, w: World, e: Turn)
    requires ProtocolInv(w) && w.life == Stopping && Enabled(w, e) && Progress(e)
    ensures Rank(Step(c, w, e)) < Rank(w)
  {
    hide Rank, RunsInv, QueueInv, TrackInv, StopInv, LifeInv, Step, Enabled, AsideStep, RunStep, BeginShutdown;
    StepByKind(c, w, e);
    if OfOneRun(e) {
      RunTurnLowers(w, e);
    } else if e.SlotReleased? {
      SlotTurnLowers(c, w, e.run);
    } else if e.EventDelivered? {
      EventTurnLowers(c, w, e.event);
    } else if e.ShutdownBegins? {
      ShutdownLowers(c, w);
    } else {
      StopTurnLowers(c, w, e);
    }
  }

  /** Only a late request or a late event can move a stop away from its end. */
  lemma OthersKeepRank(c: Config, w: World, e: Turn)
    requires ProtocolInv(w) && w.life == Stopping && Enabled(w, e) && !Progress(e) && !e.HandlerTurn?
             && !e.EventEmitted?
    ensures Rank(Step(c, w, e)) <= Rank(w)
  {
    hide Rank, Step, Enabled, AsideStep, ProtocolInv, Fill;
    StepByKind(c, w, e);
    if e.ImmediateFires? {
      DrainTurnRank(c, w);
    } else if Aside(e) {
      AsideKeepsRank(c, w, e);
    } else {
      NoStopCall(c, w, e);
    }
  }

  lemma NoStopCall(c: Config, w: World, e: Turn)
    requires w.life == Stopping && Enabled(w, e)
    ensures !e.StopCalled?
  {
    hide RunEnabled, Wakeable;
  }

  lemma AsideKeepsRank(c: Config, w: World, e: Turn)
    requires Enabled(w, e) && Aside(e) && !Progress(e) && !e.EventEmitted? && w.life == Stopping
    ensures Rank(AsideStep(c, w, e)) <= Rank(w)
  {
    hide RunsRank, Events, RunEnabled, Wakeable, Woken, Swept, AfterOnIdle, ResolveIdle, TrackEvent;
  }

  /** The deferred drain finds nothing to start. */
  lemma DrainTurnRank(c: Config, w: World)
    requires ProtocolInv(w) && w.life == Stopping
    ensures Rank(Fill(c, w.(sched := w.sched.(drainScheduled := false)))) == Rank(w)
  {
    hide RunsRank, Events, DrainRank, ProtocolInv, Fill;
    NothingStarts(c, w);
    FillRank(c, w.(sched := w.sched.(drainScheduled := false)));
  }

  function CountProgress(turns: seq<Turn>): nat {
    if turns == [] then 0 else CountProgress(turns[..|turns| - 1]) + if Progress(turns[|turns| - 1]) then 1 else 0
  }

  /** The worker was stopping before each of the turns `more`. */
  ghost predicate StoppingThrough(c: Config, turns: seq<Turn>, more: seq<Turn>) {
    forall i :: 0 <= i < |more| ==>
      Execute(c, turns + more[..i]).Some? && Execute(c, turns + more[..i]).value.life == Stopping
  }

  /** Without late requests and events, a stop takes at most as many turns of progress as its rank when it begins. */
  lemma {:induction false} ProgressIsBounded(c: Config, turns: seq<Turn>, more: seq<Turn>)
    requires Execute(c, turns).Some? && Execute(c, turns + more).Some? && StoppingThrough(c, turns, more)
    requires forall i :: 0 <= i < |more| ==> !more[i].HandlerTurn? && !more[i].EventEmitted?
    ensures CountProgress(more) + Rank(Execute(c, turns + more).value) <= Rank(Execute(c, turns).value)
    decreases |more|
  {
    hide Rank, Step, Enabled, Progress;
    if more == [] {
      assert turns + more == turns;
    } else {
      var n := |more| - 1;
      var before := turns + more[..n];
      assert (turns + more)[..|turns| + n] == before && (turns + more)[|turns| + n] == more[n];
      assert Execute(c, before).Some? && Execute(c, before).value.life == Stopping;
      assert StoppingThrough(c, turns, more[..n]) by {
        assert forall i :: 0 <= i < n ==> more[..n][..i] == more[..i];
      }
      ProgressIsBounded(c, turns, more[..n]);
      ReachableProtocol(c, before);
      if Progress(more[n]) {
        ProgressLowersRank(c, Execute(c, before).value, more[n]);
      } else {
        OthersKeepRank(c, Execute(c, before).value, more[n]);
      }
    }
  }

  /** A turn of progress neither unbinds the server nor leaves "stopping" except for "stopped". */
  lemma ProgressKeepsStopping(c: Config, w: World, e: Turn)
    requires w.life == Stopping && w.bound && Enabled(w, e) && Progress(e)
    ensures var v := Step(c, w, e); v.bound && (v.life == Stopping || v.life == Stopped)
  {
    hide RunStep, Handle, Fill, Vacated, AsideStep, Step, Enabled, BeginShutdown;
    StepByKind(c, w, e);
    if OfOneRun(e) {
      RunStepSameLife(w, e);
    } else if e.SlotReleased? {
      VacatedSameLife(w, e.run);
      FillSameLife(c, w, Vacated(w, e.run));
    } else if e.ShutdownBegins? {
      BeginShutdownKeys(w);
    } else {
      AsideKeepsBound(c, w, e);
    }
  }

  lemma AsideKeepsBound(c: Config, w: World, e: Turn)
    requires w.life == Stopping && w.bound && Aside(e) && Progress(e)
    ensures var v := AsideStep(c, w, e); v.bound && (v.life == Stopping || v.life == Stopped)
  {
    hide Woken, Swept, ResolveIdle, AfterOnIdle, TrackEvent;
  }

  /** From every reachable stopping state with a bound server, turns of progress alone reach "stopped", and no more of
      them than the rank. */
  lemma {:induction false} StopReachesStopped(c: Config, turns: seq<Turn>) returns (more: seq<Turn>)
    requires Execute(c, turns).Some?
    requires Execute(c, turns).value.life == Stopping && Execute(c, turns).value.bound
    ensures |more| <= Rank(Execute(c, turns).value) && forall i :: 0 <= i < |more| ==> Progress(more[i])
    ensures Execute(c, turns + more).Some? && Execute(c, turns + more).value.life == Stopped
    decreases Rank(Execute(c, turns).value)
  {
    hide Rank, Step, Enabled, Progress, Execute;
    var w := Execute(c, turns).value;
    var e := StopNeverStuck(c, turns);
    ReachableProtocol(c, turns);
    ProgressLowersRank(c, w, e);
    ProgressKeepsStopping(c, w, e);
    ExecuteMore(c, turns, w, e);
    if Step(c, w, e).life == Stopped {
      more := [e];
    } else {
      var rest := StopReachesStopped(c, turns + [e]);
      more := [e] + rest;
      assert turns + more == turns + [e] + rest;
    }
  }
}
