// The whole story of one run, told from the turns: which turns its chain takes, in which order, and what each leaves
// in its record and issues.
module WorkerTurns {
  import opened Ids
  import opened Wrappers
  import opened Scheduling
  import opened Idempotency
  import opened WorkerProtocol
  import opened WorkerInvariants
  import opened WorkerShutdown
  import opened WorkerStop
  import AgentResults
  import ExecuteRun

  /** The turns of one run's chain. */
  function TurnsOf(turns: seq<Turn>, r: RunId): seq<Turn> {
    if turns == [] then []
    else
      var e := turns[|turns| - 1];
      var before := TurnsOf(turns[..|turns| - 1], r);
      if OfOneRun(e) && e.run == r then before + [e] else before
  }

  /** The turns before the delivery starts: a run that got a slot begins and its agent returns; any other has none. */
  predicate Handed(ts: seq<Turn>, r: RunId, run: Run) {
    if run.owner != BySlot then ts == [] && run.result.None?
    else
      && |ts| == 2 && ts[0] == RunBegins(r) && ts[1].AgentReturns? && ts[1].run == r
      && run.result == Some(ExecuteRun.ExecuteAgent(ts[1].execution))
  }

  /** How a delivery ends. */
  datatype End =
    | Refused                          // `asJsonValue` refused the result
    | Sent(announced: bool)            // delivered; the emitter scheduled the terminal event or not
    | Unsent(announced: bool)          // not delivered, and the failure hook returned
    | Silenced                         // not delivered, and the failure hook and the logger threw

  /** The turns from the start of the delivery to its end. */
  function EndTurns(end: End, r: RunId): seq<Turn> {
    match end
    case Refused => [ResultRefused(r)]
    case Sent(announced) => [ResultAnswered(r, true), TerminalEmitted(r, announced)]
    case Unsent(announced) => [ResultAnswered(r, false), HookReturned(r, false), TerminalEmitted(r, announced)]
    case Silenced => [ResultAnswered(r, false), HookReturned(r, true)]
  }

  /** What a delivery that ended so leaves behind. */
  predicate Left(end: End, run: Run) {
    && (end.Refused? <==> !Sendable(run.result))
    && run.rec.state == (match end
                         case Refused => CallbackPending
                         case Sent(_) => Delivered
                         case Unsent(_) => CallbackFailed
                         case Silenced => CallbackFailed)
    && (run.announced <==> end.Sent? || end.Unsent?)
    && (run.event.Some? <==> (end.Sent? || end.Unsent?) && end.announced)
    && (run.hookThrew <==> end.Silenced?)
  }

  /** How the delivery of a run that is over has ended, read off its record. */
  function EndOf(run: Run): End {
    if !Sendable(run.result) then Refused
    else if run.rec.state == Delivered then Sent(run.event.Some?)
    else if run.hookThrew then Silenced
    else Unsent(run.event.Some?)
  }

  /** The turns of a run so far are exactly those that lead to where it stands. */
  predicate Told(ts: seq<Turn>, r: RunId, run: Run) {
    var n := if run.owner == BySlot then 2 else 0;
    match run.phase
    case Waiting => ts == [] && run.owner == BySlot && run.rec.state == Queued && Fresh(run)
    case Picked => ts == [] && run.owner == BySlot && run.rec.state == Queued && Fresh(run)
    case Executing => ts == [RunBegins(r)] && run.owner == BySlot && run.rec.state == Running && Fresh(run)
    case Delivering =>
      Handed(ts, r, run) && run.rec.state == CallbackPending && !run.announced && run.event.None? && !run.hookThrew
    case Notifying =>
      && |ts| == n + 1 && Handed(ts[..n], r, run) && ts[n..] == [ResultAnswered(r, false)] && Sendable(run.result)
      && run.rec.state == CallbackFailed && !run.announced && run.event.None? && !run.hookThrew
    case Announcing =>
      && |ts| >= n && Handed(ts[..n], r, run) && Sendable(run.result)
      && !run.announced && run.event.None? && !run.hookThrew
      && (if run.rec.state == Delivered then ts[n..] == [ResultAnswered(r, true)]
          else run.rec.state == CallbackFailed && ts[n..] == [ResultAnswered(r, false), HookReturned(r, false)])
    case Settled => |ts| >= n && Handed(ts[..n], r, run) && ts[n..] == EndTurns(EndOf(run), r) && Left(EndOf(run), run)
    case Done =>
      && |ts| >= n && Handed(ts[..n], r, run) && ts[n..] == EndTurns(EndOf(run), r) + [ChainObserved(r)]
      && Left(EndOf(run), run)
  }

  predicate Fresh(run: Run) {
    run.result.None? && !run.announced && run.event.None? && !run.hookThrew
  }

  // ---- one turn ---------------------------------------------------------------------------------------

  lemma RestOf(ts: seq<Turn>, n: nat, e: Turn)
    requires n <= |ts|
    ensures (ts + [e])[..n] == ts[..n] && (ts + [e])[n..] == ts[n..] + [e]
  {}

  /** A turn of the run's own chain. */
  lemma OwnTurnTold(ts: seq<Turn>, r: RunId, run: Run, e: Turn, now: int, nextEvent: nat)
    requires Told(ts, r, run) && OfOneRun(e) && e.run == r && RunEnabled(run, e)
    ensures Told(ts + [e], r, RunAfter(run, e, now, nextEvent))
  {
    if e.RunBegins? || e.AgentReturns? || e.ResultAnswered? || e.ResultRefused? {
      EarlyTurnTold(ts, r, run, e, now, nextEvent);
    } else {
      LateTurnTold(ts, r, run, e, now, nextEvent);
    }
  }

  lemma EarlyTurnTold(ts: seq<Turn>, r: RunId, run: Run, e: Turn, now: int, nextEvent: nat)
    requires Told(ts, r, run) && OfOneRun(e) && e.run == r && RunEnabled(run, e)
    requires e.RunBegins? || e.AgentReturns? || e.ResultAnswered? || e.ResultRefused?
    ensures Told(ts + [e], r, RunAfter(run, e, now, nextEvent))
  {
    hide ExecuteRun.ExecuteAgent, Sendable;
    var n := if run.owner == BySlot then 2 else 0;
    if |ts| >= n { RestOf(ts, n, e); }
    assert |ts| == n ==> ts[..n] == ts && ts[n..] == [];
  }

  lemma LateTurnTold(ts: seq<Turn>, r: RunId, run: Run, e: Turn, now: int, nextEvent: nat)
    requires Told(ts, r, run) && OfOneRun(e) && e.run == r && RunEnabled(run, e)
    requires e.HookReturned? || e.TerminalEmitted? || e.ChainObserved?
    ensures Told(ts + [e], r, RunAfter(run, e, now, nextEvent))
  {
    hide ExecuteRun.ExecuteAgent, Sendable, Handed;
    var n := if run.owner == BySlot then 2 else 0;
    RestOf(ts, n, e);
    SameHanded(ts[..n], r, run, RunAfter(run, e, now, nextEvent));
  }

  lemma SameHanded(ts: seq<Turn>, r: RunId, run: Run, after: Run)
    requires Handed(ts, r, run) && after.owner == run.owner && after.result == run.result
    ensures Handed(ts, r, after)
  {}

  /** A turn that is not of its chain: it gets a slot, gives it up, or is cancelled in the queue. */
  ghost predicate Moves(run: Run, after: Run) {
    || after == run
    || after == run.(slot := false)
    || (run.phase == Waiting && after == run.(phase := Picked, slot := true))
    || (run.phase == Waiting && exists now :: after == CancelledRun(run, now))
  }

  lemma MovesTold(ts: seq<Turn>, r: RunId, run: Run, after: Run)
    requires Told(ts, r, run) && Moves(run, after)
    ensures Told(ts, r, after)
  {
    hide ExecuteRun.ExecuteAgent, Sendable;
  }

  lemma NewRunTold(r: RunId, rec: Rec, admitted: bool)
    requires rec.state == Queued
    ensures Told([], r, NewRun(rec, admitted))
  {}

  // ---- every turn of the worker -----------------------------------------------------------------------

  /** The turn is not of the chain of `r`, whose run at most moves. */
  ghost predicate Spares(w: World, v: World, r: RunId) {
    if r in w.runs then r in v.runs && Moves(w.runs[r], v.runs[r])
    else r in v.runs ==> Told([], r, v.runs[r])
  }

  lemma OthersSpared(w: World, e: Turn, r: RunId)
    requires OfOneRun(e) && e.run in w.runs && e.run != r
    ensures Spares(w, RunStep(w, e), r)
  {
    hide AfterUpdate, RunAfter, WorkAfter, Emits, Writes, Told;
  }

  lemma FillSpares(c: Config, w: World, r: RunId)
    requires QueueInv(w)
    ensures Spares(w, Fill(c, w), r)
  {
    hide AfterDrain, Told;
    if r in Started(c.limits, w.sched) {
      assert r in w.sched.queue;
      assert InPhase(w, r, Waiting);
    }
  }

  lemma ShutdownSpares(w: World, r: RunId)
    requires QueueInv(w)
    ensures Spares(w, BeginShutdown(w), r)
  {
    hide AfterOnIdle, AfterStop, Told;
    if r in w.sched.queue { assert InPhase(w, r, Waiting); }
  }

  lemma AcceptSpares(c: Config, w: World, rec: Rec, q: RunId, r: RunId)
    requires q !in w.runs
    ensures Spares(w, Accept(c, w, rec, q), r)
  {
    hide AfterUpdate, Admits, AfterEnqueue, Told, NewRun;
    NewRunTold(q, rec.(state := Queued, updatedAtMs := w.now), Admits(c.limits, w.sched));
  }

  lemma HandleSpares(c: Config, w: World, id: InvocationId, f: Fingerprint, q: RunId, sent: bool, r: RunId)
    requires q !in w.runs
    ensures Spares(w, Handle(c, w, id, f, q, sent), r)
  {
    hide Decide, RecordsAfter, Accept, Told, Moves, TrackEvent;
    var w1 := w.(records := RecordsAfter(c, w, id, f, q), log := w.log + [Entry(w.now, id, f, Decide(c, w, id, f, q))]);
    var rec := NewRecord(id, f, q, w.now, w.now);
    AcceptSpares(c, w1, rec, q, r);
    SameRunsSpare(w, w1, Accept(c, w1, rec, q), r);
    StaySpares(w, w1, r);
    TrackedSpares(w, Accept(c, w1, rec, q), r);
  }

  lemma TrackedSpares(w: World, v: World, r: RunId)
    requires Spares(w, v, r)
    ensures Spares(w, TrackEvent(v), r)
  {
    hide Told, Moves;
  }

  lemma StaySpares(w: World, v: World, r: RunId)
    requires v.runs == w.runs
    ensures Spares(w, v, r)
  {
    hide Told;
  }

  lemma SlotSpares(c: Config, w: World, q: RunId, r: RunId)
    requires RunsInv(w) && QueueInv(w) && Enabled(w, SlotReleased(q))
    ensures q in w.runs && Spares(w, Vacated(w, q), r) && Spares(Vacated(w, q), Fill(c, Vacated(w, q)), r)
  {
    hide Told, Fill, RunEnabled, Wakeable, RunInv;
    VacatedKeeps(w, q);
    FillSpares(c, Vacated(w, q), r);
  }

  /** The story of every run, and no turn of a run that is not there. */
  ghost predicate AllTold(turns: seq<Turn>, runs: map<RunId, Run>, r: RunId) {
    if r in runs then Told(TurnsOf(turns, r), r, runs[r]) else TurnsOf(turns, r) == []
  }

  lemma OwnTold(before: seq<Turn>, e: Turn, w: World, r: RunId)
    requires AllTold(before, w.runs, r) && OfOneRun(e) && e.run == r && r in w.runs && RunEnabled(w.runs[r], e)
    ensures AllTold(before + [e], RunStep(w, e).runs, r)
  {
    hide Told, RunEnabled, RunAfter, AfterUpdate, WorkAfter, Emits, Writes;
    assert (before + [e])[..|before|] == before;
    OwnTurnTold(TurnsOf(before, r), r, w.runs[r], e, w.now, w.nextEvent);
  }

  /** A turn that is not of the chain of `r` moves its run at most twice: out of a slot, and into one. */
  lemma OtherTurn(c: Config, w: World, e: Turn, r: RunId) returns (u: World)
    requires ProtocolInv(w) && Enabled(w, e) && !(OfOneRun(e) && e.run == r)
    ensures Spares(w, u, r) && Spares(u, Step(c, w, e), r)
  {
    hide RunsInv, QueueInv, TrackInv, StopInv, LifeInv, Spares, RunEnabled;
    hide RunStep, Handle, BeginShutdown, Fill, Vacated, AsideStep, Step, Enabled;
    StepByKind(c, w, e);
    u := w;
    StaySpares(w, w, r);
    if OfOneRun(e) {
      OthersSpared(w, e, r);
    } else if e.SlotReleased? {
      SlotSpares(c, w, e.run, r);
      u := Vacated(w, e.run);
    } else if Aside(e) {
      AsideStays(c, w, e);
      StaySpares(w, Step(c, w, e), r);
    } else if e.HandlerTurn? {
      HandleSpares(c, w, e.id, e.fingerprint, e.run, e.acceptedSent, r);
    } else if e.ImmediateFires? {
      var w1 := w.(sched := w.sched.(drainScheduled := false));
      NoRunChanges(w, w1);
      FillSpares(c, w1, r);
      SameRunsSpare(w, w1, Step(c, w, e), r);
    } else if e.ShutdownBegins? {
      ShutdownSpares(w, r);
    } else {
      StopByLife(c, w, e);
      var w1 := w.(life := Stopping);
      NoRunChanges(w, w1);
      ShutdownSpares(w1, r);
      SameRunsSpare(w, w1, BeginShutdown(w1), r);
      StaySpares(w, w1, r);
      StaySpares(w, w.(life := Stopped), r);
    }
  }

  lemma StepTold(c: Config, before: seq<Turn>, w: World, e: Turn, r: RunId)
    requires ProtocolInv(w) && Enabled(w, e) && AllTold(before, w.runs, r)
    ensures AllTold(before + [e], Step(c, w, e).runs, r)
  {
    hide RunsInv, QueueInv, TrackInv, StopInv, LifeInv, AllTold, Spares, RunEnabled;
    hide RunStep, Handle, BeginShutdown, Fill, Vacated, AsideStep, Step, Enabled;
    if OfOneRun(e) && e.run == r {
      StepByKind(c, w, e);
      OwnTold(before, e, w, r);
    } else {
      var u := OtherTurn(c, w, e, r);
      SparedTwice(w, u, Step(c, w, e), r, before, e);
    }
  }

  lemma SameRunsSpare(w: World, w1: World, v: World, r: RunId)
    requires w1.runs == w.runs && Spares(w1, v, r)
    ensures Spares(w, v, r)
  {}

  lemma SparedTwice(w: World, u: World, v: World, r: RunId, before: seq<Turn>, e: Turn)
    requires Spares(w, u, r) && Spares(u, v, r) && AllTold(before, w.runs, r) && !(OfOneRun(e) && e.run == r)
    ensures AllTold(before + [e], v.runs, r)
  {
    hide Told, Moves;
    assert (before + [e])[..|before|] == before;
    if r in w.runs {
      MovesTold(TurnsOf(before, r), r, w.runs[r], u.runs[r]);
      MovesTold(TurnsOf(before, r), r, u.runs[r], v.runs[r]);
    } else if r in u.runs {
      MovesTold([], r, u.runs[r], v.runs[r]);
    }
  }

  /** In every reachable state the turns of a run are exactly those that lead to where it stands. */
  lemma {:induction false} EveryRunTold(c: Config, turns: seq<Turn>, r: RunId)
    requires Execute(c, turns).Some?
    ensures AllTold(turns, Execute(c, turns).value.runs, r)
    decreases |turns|
  {
    hide Step, Enabled, Told;
    if turns != [] {
      var n := |turns| - 1;
      var before := turns[..n];
      EveryRunTold(c, before, r);
      ReachableProtocol(c, before);
      StepTold(c, before, Execute(c, before).value, turns[n], r);
      assert before + [turns[n]] == turns;
    }
  }

  // ---- main results -----------------------------------------------------------------------------------

  /** The chain of a run from its start to its end: it begins and its agent returns, unless it was cancelled before it
      got a slot; then its delivery takes exactly the turns of one end, and is seen to be over. */
  ghost predicate WholeChain(ts: seq<Turn>, r: RunId, end: End) {
    || ts == EndTurns(end, r) + [ChainObserved(r)]
    || (exists x :: ts == [RunBegins(r), AgentReturns(r, x)] + (EndTurns(end, r) + [ChainObserved(r)]))
  }

  lemma TurnsOfHas(turns: seq<Turn>, r: RunId, e: Turn)
    requires OfOneRun(e) && e.run == r
    ensures e in TurnsOf(turns, r) <==> e in turns
    decreases |turns|
  {
    if turns != [] {
      var n := |turns| - 1;
      TurnsOfHas(turns[..n], r, e);
      assert turns == turns[..n] + [turns[n]];
    }
  }

  lemma DoneIsWhole(ts: seq<Turn>, r: RunId, run: Run)
    requires Told(ts, r, run) && run.phase == Done
    ensures WholeChain(ts, r, EndOf(run)) && Left(EndOf(run), run)
  {
    hide ExecuteRun.ExecuteAgent, Sendable, EndOf, EndTurns, Left;
    var n := if run.owner == BySlot then 2 else 0;
    assert ts == ts[..n] + ts[n..];
    if n == 2 {
      var x := ts[1].execution;
      assert ts[..2] == [RunBegins(r), AgentReturns(r, x)];
    } else {
      assert ts[0..] == ts;
    }
  }

  /** For every run, at any time: the hook and the logger threw exactly when a turn said so, and the record is
      `delivered`, or `callback_failed`, exactly when a turn gave that answer. */
  lemma TurnsDecide(c: Config, turns: seq<Turn>, r: RunId)
    requires Execute(c, turns).Some? && r in Execute(c, turns).value.runs
    ensures var run := Execute(c, turns).value.runs[r];
            && (run.hookThrew <==> HookReturned(r, true) in turns)
            && (run.rec.state == Delivered <==> ResultAnswered(r, true) in turns)
            && (run.rec.state == CallbackFailed <==> ResultAnswered(r, false) in turns)
  {
    hide Execute, Told;
    EveryRunTold(c, turns, r);
    TurnsOfHas(turns, r, HookReturned(r, true));
    TurnsOfHas(turns, r, ResultAnswered(r, true));
    TurnsOfHas(turns, r, ResultAnswered(r, false));
    ToldDecides(TurnsOf(turns, r), r, Execute(c, turns).value.runs[r]);
  }

  lemma HandedHasNone(ts: seq<Turn>, r: RunId, run: Run)
    requires Handed(ts, r, run)
    ensures forall e :: e in ts ==> !e.HookReturned? && !e.ResultAnswered?
  {}

  lemma EndHas(end: End, r: RunId)
    ensures HookReturned(r, true) in EndTurns(end, r) <==> end.Silenced?
    ensures ResultAnswered(r, true) in EndTurns(end, r) <==> end.Sent?
    ensures ResultAnswered(r, false) in EndTurns(end, r) <==> end.Unsent? || end.Silenced?
  {}

  /** The turns after the start of the delivery decide. */
  predicate Decides(ts: seq<Turn>, r: RunId, run: Run) {
    && (run.hookThrew <==> HookReturned(r, true) in ts)
    && (run.rec.state == Delivered <==> ResultAnswered(r, true) in ts)
    && (run.rec.state == CallbackFailed <==> ResultAnswered(r, false) in ts)
  }

  lemma RestDecides(ts: seq<Turn>, r: RunId, run: Run)
    requires Told(ts, r, run) && Delivery(run.phase)
    ensures var n := if run.owner == BySlot then 2 else 0; |ts| >= n && Decides(ts[n..], r, run)
  {
    hide Sendable, Handed, EndTurns;
    AtLeastHanded(ts, r, run);
    EndHas(EndOf(run), r);
    var n := if run.owner == BySlot then 2 else 0;
    if run.phase == Done {
      assert forall e :: e in ts[n..] <==> e in EndTurns(EndOf(run), r) || e == ChainObserved(r);
    }
  }

  lemma ToldDecides(ts: seq<Turn>, r: RunId, run: Run)
    requires Told(ts, r, run)
    ensures Decides(ts, r, run)
  {
    hide Sendable;
    if Delivery(run.phase) {
      RestDecides(ts, r, run);
      AtLeastHanded(ts, r, run);
      hide Told, Handed;
      var n := if run.owner == BySlot then 2 else 0;
      HandedHasNone(ts[..n], r, run);
      assert ts == ts[..n] + ts[n..];
      assert forall e :: e in ts <==> e in ts[..n] || e in ts[n..];
    }
  }

  lemma AtLeastHanded(ts: seq<Turn>, r: RunId, run: Run)
    requires Told(ts, r, run) && Delivery(run.phase)
    ensures var n := if run.owner == BySlot then 2 else 0; |ts| >= n && Handed(ts[..n], r, run)
    ensures run.phase == Delivering ==> ts[if run.owner == BySlot then 2 else 0..] == []
  {
    hide EndTurns, Left, Sendable;
    var n := if run.owner == BySlot then 2 else 0;
    if |ts| == n { assert ts[..n] == ts; }
  }

  /** When `stop()` has reached "stopped", on either path and for every interleaving: the scheduler is idle, and every
      run that was accepted before the scheduler stopped accepting has taken its whole chain, told from the turns: it
      made exactly one result delivery, came to one of four ends, and has no work left in `callbackWork`. The end was a
      refusal exactly when its agent came back with a stranded outcome. Its record is left delivered, failed or pending
      as the end says; its terminal event was issued exactly when the result was not refused and no turn said that the
      hook and the logger threw, and scheduled exactly when the emitter said so. */
  lemma StoppedMeansDrained(c: Config, turns: seq<Turn>, i: nat) returns (end: End)
    requires Execute(c, turns).Some? && Execute(c, turns).value.life == Stopped
    requires Enters(c, turns, i) && BeforeStop(c, turns, i)
    ensures var w, r := Execute(c, turns).value, turns[i].run;
            && r in w.runs && Idle(w.sched) && !w.sched.accepting && w.slots == {}
            && WholeChain(TurnsOf(turns, r), r, end) && Left(end, w.runs[r])
            && (end.Refused? <==> StrandedRun(turns, r))
            && w.runs[r].deliveries == 1 && Chain(r) !in w.callbackWork
            && (w.runs[r].event.Some? ==> EventDelivery(w.runs[r].event.value) !in w.callbackWork)
            && (w.runs[r].announced <==> !StrandedRun(turns, r) && HookReturned(r, true) !in turns)
  {
    hide Execute, Told, Left, StrandedRun, Sendable;
    var r := turns[i].run;
    StoppedRunsAreOver(c, turns, i);
    EveryRunTold(c, turns, r);
    TurnsDecide(c, turns, r);
    SendableExactly(c, turns, r);
    var run := Execute(c, turns).value.runs[r];
    DoneIsWhole(TurnsOf(turns, r), r, run);
    LeftRefused(EndOf(run), run);
    end := EndOf(run);
  }

  lemma LeftRefused(end: End, run: Run)
    requires Left(end, run)
    ensures end.Refused? <==> !Sendable(run.result)
  {}
}
