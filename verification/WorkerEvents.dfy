// The events of all runs: how they are numbered, and that `stop()` waits for their deliveries.
module WorkerEvents {
  import opened Ids
  import opened Wrappers
  import opened Scheduling
  import opened Idempotency
  import opened WorkerProtocol
  import opened WorkerInvariants
  import opened WorkerShutdown
  import opened WorkerStop
  import opened WorkerTurns
  import ExecuteRun

  /** The turn emits an event whose delivery is scheduled: a run's own, its terminal one, or the one of a request that
      is accepted. */
  predicate Schedules(c: Config, w: World, e: Turn) {
    match e
    case EventEmitted(_) => true
    case TerminalEmitted(_, sent) => sent
    case HandlerTurn(id, f, r, sent) => sent && Decide(c, w, id, f, r).Ran?
    case _ => false
  }

  /** How many events have been scheduled. */
  function Scheduled(c: Config, turns: seq<Turn>): nat {
    if turns == [] then 0
    else
      var n := |turns| - 1;
      var before := Execute(c, turns[..n]);
      Scheduled(c, turns[..n]) + if before.Some? && Schedules(c, before.value, turns[n]) then 1 else 0
  }

  // ---- one turn -----------------------------------------------------------------------------------------

  /** The events whose delivery goes on, across one turn. */
  ghost predicate EventsMove(c: Config, w: World, e: Turn, v: World) {
    && v.nextEvent == w.nextEvent + (if Schedules(c, w, e) then 1 else 0)
    && forall n: nat :: EventDelivery(n) in v.callbackWork <==>
         (EventDelivery(n) in w.callbackWork && e != EventDelivered(n)) || (Schedules(c, w, e) && n == w.nextEvent)
  }

  lemma RunStepEvents(c: Config, w: World, e: Turn)
    requires OfOneRun(e) && e.run in w.runs
    ensures EventsMove(c, w, e, RunStep(w, e))
  {
    hide AfterUpdate, RunAfter, Writes;
  }

  lemma AsideEvents(c: Config, w: World, e: Turn)
    requires Aside(e)
    ensures EventsMove(c, w, e, AsideStep(c, w, e))
  {
    hide Woken, Swept, AfterOnIdle, ResolveIdle, Decide;
    if !e.EventEmitted? && !e.EventDelivered? {
      hide AsideStep;
      AsideWork(c, w, e);
    }
  }

  lemma HandleEvents(c: Config, w: World, e: Turn)
    requires e.HandlerTurn?
    ensures EventsMove(c, w, e, Handle(c, w, e.id, e.fingerprint, e.run, e.acceptedSent))
  {
    hide Decide, RecordsAfter, AfterUpdate, Admits, AfterEnqueue, NewRun, NewRecord;
  }

  lemma StepEvents(c: Config, w: World, e: Turn)
    requires Enabled(w, e)
    ensures EventsMove(c, w, e, Step(c, w, e))
  {
    hide RunStep, Handle, AsideStep, Step, Enabled, RunEnabled, Started, AfterDrain;
    StepByKind(c, w, e);
    if OfOneRun(e) {
      hide EventsMove;
      RunStepEvents(c, w, e);
    } else if Aside(e) {
      hide EventsMove;
      AsideEvents(c, w, e);
    } else if e.HandlerTurn? {
      hide EventsMove;
      HandleEvents(c, w, e);
    } else if e.StopCalled? {
      StopByLife(c, w, e);
    }
  }

  // ---- every run of the event loop -----------------------------------------------------------------------

  /** Events are numbered in the order in which they are scheduled, and each stays in `callbackWork` until its delivery
      is over, and no longer. */
  lemma {:induction false} EventsTracked(c: Config, turns: seq<Turn>, n: nat)
    requires Execute(c, turns).Some?
    ensures var w := Execute(c, turns).value;
            && w.nextEvent == Scheduled(c, turns)
            && (EventDelivery(n) in w.callbackWork <==> n < Scheduled(c, turns) && EventDelivered(n) !in turns)
    decreases |turns|
  {
    hide Step, Enabled, Schedules;
    if turns != [] {
      var k := |turns| - 1;
      var before, e := turns[..k], turns[k];
      EventsTracked(c, before, n);
      StepEvents(c, Execute(c, before).value, e);
      DeliveredWasTracked(Execute(c, before).value, e, n);
      assert turns == before + [e];
      assert EventDelivered(n) in turns <==> EventDelivered(n) in before || e == EventDelivered(n);
      NotYetDelivered(c, before, Scheduled(c, before));
    }
  }

  lemma DeliveredWasTracked(w: World, e: Turn, n: nat)
    requires Enabled(w, e)
    ensures e == EventDelivered(n) ==> EventDelivery(n) in w.callbackWork
  {
    hide RunEnabled, Wakeable;
  }

  /** No delivery ends before it has begun. */
  lemma {:induction false} NotYetDelivered(c: Config, turns: seq<Turn>, n: nat)
    requires Execute(c, turns).Some? && n >= Scheduled(c, turns)
    ensures EventDelivered(n) !in turns
    decreases |turns|, 0
  {
    hide Step, Enabled, Schedules;
    if turns != [] {
      var k := |turns| - 1;
      var before, e := turns[..k], turns[k];
      NotYetDelivered(c, before, n);
      DeliveredWasTracked(Execute(c, before).value, e, n);
      EventsTracked(c, before, n);
      assert turns == before + [e];
    }
  }

  // ---- the terminal event of a run -----------------------------------------------------------------------

  lemma EventOfStep(c: Config, w: World, e: Turn, r: RunId)
    requires ProtocolInv(w) && Enabled(w, e) && r in w.runs
    ensures r in Step(c, w, e).runs
    ensures Step(c, w, e).runs[r].event ==
            if OfOneRun(e) && e.run == r && e.TerminalEmitted? then (if e.sent then Some(w.nextEvent) else None)
            else w.runs[r].event
  {
    hide RunsInv, QueueInv, TrackInv, StopInv, LifeInv, RunEnabled, Spares, Step, Enabled, RunStep, ProtocolInv;
    if OfOneRun(e) && e.run == r {
      StepByKind(c, w, e);
      RunStepEventOf(w, e, r);
    } else {
      var u := OtherTurn(c, w, e, r);
      SparesKeepsEvent(w, u, r);
      SparesKeepsEvent(u, Step(c, w, e), r);
    }
  }

  lemma SparesKeepsEvent(w: World, v: World, r: RunId)
    requires Spares(w, v, r) && r in w.runs
    ensures r in v.runs && v.runs[r].event == w.runs[r].event
  {}

  lemma RunStepEventOf(w: World, e: Turn, r: RunId)
    requires OfOneRun(e) && e.run == r && r in w.runs
    ensures r in RunStep(w, e).runs
    ensures RunStep(w, e).runs[r].event ==
            if e.TerminalEmitted? then (if e.sent then Some(w.nextEvent) else None) else w.runs[r].event
  {
    hide AfterUpdate, WorkAfter, Emits, Writes, ExecuteRun.ExecuteAgent;
  }

  /** The terminal event of a run is the one that its turn scheduled. */
  lemma {:induction false} TerminalEventNumber(c: Config, turns: seq<Turn>, r: RunId, j: nat)
    requires Execute(c, turns).Some? && j < |turns| && turns[j] == TerminalEmitted(r, true)
    ensures var runs := Execute(c, turns).value.runs;
            r in runs && runs[r].event == Some(Scheduled(c, turns[..j]))
    decreases |turns|
  {
    hide Step, Enabled, Schedules, Told;
    var k := |turns| - 1;
    var before, e := turns[..k], turns[k];
    var w := Execute(c, before).value;
    ReachableProtocol(c, before);
    EventsTracked(c, before, 0);
    if j == k {
      TerminalNeedsRun(w, e, r);
      EventOfStep(c, w, e, r);
    } else {
      assert before[..j] == turns[..j];
      TerminalEventNumber(c, before, r, j);
      EventOfStep(c, w, e, r);
      OnlyOnce(c, before, r, e);
      assert before[j] in before;
    }
  }

  lemma TerminalNeedsRun(w: World, e: Turn, r: RunId)
    requires Enabled(w, e) && e.TerminalEmitted? && e.run == r
    ensures r in w.runs && w.runs[r].phase == Announcing
  {
    hide Wakeable;
  }

  /** A run's terminal event is issued once. */
  lemma OnlyOnce(c: Config, turns: seq<Turn>, r: RunId, e: Turn)
    requires Execute(c, turns).Some? && Enabled(Execute(c, turns).value, e)
    ensures e.TerminalEmitted? && e.run == r ==> TerminalEmitted(r, true) !in turns
  {
    hide Execute, Enabled, Told;
    if e.TerminalEmitted? && e.run == r {
      TerminalNeedsRun(Execute(c, turns).value, e, r);
      EveryRunTold(c, turns, r);
      TurnsOfHas(turns, r, TerminalEmitted(r, true));
      NotAnnouncedYet(TurnsOf(turns, r), r, Execute(c, turns).value.runs[r]);
    }
  }

  lemma NotAnnouncedYet(ts: seq<Turn>, r: RunId, run: Run)
    requires Told(ts, r, run) && run.phase == Announcing
    ensures TerminalEmitted(r, true) !in ts
  {
    hide Sendable, Handed;
    var n := if run.owner == BySlot then 2 else 0;
    HandedNotAnnounced(ts[..n], r, run);
    assert ts == ts[..n] + ts[n..];
    assert forall e :: e in ts <==> e in ts[..n] || e in ts[n..];
  }

  lemma HandedNotAnnounced(ts: seq<Turn>, r: RunId, run: Run)
    requires Handed(ts, r, run)
    ensures TerminalEmitted(r, true) !in ts
  {
    hide ExecuteRun.ExecuteAgent;
  }

  // ---- what a stop waits for ------------------------------------------------------------------------------

  /** A drain that looked at turn `i` and found nothing left. */
  ghost predicate FoundNothing(c: Config, turns: seq<Turn>, i: nat) {
    && i < |turns| && (turns[i] == GracefulWakes || turns[i] == ForcedWakes)
    && Execute(c, turns[..i]).Some? && Execute(c, turns[..i]).value.callbackWork == {}
  }

  lemma DrainsOfStep(c: Config, w: World, e: Turn)
    requires Enabled(w, e)
    ensures Step(c, w, e).graceful.Drained? ==> w.graceful.Drained? || (e == GracefulWakes && w.callbackWork == {})
    ensures Step(c, w, e).forced.Drained? ==> w.forced.Drained? || (e == ForcedWakes && w.callbackWork == {})
  {
    hide RunStep, Handle, BeginShutdown, Fill, Vacated, AsideStep, Step, Enabled, RunEnabled;
    StepByKind(c, w, e);
    if Aside(e) {
      AsideDrains(c, w, e);
    } else if e.StopCalled? || e.ShutdownBegins? {
      if e.StopCalled? { StopByLife(c, w, e); }
      BeginShutdownKeys(w);
      BeginShutdownKeys(w.(life := Stopping));
    } else {
      OtherDrains(c, w, e);
    }
  }

  lemma AsideDrains(c: Config, w: World, e: Turn)
    requires Aside(e)
    ensures AsideStep(c, w, e).graceful.Drained? ==> w.graceful.Drained? || (e == GracefulWakes && w.callbackWork == {})
    ensures AsideStep(c, w, e).forced.Drained? ==> w.forced.Drained? || (e == ForcedWakes && w.callbackWork == {})
  {
    hide Swept, AfterOnIdle, ResolveIdle;
  }

  lemma OtherDrains(c: Config, w: World, e: Turn)
    requires Enabled(w, e) && (OfOneRun(e) || e.HandlerTurn? || e.ImmediateFires? || e.SlotReleased?)
    ensures Step(c, w, e).graceful == w.graceful && Step(c, w, e).forced == w.forced
  {
    hide RunEnabled, Started, AfterDrain, AfterUpdate, RunAfter, WorkAfter, Decide, RecordsAfter, NewRun, AfterEnqueue;
    hide AsideStep, Step, Enabled, BeginShutdown;
    StepByKind(c, w, e);
  }

  lemma {:induction false} DrainedSince(c: Config, turns: seq<Turn>) returns (i: nat)
    requires Execute(c, turns).Some?
    requires Execute(c, turns).value.graceful.Drained? || Execute(c, turns).value.forced.Drained?
    ensures FoundNothing(c, turns, i)
    decreases |turns|
  {
    hide Step, Enabled;
    i := 0;
    if turns == [] {
    } else {
      var k := |turns| - 1;
      var before := turns[..k];
      var w := Execute(c, before).value;
      DrainsOfStep(c, w, turns[k]);
      if w.graceful.Drained? || w.forced.Drained? {
        i := DrainedSince(c, before);
        assert before[..i] == turns[..i];
      } else {
        i := k;
      }
    }
  }

  /** At "stopped", if any request was ever served, a drain has found nothing left at some turn, and every event that
      had been scheduled by then, of any kind and any run, had been delivered. */
  lemma StoppedMeansDelivered(c: Config, turns: seq<Turn>) returns (i: nat)
    requires Execute(c, turns).Some? && Execute(c, turns).value.life == Stopped && Execute(c, turns).value.served
    ensures FoundNothing(c, turns, i)
    ensures forall n: nat :: n < Scheduled(c, turns[..i]) ==> EventDelivered(n) in turns[..i]
  {
    hide Execute, Scheduled;
    ReachableProtocol(c, turns);
    i := DrainedSince(c, turns);
    forall n: nat | n < Scheduled(c, turns[..i]) ensures EventDelivered(n) in turns[..i] {
      EventsTracked(c, turns[..i], n);
    }
  }
}
