// The time in the Worker's records, told from the turns.
module WorkerClocks {
  import opened Ids
  import opened Wrappers
  import opened Scheduling
  import opened Idempotency
  import opened WorkerProtocol
  import opened WorkerInvariants
  import opened WorkerShutdown
  import opened WorkerIdempotency
  import opened WorkerTurns

  /** The milliseconds that have passed in these turns. */
  function Clock(turns: seq<Turn>): nat {
    if turns == [] then 0
    else Clock(turns[..|turns| - 1]) + if turns[|turns| - 1].Tick? then turns[|turns| - 1].ms else 0
  }

  lemma AsideNow(c: Config, w: World, e: Turn)
    requires Aside(e)
    ensures AsideStep(c, w, e).now == w.now + if e.Tick? then e.ms else 0
  {
    hide Woken, Swept;
  }

  lemma OthersNow(c: Config, w: World, e: Turn)
    ensures OfOneRun(e) && e.run in w.runs ==> RunStep(w, e).now == w.now
    ensures e.HandlerTurn? ==> Handle(c, w, e.id, e.fingerprint, e.run, e.acceptedSent).now == w.now
    ensures Fill(c, w).now == w.now && BeginShutdown(w).now == w.now
  {
    hide AfterUpdate, WorkAfter, RunAfter, Decide, RecordsAfter, Started, AfterDrain, AfterEnqueue, Admits;
  }

  lemma StepNow(c: Config, w: World, e: Turn)
    requires Enabled(w, e)
    ensures Step(c, w, e).now == w.now + if e.Tick? then e.ms else 0
  {
    hide Step, Enabled, RunStep, Handle, Fill, BeginShutdown, AsideStep, RunEnabled;
    StepByKind(c, w, e);
    OthersNow(c, w, e);
    if Aside(e) {
      AsideNow(c, w, e);
    } else if e.SlotReleased? {
      OthersNow(c, Vacated(w, e.run), e);
    } else if e.ImmediateFires? {
      OthersNow(c, w.(sched := w.sched.(drainScheduled := false)), e);
    } else if e.StopCalled? {
      StopByLife(c, w, e);
      OthersNow(c, w.(life := Stopping), e);
    }
  }

  lemma {:induction false} NowIsClock(c: Config, turns: seq<Turn>)
    requires Execute(c, turns).Some?
    ensures Execute(c, turns).value.now == Clock(turns)
    decreases |turns|
  {
    hide Step, Enabled;
    if turns != [] {
      NowIsClock(c, turns[..|turns| - 1]);
      StepNow(c, Execute(c, turns[..|turns| - 1]).value, turns[|turns| - 1]);
    }
  }

  /** The `k`th turn answered the run's result, and its record says when. */
  predicate AnsweredAt(turns: seq<Turn>, r: RunId, rec: Rec, k: nat) {
    && k < |turns| && turns[k].ResultAnswered? && turns[k].run == r && rec.updatedAtMs == Clock(turns[..k])
    && rec.state == if turns[k].delivered then Delivered else CallbackFailed
  }

  lemma AnsweredMore(turns: seq<Turn>, e: Turn, r: RunId, rec: Rec, k: nat)
    requires AnsweredAt(turns, r, rec, k)
    ensures AnsweredAt(turns + [e], r, rec, k)
  {
    assert (turns + [e])[..k] == turns[..k];
  }

  /** The turns of the run's own chain write its record; when they make it terminal they answer its result. */
  lemma OwnTurnWrites(run: Run, e: Turn, now: int, nextEvent: nat)
    requires OfOneRun(e) && RunEnabled(run, e) && RunInv(run, e.run)
    ensures var rec := RunAfter(run, e, now, nextEvent).rec;
            Terminal(rec.state) ==>
              if e.ResultAnswered? then
                rec.updatedAtMs == now && rec.state == (if e.delivered then Delivered else CallbackFailed)
              else rec == run.rec
  {
    hide Sendable;
  }

  lemma OwnStep(w: World, e: Turn)
    requires OfOneRun(e) && e.run in w.runs
    ensures RunStep(w, e).runs[e.run] == RunAfter(w.runs[e.run], e, w.now, w.nextEvent)
  {
    hide AfterUpdate, WorkAfter, RunAfter;
  }

  lemma MovesKeepsTerminal(run: Run, after: Run)
    requires WorkerTurns.Moves(run, after)
    ensures Terminal(after.rec.state) ==> after.rec == run.rec
  {}

  lemma NewRunIsNotTerminal(r: RunId, run: Run)
    requires Told([], r, run)
    ensures !Terminal(run.rec.state)
  {}

  lemma SparedKeepsTerminal(w: World, u: World, v: World, r: RunId)
    requires Spares(w, u, r) && Spares(u, v, r)
    ensures r in v.runs && Terminal(v.runs[r].rec.state) ==> r in w.runs && v.runs[r].rec == w.runs[r].rec
  {
    hide WorkerTurns.Moves, Told;
    if r in w.runs {
      MovesKeepsTerminal(w.runs[r], u.runs[r]);
      MovesKeepsTerminal(u.runs[r], v.runs[r]);
    } else if r in u.runs {
      NewRunIsNotTerminal(r, u.runs[r]);
      MovesKeepsTerminal(u.runs[r], v.runs[r]);
    } else if r in v.runs {
      NewRunIsNotTerminal(r, v.runs[r]);
    }
  }

  /** What one turn does to a record that is terminal after it: it answers the run's result, or it leaves it alone. */
  lemma TerminalByTurn(c: Config, w: World, e: Turn, r: RunId)
    requires ProtocolInv(w) && Enabled(w, e)
    requires var v := Step(c, w, e); r in v.runs && Terminal(v.runs[r].rec.state)
    ensures r in w.runs &&
            var now := Step(c, w, e).runs[r].rec;
            if e.ResultAnswered? && e.run == r then
              now.updatedAtMs == w.now && now.state == (if e.delivered then Delivered else CallbackFailed)
            else now == w.runs[r].rec
  {
    hide Step, Enabled, RunStep, QueueInv, TrackInv, StopInv, LifeInv, RunsInv, RunInv, RunEnabled, Spares, RunAfter;
    if OfOneRun(e) && e.run == r {
      StepByKind(c, w, e);
      assert RunInv(w.runs[r], r) by { RunOf(w, r); }
      OwnTurnWrites(w.runs[r], e, w.now, w.nextEvent);
      OwnStep(w, e);
    } else {
      var u := OtherTurn(c, w, e, r);
      SparedKeepsTerminal(w, u, Step(c, w, e), r);
    }
  }

  /** A record is terminal since the turn in which its run's result was answered, and it tells that turn's time and
      outcome. */
  lemma {:induction false} TerminalSince(c: Config, turns: seq<Turn>, r: RunId) returns (k: nat)
    requires Execute(c, turns).Some?
    requires r in Execute(c, turns).value.runs && Terminal(Execute(c, turns).value.runs[r].rec.state)
    ensures AnsweredAt(turns, r, Execute(c, turns).value.runs[r].rec, k)
    decreases |turns|
  {
    hide Step, Enabled, AnsweredAt, ProtocolInv;
    var before, e := turns[..|turns| - 1], turns[|turns| - 1];
    assert turns == before + [e];
    var w := Execute(c, before).value;
    ReachableProtocol(c, before);
    TerminalByTurn(c, w, e, r);
    if e.ResultAnswered? && e.run == r {
      k := |before|;
      NowIsClock(c, before);
      JustAnswered(before, e, r, Execute(c, turns).value.runs[r].rec);
    } else {
      k := TerminalSince(c, before, r);
      AnsweredMore(before, e, r, w.runs[r].rec, k);
    }
  }

  lemma JustAnswered(before: seq<Turn>, e: Turn, r: RunId, rec: Rec)
    requires e.ResultAnswered? && e.run == r && rec.updatedAtMs == Clock(before)
    requires rec.state == if e.delivered then Delivered else CallbackFailed
    ensures AnsweredAt(before + [e], r, rec, |before|)
  {
    assert (before + [e])[..|before|] == before;
  }

  /** A request that starts a second run of an invocation comes at least `ttlMs` after the turn that answered the result
      of the first. */
  lemma SecondRunWaitsForTurn(c: Config, turns: seq<Turn>, i: nat, j: nat) returns (k: nat)
    requires Execute(c, turns).Some?
    requires i < j < |Execute(c, turns).value.log|
    requires Execute(c, turns).value.log[i].reply.Ran? && Execute(c, turns).value.log[j].reply.Ran?
    requires Execute(c, turns).value.log[i].id == Execute(c, turns).value.log[j].id
    ensures var w := Execute(c, turns).value;
            && k < |turns| && turns[k].ResultAnswered? && turns[k].run == w.log[i].reply.run
            && Clock(turns[..k]) + c.options.ttlMs <= w.log[j].nowMs
  {
    hide Execute;
    SecondRunWaitsForExpiry(c, turns, i, j);
    k := TerminalSince(c, turns, Execute(c, turns).value.log[i].reply.run);
  }
}
