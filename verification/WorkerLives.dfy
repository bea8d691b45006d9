// Where the Worker's life stands, told from the turns.
module WorkerLives {
  import opened Ids
  import opened Wrappers
  import opened Scheduling
  import opened Idempotency
  import opened WorkerProtocol
  import opened WorkerInvariants
  import opened WorkerShutdown

  /** `start()` and `stop()` are called or not, the server binds or fails to, and `stop()` completes. */
  function LifeOf(turns: seq<Turn>): Lifecycle {
    if StopCalled !in turns then
      if StartCalled !in turns then Unstarted
      else if BindSucceeded in turns then Serving
      else if BindFailed in turns then Failed
      else Starting
    else if StartCalled !in turns || BindFailed in turns || StopCompletes in turns then Stopped
    else Stopping
  }

  /** The life of the Worker, and what the server and the grace period have come to. */
  ghost predicate LifeTold(turns: seq<Turn>, w: World) {
    && w.life == LifeOf(turns)
    && (w.bound <==> BindSucceeded in turns)
    && (w.closed <==> ServerCloses in turns)
    && (w.forced.Unentered? <==> GraceExpires !in turns)
    && !(BindSucceeded in turns && BindFailed in turns)
    && (StartCalled !in turns ==> BindSucceeded !in turns && BindFailed !in turns)
    && (StopCompletes in turns ==> StopCalled in turns && StartCalled in turns && ServerCloses in turns)
  }

  /** The turns that change none of this. */
  predicate Neutral(e: Turn) {
    && !e.StartCalled? && !e.StopCalled? && !e.BindSucceeded? && !e.BindFailed? && !e.StopCompletes?
    && !e.ServerCloses? && !e.GraceExpires?
  }

  predicate SameCourse(w: World, v: World) {
    v.life == w.life && v.bound == w.bound && v.closed == w.closed && (v.forced.Unentered? <==> w.forced.Unentered?)
  }

  lemma HandlerCourse(c: Config, w: World, id: InvocationId, f: Fingerprint, r: RunId, sent: bool)
    ensures SameCourse(w, Handle(c, w, id, f, r, sent))
  {
    hide Decide, RecordsAfter, AfterUpdate, Admits, AfterEnqueue, NewRecord, NewRun;
  }

  lemma RunCourse(w: World, e: Turn)
    requires OfOneRun(e) && e.run in w.runs
    ensures SameCourse(w, RunStep(w, e))
  {
    hide AfterUpdate, WorkAfter, RunAfter, Writes, Emits;
  }

  lemma SchedulerCourse(c: Config, w: World)
    ensures SameCourse(w, Fill(c, w)) && SameCourse(w, BeginShutdown(w))
  {
    hide Started, AfterDrain, AfterStop, AfterOnIdle, CancelledRun;
  }

  lemma NeutralAside(c: Config, w: World, e: Turn)
    requires Aside(e) && Neutral(e) && Enabled(w, e)
    ensures SameCourse(w, AsideStep(c, w, e))
  {}

  lemma SlotCourse(c: Config, w: World, e: Turn)
    ensures e.SlotReleased? && e.run in w.runs ==> SameCourse(w, Fill(c, Vacated(w, e.run)))
    ensures e.ImmediateFires? ==> SameCourse(w, Fill(c, w.(sched := w.sched.(drainScheduled := false))))
  {
    hide Fill;
    if e.SlotReleased? && e.run in w.runs { SchedulerCourse(c, Vacated(w, e.run)); }
    SchedulerCourse(c, w.(sched := w.sched.(drainScheduled := false)));
  }

  lemma NeutralStep(c: Config, w: World, e: Turn)
    requires Enabled(w, e) && Neutral(e)
    ensures SameCourse(w, Step(c, w, e))
  {
    hide Step, Enabled, SameCourse, RunStep, Handle, Fill, Vacated, BeginShutdown, AsideStep, RunEnabled;
    StepByKind(c, w, e);
    SchedulerCourse(c, w);
    if Aside(e) {
      NeutralAside(c, w, e);
    } else if OfOneRun(e) {
      RunCourse(w, e);
    } else if e.HandlerTurn? {
      HandlerCourse(c, w, e.id, e.fingerprint, e.run, e.acceptedSent);
    } else {
      SlotCourse(c, w, e);
    }
  }

  lemma NeutralTold(turns: seq<Turn>, w: World, v: World, e: Turn)
    requires LifeTold(turns, w) && SameCourse(w, v) && Neutral(e)
    ensures LifeTold(turns + [e], v)
  {}

  lemma StepTold(c: Config, turns: seq<Turn>, w: World, e: Turn)
    requires LifeTold(turns, w) && Enabled(w, e)
    ensures LifeTold(turns + [e], Step(c, w, e))
  {
    hide LifeTold, Enabled, Step;
    if Neutral(e) {
      NeutralStep(c, w, e);
      NeutralTold(turns, w, Step(c, w, e), e);
    } else {
      MainTold(c, turns, w, e);
    }
  }

  lemma MainTold(c: Config, turns: seq<Turn>, w: World, e: Turn)
    requires LifeTold(turns, w) && Enabled(w, e) && !Neutral(e)
    ensures LifeTold(turns + [e], Step(c, w, e))
  {
    hide AsideStep, BeginShutdown, RunStep, Handle, Fill, Vacated, Step, LifeTold;
    StepByKind(c, w, e);
    if e.StopCalled? {
      StopTold(c, turns, w, e);
    } else if e.StartCalled? || e.BindSucceeded? || e.BindFailed? {
      StartTold(c, turns, w, e);
    } else {
      AsideTold(c, turns, w, e);
    }
  }

  lemma StopTold(c: Config, turns: seq<Turn>, w: World, e: Turn)
    requires LifeTold(turns, w) && Enabled(w, e) && e.StopCalled?
    ensures LifeTold(turns + [e], Step(c, w, e))
  {
    hide BeginShutdown, Step, RunEnabled, Wakeable;
    StopByLife(c, w, e);
    SchedulerCourse(c, w.(life := Stopping));
    assert forall x :: x in turns + [e] <==> x in turns || x == e;
  }

  lemma StartTold(c: Config, turns: seq<Turn>, w: World, e: Turn)
    requires LifeTold(turns, w) && Enabled(w, e) && (e.StartCalled? || e.BindSucceeded? || e.BindFailed?)
    ensures LifeTold(turns + [e], AsideStep(c, w, e))
  {
    hide Woken, Swept, TrackEvent, RunEnabled, Wakeable, ResolveIdle, AfterOnIdle;
    assert forall x :: x in turns + [e] <==> x in turns || x == e;
  }

  lemma AsideTold(c: Config, turns: seq<Turn>, w: World, e: Turn)
    requires LifeTold(turns, w) && Enabled(w, e) && (e.StopCompletes? || e.ServerCloses? || e.GraceExpires?)
    ensures LifeTold(turns + [e], AsideStep(c, w, e))
  {
    hide Woken, Swept, TrackEvent, RunEnabled, Wakeable, ResolveIdle, AfterOnIdle;
    assert forall x :: x in turns + [e] <==> x in turns || x == e;
  }

  /** In every reachable state the life of the Worker is what the turns say: stopped when it was told to stop before it
      started, or could not bind, or when a whole stop has completed, which waits for the server to close. */
  lemma {:induction false} LifeIsTold(c: Config, turns: seq<Turn>)
    requires Execute(c, turns).Some?
    ensures LifeTold(turns, Execute(c, turns).value)
    decreases |turns|
  {
    hide Step, Enabled, LifeTold;
    if turns == [] {
      NothingTold();
    } else {
      var before, e := turns[..|turns| - 1], turns[|turns| - 1];
      LifeIsTold(c, before);
      StepTold(c, before, Execute(c, before).value, e);
      assert before + [e] == turns;
    }
  }

  lemma NothingTold()
    ensures LifeTold([], START)
  {}
}
