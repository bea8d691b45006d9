// Which signals supervision sends, and which timers are pending, told from the events alone.
module SupervisorSignals {
  import opened Wrappers
  import opened ReadBounded
  import opened Supervisor
  import opened SupervisorHistories

  // ---- the events alone -------------------------------------------------------------------------

  /** The process group can be signalled: it was started, and its exit code has not been seen. */
  predicate Signallable(c: Config, h: History) {
    c.pid && forall i :: 0 <= i < |h| && h[i].event.Exit? ==> h[i].event.code.None?
  }

  predicate Escalates(e: Event) { e.Abort? || e.TermTimer? }

  /** The signal that the last event of a history calls for, if any. */
  function SignalOfLast(c: Config, h: History): seq<Sent>
    requires h != []
  {
    var n := |h| - 1;
    var before, e, now := h[..n], h[n].event, h[n].now;
    if e.Exit? then (if c.pid && !Ended(before) then [Sent(Kill, now, Reaping)] else [])
    else if !Signallable(c, before) then []
    else if Escalates(e) then [Sent(Term, now, Escalation)]
    else if e.KillTimer? then [Sent(Kill, now, GraceOver)]
    else if e.Data? && Heard(c, before) == n && OverflowsAt(c, h, n) then [Sent(Kill, now, Overflow)]
    else []
  }

  function SignalsOf(c: Config, aborted: bool, start: int, h: History): seq<Sent> {
    if h == [] then (if aborted && c.pid then [Sent(Term, start, Escalation)] else [])
    else SignalsOf(c, aborted, start, h[..|h| - 1]) + SignalOfLast(c, h)
  }

  /** When a SIGKILL is due for each escalation: the grace after it. */
  function Dues(c: Config, aborted: bool, start: int, h: History): seq<int> {
    if h == [] then (if aborted then [start + c.grace] else [])
    else
      var n := |h| - 1;
      var dues := Dues(c, aborted, start, h[..n]);
      if Escalates(h[n].event) then dues + [h[n].now + c.grace] else dues
  }

  /** For each kill timer that fired, when it was due. */
  function FiredDues(c: Config, aborted: bool, start: int, h: History): seq<int> {
    if h == [] then []
    else
      var n := |h| - 1;
      var pending := Run(c, aborted, start, h[..n]).killsAt;
      var e := h[n].event;
      var fired := FiredDues(c, aborted, start, h[..n]);
      if e.KillTimer? && e.which < |pending| then fired + [pending[e.which]] else fired
  }

  /** When the wall clock ends supervision: at the earlier of the two bounds, and never before the start. */
  function EndOfTime(c: Config, start: int): int {
    var wall := start + c.wallTime;
    var bound := if c.deadline.Some? && c.deadline.value <= wall then c.deadline.value else wall;
    if bound >= start then bound else start
  }

  predicate Came(h: History, e: Event) { exists i :: 0 <= i < |h| && h[i].event == e }

  // ---- one event ------------------------------------------------------------------------------------

  /** The state that the next event meets, told from the events before it. */
  ghost predicate Agrees(c: Config, aborted: bool, start: int, h: History, s: State) {
    && (Settled(s) <==> Ended(h))
    && (c.pid ==> (s.exitCode.None? <==> Signallable(c, h)))
    && (Ended(h) ==> s.termAt.None? && s.killsAt == [] && !s.listening)
    && (!Ended(h) ==>
          && (s.listening <==> !aborted && !Came(h, Abort))
          && s.termAt == (if Came(h, TermTimer) then None else Some(EndOfTime(c, start)))
          && Balanced(s.killsAt, FiredDues(c, aborted, start, h), Dues(c, aborted, start, h)))
  }

  /** What is due is pending or has fired, each once. */
  ghost predicate Balanced(pending: seq<int>, fired: seq<int>, dues: seq<int>) {
    multiset(pending) + multiset(fired) == multiset(dues)
  }

  lemma HeardMore(h: History, e: Event)
    requires h != []
    ensures Came(h, e) <==> Came(h[..|h| - 1], e) || h[|h| - 1].event == e
  {
    var n := |h| - 1;
    assert forall i :: 0 <= i < n ==> h[..n][i] == h[i];
  }

  lemma SignallableMore(c: Config, h: History)
    requires h != []
    ensures var e := h[|h| - 1].event;
            Signallable(c, h) <==> Signallable(c, h[..|h| - 1]) && (e.Exit? ==> e.code.None?)
  {
    var n := |h| - 1;
    assert forall i :: 0 <= i < n ==> h[..n][i] == h[i];
  }

  lemma OneOut(s: seq<int>, k: nat)
    requires k < |s|
    ensures multiset(s[..k] + s[k + 1..]) + multiset{s[k]} == multiset(s)
  {
    assert s == s[..k] + [s[k]] + s[k + 1..];
  }

  /** What one event does to the timers and the listener of a supervision that has not settled. */
  lemma TimersOfStep(c: Config, s: State, e: Event, now: int)
    requires Enabled(s, e, now) && !Settled(s)
    ensures var t := Step(c, s, e, now);
            && (Settling(e) ==> t.termAt.None? && t.killsAt == [] && !t.listening)
            && (!Settling(e) ==>
                  && (t.listening <==> s.listening && !e.Abort?)
                  && t.termAt == (if e.TermTimer? then None else s.termAt)
                  && t.killsAt == (if Escalates(e) then s.killsAt + [now + c.grace]
                                   else if e.KillTimer? then s.killsAt[..e.which] + s.killsAt[e.which + 1..]
                                   else s.killsAt))
    ensures Step(c, s, e, now).exitCode == if e.Exit? then e.code else s.exitCode
    ensures e.Exit? ==> s.exitCode.None?
    ensures e.KillTimer? ==> e.which < |s.killsAt|
  {}

  lemma SettledStays(c: Config, s: State, e: Event, now: int)
    requires Enabled(s, e, now) && Settled(s) && s.termAt.None? && s.killsAt == [] && !s.listening
    ensures var t := Step(c, s, e, now);
            t.termAt.None? && t.killsAt == [] && !t.listening && t.sent == s.sent
            && t.exitCode == (if e.Exit? then e.code else s.exitCode)
    ensures e.Exit? ==> s.exitCode.None?
    ensures !Escalates(e) && !e.KillTimer?
  {}

  /** What one event sends. */
  lemma SentByStep(c: Config, s: State, e: Event, now: int)
    requires Enabled(s, e, now) && !Settled(s)
    ensures var can := c.pid && s.exitCode.None?;
            var overflow := e.Data? && s.limitHit.None? && |Captured(s, e.stream)| + |e.chunk| > Limit(c, e.stream);
            Step(c, s, e, now).sent == s.sent +
              (if e.Exit? then (if c.pid then [Sent(Kill, now, Reaping)] else [])
               else if !can then []
               else if Escalates(e) then [Sent(Term, now, Escalation)]
               else if e.KillTimer? then [Sent(Kill, now, GraceOver)]
               else if overflow then [Sent(Kill, now, Overflow)]
               else [])
  {
    hide Limit, Captured;
  }

  // ---- every run ---------------------------------------------------------------------------------------

  /** The listener, the wall clock and the kill timers. Until settlement the abort is listened for until it comes, the
      wall clock is pending for its exact end until it fires, and for every escalation a SIGKILL is pending, due
      exactly the grace later, or its timer has fired; after settlement nothing is pending. */
  lemma {:induction false} TimersTheorem(c: Config, aborted: bool, start: int, h: History)
    requires Possible(c, aborted, start, h)
    ensures Agrees(c, aborted, start, h, Run(c, aborted, start, h))
  {
    hide Step, Enabled;
    if h == [] {
      TimersAtStart(c, aborted, start);
    } else {
      var n := |h| - 1;
      var t, e, now := h[..n], h[n].event, h[n].now;
      var s := Run(c, aborted, start, t);
      TimersTheorem(c, aborted, start, t);
      CaptureTheorem(c, aborted, start, h);
      EndedMore(h);
      SignallableMore(c, h);
      HeardMore(h, Abort);
      HeardMore(h, TermTimer);
      if Ended(t) {
        SettledStays(c, s, e, now);
      } else {
        TimersOfStep(c, s, e, now);
        KillsStep(c, aborted, start, h);
      }
    }
  }

  lemma TimersAtStart(c: Config, aborted: bool, start: int)
    ensures Agrees(c, aborted, start, [], Start(c, aborted, start))
  {}

  lemma DuesMore(c: Config, aborted: bool, start: int, h: History)
    requires h != []
    ensures var n := |h| - 1;
            var e, fired, dues := h[n].event, FiredDues(c, aborted, start, h[..n]), Dues(c, aborted, start, h[..n]);
            var pending := Run(c, aborted, start, h[..n]).killsAt;
            && FiredDues(c, aborted, start, h) ==
               (if e.KillTimer? && e.which < |pending| then fired + [pending[e.which]] else fired)
            && Dues(c, aborted, start, h) == (if Escalates(e) then dues + [h[n].now + c.grace] else dues)
  {
    hide Run;
  }

  /** The kill timers across one event before settlement. */
  lemma KillsStep(c: Config, aborted: bool, start: int, h: History)
    requires h != [] && Possible(c, aborted, start, h)
    requires var t := h[..|h| - 1];
             var s := Run(c, aborted, start, t);
             !Settled(s) && Balanced(s.killsAt, FiredDues(c, aborted, start, t), Dues(c, aborted, start, t))
    ensures !Settling(h[|h| - 1].event) ==>
              Balanced(Run(c, aborted, start, h).killsAt, FiredDues(c, aborted, start, h), Dues(c, aborted, start, h))
  {
    hide Step, Possible, Enabled, Balanced, FiredDues, Dues;
    var n := |h| - 1;
    var s, e, now := Run(c, aborted, start, h[..n]), h[n].event, h[n].now;
    PossibleMore(c, aborted, start, h);
    TimersOfStep(c, s, e, now);
    DuesMore(c, aborted, start, h);
    var fired, dues := FiredDues(c, aborted, start, h[..n]), Dues(c, aborted, start, h[..n]);
    if e.KillTimer? {
      Fires(s.killsAt, fired, dues, e.which);
    } else if Escalates(e) {
      Arms(s.killsAt, fired, dues, now + c.grace);
    }
  }

  lemma PossibleMore(c: Config, aborted: bool, start: int, h: History)
    requires h != [] && Possible(c, aborted, start, h)
    ensures var n := |h| - 1;
            Possible(c, aborted, start, h[..n]) && Enabled(Run(c, aborted, start, h[..n]), h[n].event, h[n].now)
  {}

  lemma Fires(kills: seq<int>, fired: seq<int>, dues: seq<int>, k: nat)
    requires k < |kills| && Balanced(kills, fired, dues)
    ensures Balanced(kills[..k] + kills[k + 1..], fired + [kills[k]], dues)
  {
    OneOut(kills, k);
  }

  lemma Arms(kills: seq<int>, fired: seq<int>, dues: seq<int>, at: int)
    requires Balanced(kills, fired, dues)
    ensures Balanced(kills + [at], fired, dues + [at])
  {}

  /** Every signal and the moment it is sent, told from the events: a SIGTERM at each escalation, a SIGKILL when a kill
      timer fires, when a stream first overflows, and when the child exits, and nothing else. */
  lemma {:induction false} SignalsTheorem(c: Config, aborted: bool, start: int, h: History)
    requires Possible(c, aborted, start, h)
    ensures Run(c, aborted, start, h).sent == SignalsOf(c, aborted, start, h)
  {
    hide Step, Enabled, Heard, OverflowsAt, Agrees;
    if h == [] {
      SentAtStart(c, aborted, start);
    } else {
      SignalsTheorem(c, aborted, start, h[..|h| - 1]);
      SignalsStep(c, aborted, start, h);
    }
  }

  lemma SentAtStart(c: Config, aborted: bool, start: int)
    ensures Start(c, aborted, start).sent == SignalsOf(c, aborted, start, [])
  {}

  lemma SignalsStep(c: Config, aborted: bool, start: int, h: History)
    requires h != [] && Possible(c, aborted, start, h)
    ensures Run(c, aborted, start, h).sent == Run(c, aborted, start, h[..|h| - 1]).sent + SignalOfLast(c, h)
  {
    hide Step, Heard, Limit, Enabled, Ended, OverflowsAt, FiredDues, Dues, Possible;
    var n := |h| - 1;
    var t, e, now := h[..n], h[n].event, h[n].now;
    var s := Run(c, aborted, start, t);
    PossibleMore(c, aborted, start, h);
    TimersTheorem(c, aborted, start, t);
    if Ended(t) {
      SettledStays(c, s, e, now);
      HeardBeforeEnd(c, t);
    } else {
      SentByStep(c, s, e, now);
      if e.Data? { OverflowOfLast(c, aborted, start, h); }
    }
  }

  lemma HeardBeforeEnd(c: Config, t: History)
    requires Ended(t)
    ensures Heard(c, t) < |t|
  {
    var i :| 0 <= i < |t| && Settling(t[i].event);
    assert StopsAt(c, t, i);
  }

  /** The first overflow of a supervision that has not settled, told from the events. */
  lemma OverflowOfLast(c: Config, aborted: bool, start: int, h: History)
    requires h != [] && !Ended(h[..|h| - 1]) && h[|h| - 1].event.Data?
    ensures var n := |h| - 1;
            var e, s := h[n].event, Run(c, aborted, start, h[..n]);
            (s.limitHit.None? && |Captured(s, e.stream)| + |e.chunk| > Limit(c, e.stream)) <==>
            (Heard(c, h[..n]) == n && OverflowsAt(c, h, n))
  {
    hide Run, Limit;
    var n := |h| - 1;
    var t := h[..n];
    CaptureTheorem(c, aborted, start, t);
    StoppedMeaning(c, t);
    assert t[..n] == t && h[..n + 1] == h;
    OverflowMeaning(c, h, n);
  }
}
