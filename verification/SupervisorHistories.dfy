// What supervision promises over every sequence of events, stated on the events alone.
module SupervisorHistories {
  import opened Wrappers
  import opened ReadBounded
  import opened Supervisor

  datatype Moment = Moment(event: Event, now: int)

  type History = seq<Moment>

  function Run(c: Config, aborted: bool, start: int, h: History): State {
    if h == [] then Start(c, aborted, start)
    else Step(c, Run(c, aborted, start, h[..|h| - 1]), h[|h| - 1].event, h[|h| - 1].now)
  }

  /** Every event happened when it could, and the clock never went back. */
  predicate Possible(c: Config, aborted: bool, start: int, h: History) {
    h == [] ||
    var n := |h| - 1;
    && Possible(c, aborted, start, h[..n])
    && Enabled(Run(c, aborted, start, h[..n]), h[n].event, h[n].now)
    && (if n == 0 then start else h[n - 1].now) <= h[n].now
  }

  // ---- the events alone -------------------------------------------------------------------------

  /** All bytes a stream delivered. */
  function AllData(h: History, stream: Stream): Bytes {
    if h == [] then []
    else
      var e := h[|h| - 1].event;
      AllData(h[..|h| - 1], stream) + if e.Data? && e.stream == stream then e.chunk else []
  }

  predicate Settling(e: Event) { e.ProcessError? || e.Exit? }

  /** With the event at `i` its stream has delivered more than its limit. */
  predicate OverflowsAt(c: Config, h: History, i: nat) {
    && i < |h| && h[i].event.Data?
    && |AllData(h[..i + 1], h[i].event.stream)| > (if h[i].event.stream.Stdout? then c.maxStdout else c.maxStderr)
  }

  predicate StopsAt(c: Config, h: History, i: nat) {
    i < |h| && (Settling(h[i].event) || OverflowsAt(c, h, i))
  }

  /** How many events were heard before capture stopped: at the first overflow or settlement. */
  function Heard(c: Config, h: History): (m: nat)
    ensures m <= |h|
    ensures forall k :: 0 <= k < m ==> !StopsAt(c, h, k)
    ensures m < |h| ==> StopsAt(c, h, m)
  {
    if h == [] then 0
    else
      var n := |h| - 1;
      var m := Heard(c, h[..n]);
      assert forall k :: 0 <= k < n ==> h[..n][..k + 1] == h[..k + 1] && h[..n][k] == h[k];
      assert forall k :: 0 <= k < n ==> (StopsAt(c, h[..n], k) <==> StopsAt(c, h, k));
      if m < n || StopsAt(c, h, n) then m else n + 1
  }

  predicate Ended(h: History) { exists i :: 0 <= i < |h| && Settling(h[i].event) }

  function FirstSettling(h: History): (x: nat)
    requires Ended(h)
    ensures x < |h| && Settling(h[x].event) && !Ended(h[..x])
  {
    var n := |h| - 1;
    if Ended(h[..n]) then
      var x := FirstSettling(h[..n]);
      assert h[..n][..x] == h[..x];
      x
    else n
  }

  /** The latest escalation, or the wall clock when there was none. */
  function LastTrigger(c: Config, aborted: bool, h: History): Trigger {
    if h == [] then (if aborted then Shutdown else WallTime)
    else
      match h[|h| - 1].event
      case Abort => Shutdown
      case TermTimer => if c.deadline.Some? then InvocationDeadline else WallTime
      case Data(_, _) => LastTrigger(c, aborted, h[..|h| - 1])
      case ProcessError => LastTrigger(c, aborted, h[..|h| - 1])
      case Exit(_, _) => LastTrigger(c, aborted, h[..|h| - 1])
      case KillTimer(_) => LastTrigger(c, aborted, h[..|h| - 1])
  }

  // ---- capture ----------------------------------------------------------------------------------

  lemma EndedMore(h: History)
    requires h != []
    ensures Ended(h) <==> Ended(h[..|h| - 1]) || Settling(h[|h| - 1].event)
  {
    var n := |h| - 1;
    assert forall i :: 0 <= i < n ==> h[..n][i] == h[i];
  }

  /** After an overflow or a settlement no event changes what is captured. */
  lemma StoppedStep(c: Config, s: State, e: Event, now: int)
    requires s.limitHit.Some? || Settled(s)
    ensures var t := Step(c, s, e, now);
            t.stdout == s.stdout && t.stderr == s.stderr && t.limitHit == s.limitHit
            && (Settled(t) <==> Settled(s) || Settling(e))
  {}

  lemma OpenStep(c: Config, s: State, e: Event, now: int)
    requires s.limitHit.None? && !Settled(s)
    ensures var t := Step(c, s, e, now);
            && (Settled(t) <==> Settling(e))
            && if e.Data? && |Captured(s, e.stream)| + |e.chunk| > Limit(c, e.stream)
               then t.stdout == s.stdout && t.stderr == s.stderr && t.limitHit == Some(e.stream)
               else t.limitHit.None? && (forall stream ::
                      Captured(t, stream) ==
                      Captured(s, stream) + if e.Data? && e.stream == stream then e.chunk else [])
  {}

  /** What is captured of a stream is what it delivered before capture stopped, and stays within its
      limit; the limit is noted exactly when an overflow stopped it. */
  lemma {:induction false} CaptureTheorem(c: Config, aborted: bool, start: int, h: History)
    ensures var s, m := Run(c, aborted, start, h), Heard(c, h);
            && (forall stream ::
                  Captured(s, stream) == AllData(h[..m], stream) && |Captured(s, stream)| <= Limit(c, stream))
            && s.limitHit == (if m < |h| && h[m].event.Data? then Some(h[m].event.stream) else None)
            && (Settled(s) <==> Ended(h))
  {
    hide Step, Limit, OverflowsAt;
    if h == [] {
      NothingCaptured(c, aborted, start);
    } else {
      var n := |h| - 1;
      CaptureTheorem(c, aborted, start, h[..n]);
      EndedMore(h);
      StoppedMeaning(c, h[..n]);
      var s, m := Run(c, aborted, start, h[..n]), Heard(c, h[..n]);
      var e := h[n].event;
      assert h[..n][..m] == h[..m];
      if m < n {
        StoppedStep(c, s, e, h[n].now);
        assert h[..n][m] == h[m];
      } else {
        OpenStep(c, s, e, h[n].now);
        assert h[..n + 1] == h && h[..n][..m] == h[..n];
        OverflowMeaning(c, h, n);
      }
    }
  }

  lemma NothingCaptured(c: Config, aborted: bool, start: int)
    ensures var s := Start(c, aborted, start);
            s.stdout == [] && s.stderr == [] && s.limitHit == None && !Settled(s)
    ensures forall stream :: AllData([], stream) == []
    ensures !Ended([]) && forall stream :: 0 <= Limit(c, stream)
  {}

  lemma OverflowMeaning(c: Config, h: History, n: nat)
    requires n < |h| && n == |h| - 1
    ensures OverflowsAt(c, h, n) <==>
              && h[n].event.Data?
              && |AllData(h[..n], h[n].event.stream)| + |h[n].event.chunk| > Limit(c, h[n].event.stream)
    ensures forall stream ::
              AllData(h, stream) == AllData(h[..n], stream)
                                    + if h[n].event.Data? && h[n].event.stream == stream then h[n].event.chunk else []
    ensures !OverflowsAt(c, h, n) && h[n].event.Data? ==> |AllData(h, h[n].event.stream)| <= Limit(c, h[n].event.stream)
  {
    assert h[..n + 1] == h;
  }

  lemma StoppedMeaning(c: Config, h: History)
    ensures var m := Heard(c, h); m < |h| <==> (m < |h| && h[m].event.Data?) || Ended(h)
  {
    var m := Heard(c, h);
    if Ended(h) {
      var i :| 0 <= i < |h| && Settling(h[i].event);
      assert StopsAt(c, h, i);
    }
  }

  // ---- the outcome --------------------------------------------------------------------------------

  lemma {:induction false} TriggerTracked(c: Config, aborted: bool, start: int, h: History)
    ensures Run(c, aborted, start, h).trigger == LastTrigger(c, aborted, h)
  {
    if h != [] { TriggerTracked(c, aborted, start, h[..|h| - 1]); }
  }

  /** The one outcome the events call for: the first settling event decides. */
  function OutcomeOf(c: Config, aborted: bool, h: History): Outcome
    requires Ended(h)
  {
    var x := FirstSettling(h);
    var before := h[..x];
    var m := Heard(c, before);
    var out, err := AllData(before[..m], Stdout), AllData(before[..m], Stderr);
    if h[x].event.ProcessError? then SpawnFailed
    else if m < x && before[m].event.Data? then OutputLimit(before[m].event.stream, out, err)
    else
      var code, exitSignal := h[x].event.code, h[x].event.exitSignal;
      if exitSignal == Some(Term) || exitSignal == Some(Kill) then
        Killed(LastTrigger(c, aborted, before), exitSignal.value, out, err)
      else if code == Some(0) then Succeeded(out, err)
      else Failed(if code.Some? then code.value else -1, out, err)
  }

  lemma SettledStep(c: Config, s: State, e: Event, now: int)
    requires Settled(s)
    ensures Step(c, s, e, now).resolved == s.resolved
  {}

  lemma SettlingStep(c: Config, s: State, e: Event, now: int)
    requires !Settled(s)
    ensures Settling(e) ==>
              Step(c, s, e, now).resolved ==
              [if e.ProcessError? then SpawnFailed else OutcomeOfExit(s, e.code, e.exitSignal)]
    ensures !Settling(e) ==> Step(c, s, e, now).resolved == []
  {}

  /** Supervision settles exactly once, at the first failure or exit, and with what the events call for;
      in particular an exit reports the output limit exactly when an overflow came before it. */
  lemma {:induction false} OneOutcome(c: Config, aborted: bool, start: int, h: History)
    ensures Run(c, aborted, start, h).resolved == if Ended(h) then [OutcomeOf(c, aborted, h)] else []
  {
    hide Step, Heard, LastTrigger, AllData, Limit;
    if h != [] {
      var n := |h| - 1;
      var t, s := h[..n], Run(c, aborted, start, h[..n]);
      OneOutcome(c, aborted, start, t);
      EndedMore(h);
      if Ended(t) {
        SettledStep(c, s, h[n].event, h[n].now);
        var x := FirstSettling(t);
        assert FirstSettling(h) == x && t[x] == h[x] && t[..x] == h[..x];
      } else {
        SettlingStep(c, s, h[n].event, h[n].now);
        CaptureTheorem(c, aborted, start, t);
        TriggerTracked(c, aborted, start, t);
        assert Captured(s, Stdout) == s.stdout && Captured(s, Stderr) == s.stderr;
        if Settling(h[n].event) {
          assert FirstSettling(h) == n;
        }
      }
    }
  }

  /** The output-limit outcome, told from the events: an exit came first, after a stream overflowed. */
  lemma OutputLimitExactly(c: Config, aborted: bool, start: int, h: History)
    requires Ended(h)
    ensures var x := FirstSettling(h);
            (exists st, out, err :: Run(c, aborted, start, h).resolved == [OutputLimit(st, out, err)]) <==>
            h[x].event.Exit? && exists i :: 0 <= i < x && OverflowsAt(c, h, i)
  {
    hide Step, LastTrigger, AllData, Limit;
    OneOutcome(c, aborted, start, h);
    var x := FirstSettling(h);
    var before := h[..x];
    assert forall i :: 0 <= i < x ==> before[i] == h[i] && before[..i + 1] == h[..i + 1];
    assert forall i :: 0 <= i < x ==> (OverflowsAt(c, before, i) <==> OverflowsAt(c, h, i));
    var m := Heard(c, before);
    if m < x { assert StopsAt(c, before, m); }
    forall i | 0 <= i < x && OverflowsAt(c, h, i) ensures m <= i { assert StopsAt(c, before, i); }
  }

  // ---- signals --------------------------------------------------------------------------------------

  /** A pending kill timer has the grace of a SIGTERM already sent (if signals can be sent at all), and
      nothing is pending after settlement. */
  ghost predicate TimersInv(c: Config, s: State) {
    && (Settled(s) ==> s.termAt.None? && s.killsAt == [] && !s.listening)
    && (c.pid && s.exitCode.None? ==> forall k :: 0 <= k < |s.killsAt| ==> Warned(c, s, |s.sent|, s.killsAt[k]))
    && (forall i :: 0 <= i < |s.sent| && s.sent[i].cause == GraceOver ==>
        s.sent[i].signal == Kill && Warned(c, s, i, s.sent[i].at))
  }

  /** Among the first `n` signals there is an escalating SIGTERM at least the grace before `at`. */
  ghost predicate Warned(c: Config, s: State, n: nat, at: int) {
    exists j :: 0 <= j < n && j < |s.sent| && s.sent[j].signal == Term && s.sent[j].cause == Escalation
        && s.sent[j].at + c.grace <= at
  }

  lemma WarnedStays(c: Config, s: State, t: State, n: nat, m: nat, at: int, later: int)
    requires Warned(c, s, n, at) && s.sent <= t.sent && n <= m && at <= later
    ensures Warned(c, t, m, later)
  {
    var j :| 0 <= j < n && j < |s.sent| && s.sent[j].signal == Term && s.sent[j].cause == Escalation
        && s.sent[j].at + c.grace <= at;
    assert t.sent[j] == s.sent[j];
  }

  lemma TimersStep(c: Config, s: State, e: Event, now: int)
    requires TimersInv(c, s) && Enabled(s, e, now)
    ensures TimersInv(c, Step(c, s, e, now))
    ensures s.sent <= Step(c, s, e, now).sent
    ensures Settled(s) ==> Step(c, s, e, now).sent == s.sent
  {
    hide Warned, Limit, Captured;
    var t := Step(c, s, e, now);
    forall i | 0 <= i < |s.sent| && s.sent[i].cause == GraceOver ensures Warned(c, t, i, s.sent[i].at) {
      WarnedStays(c, s, t, i, i, s.sent[i].at, s.sent[i].at);
    }
    forall k | 0 <= k < |s.killsAt| && c.pid && s.exitCode.None?
      ensures Warned(c, t, |t.sent|, s.killsAt[k])
      ensures s.killsAt[k] <= now ==> Warned(c, t, |s.sent|, now)
    {
      WarnedStays(c, s, t, |s.sent|, |t.sent|, s.killsAt[k], s.killsAt[k]);
      if s.killsAt[k] <= now { WarnedStays(c, s, t, |s.sent|, |s.sent|, s.killsAt[k], now); }
    }
    if (e.Abort? || e.TermTimer?) && c.pid && s.exitCode.None? {
      EscalationWarns(c, t, |s.sent|, now);
    }
  }

  lemma EscalationWarns(c: Config, t: State, n: nat, now: int)
    requires n < |t.sent| && t.sent[n] == Sent(Term, now, Escalation)
    ensures Warned(c, t, n + 1, now + c.grace)
  {}

  lemma {:induction false} TimersReach(c: Config, aborted: bool, start: int, h: History)
    requires Possible(c, aborted, start, h)
    ensures TimersInv(c, Run(c, aborted, start, h))
  {
    hide Step, Warned;
    if h == [] {
      var s := Start(c, aborted, start);
      if aborted && c.pid { EscalationWarns(c, s, 0, start); }
    } else {
      var n := |h| - 1;
      TimersReach(c, aborted, start, h[..n]);
      TimersStep(c, Run(c, aborted, start, h[..n]), h[n].event, h[n].now);
    }
  }

  /** A SIGKILL on a timer always follows a SIGTERM, by at least the grace. */
  lemma TimedKillFollowsTerm(c: Config, aborted: bool, start: int, h: History, i: nat)
    requires Possible(c, aborted, start, h)
    requires var s := Run(c, aborted, start, h); i < |s.sent| && s.sent[i].cause == GraceOver
    ensures var s := Run(c, aborted, start, h);
            && s.sent[i].signal == Kill
            && exists j :: 0 <= j < i && s.sent[j].signal == Term && s.sent[j].at + c.grace <= s.sent[i].at
  {
    TimersReach(c, aborted, start, h);
    var s := Run(c, aborted, start, h);
    assert Warned(c, s, i, s.sent[i].at);
  }

  /** Once settled, supervision sends nothing more and its outcome stands, whatever happens next. */
  lemma {:induction false} QuietAfterSettlement(c: Config, aborted: bool, start: int, h: History, m: nat)
    requires Possible(c, aborted, start, h) && m <= |h| && Settled(Run(c, aborted, start, h[..m]))
    ensures Run(c, aborted, start, h).sent == Run(c, aborted, start, h[..m]).sent
    ensures Run(c, aborted, start, h).resolved == Run(c, aborted, start, h[..m]).resolved
  {
    hide Step, Warned;
    if m == |h| {
      assert h[..m] == h;
    } else {
      var n := |h| - 1;
      assert h[..n][..m] == h[..m];
      QuietAfterSettlement(c, aborted, start, h[..n], m);
      TimersReach(c, aborted, start, h[..n]);
      TimersStep(c, Run(c, aborted, start, h[..n]), h[n].event, h[n].now);
      SettledStep(c, Run(c, aborted, start, h[..n]), h[n].event, h[n].now);
    }
  }

  /** Unlike the native reader's, this capture depends on how the stream is cut: the piece that overflows is
      dropped whole. */
  lemma CaptureDependsOnChunking(c: Config, a: Bytes, b: Bytes, now: int)
    requires |a| <= c.maxStdout < |a| + |b| && a != []
    ensures var whole := [Moment(Data(Stdout, a + b), now)];
            var cut := [Moment(Data(Stdout, a), now), Moment(Data(Stdout, b), now)];
            && AllData(whole, Stdout) == AllData(cut, Stdout)
            && Run(c, false, now, whole).stdout == [] && Run(c, false, now, cut).stdout == a
  {
    var whole, cut := [Moment(Data(Stdout, a + b), now)], [Moment(Data(Stdout, a), now), Moment(Data(Stdout, b), now)];
    assert whole[..0] == [] && cut[..1] == [Moment(Data(Stdout, a), now)] && cut[..1][..0] == [];
  }

  lemma {:induction false} DataGrows(h: History, stream: Stream, n: nat)
    requires n <= |h|
    ensures AllData(h[..n], stream) <= AllData(h, stream)
    decreases |h|
  {
    if n < |h| {
      DataGrows(h[..|h| - 1], stream, n);
      assert h[..|h| - 1][..n] == h[..n];
    } else {
      assert h[..n] == h;
    }
  }

  lemma DataBetween(h: History, stream: Stream, m: nat, n: nat)
    requires m <= n <= |h|
    ensures |AllData(h[..m], stream)| <= |AllData(h[..n], stream)|
  {
    DataGrows(h[..n], stream, m);
    assert h[..n][..m] == h[..m];
  }

  /** Of a stream that delivers alone, its first bytes up to the limit are captured exactly when they are all, or some
      chunk ends at the limit. */
  lemma CaptureIsPrefixExactly(c: Config, aborted: bool, start: int, h: History, stream: Stream)
    requires forall i :: 0 <= i < |h| ==> h[i].event.Data? && h[i].event.stream == stream
    ensures var all, limit := AllData(h, stream), if stream.Stdout? then c.maxStdout else c.maxStderr;
            Captured(Run(c, aborted, start, h), stream) == (if |all| <= limit then all else all[..limit]) <==>
            |all| <= limit || exists n :: 0 <= n <= |h| && |AllData(h[..n], stream)| == limit
  {
    hide Run;
    CaptureTheorem(c, aborted, start, h);
    var m, all, limit := Heard(c, h), AllData(h, stream), Limit(c, stream);
    DataGrows(h, stream, m);
    if m == |h| {
      assert h[..m] == h;
    } else {
      assert OverflowsAt(c, h, m);
      DataGrows(h, stream, m + 1);
      forall n | 0 <= n <= |h| ensures |AllData(h[..n], stream)| == limit ==> |AllData(h[..m], stream)| == limit {
        if n <= m { DataBetween(h, stream, n, m); } else { DataBetween(h, stream, m + 1, n); }
      }
    }
  }
}
