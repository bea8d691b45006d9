// One supervised process: abort, timers, output, failure and exit, in any order, and what is made of them.
module Supervisor {
  import opened Wrappers
  import opened ReadBounded

  datatype Stream = Stdout | Stderr

  datatype Signal = Term | Kill | OtherSignal

  datatype Trigger = WallTime | InvocationDeadline | Shutdown

  datatype Outcome =
    | Succeeded(stdout: Bytes, stderr: Bytes)
    | Failed(exitCode: int, stdout: Bytes, stderr: Bytes)
    | SpawnFailed
    | Killed(trigger: Trigger, finalSignal: Signal, stdout: Bytes, stderr: Bytes)
    | OutputLimit(stream: Stream, stdout: Bytes, stderr: Bytes)

  /** Why a signal went to the process group. */
  datatype Cause = Escalation | GraceOver | Overflow | Reaping

  datatype Sent = Sent(signal: Signal, at: int, cause: Cause)

  /** What is fixed when supervision starts: `pid` is whether the process could be started at all. */
  datatype Config = Config(pid: bool, maxStdout: nat, maxStderr: nat, grace: nat, wallTime: int, deadline: Option<int>)

  /** The variables `superviseProcess` closes over; `termAt` and `killsAt` are its pending timers. */
  datatype State = State(
    stdout: Bytes, stderr: Bytes, limitHit: Option<Stream>, trigger: Trigger,
    exitCode: Option<int>, listening: bool, termAt: Option<int>, killsAt: seq<int>,
    resolved: seq<Outcome>, sent: seq<Sent>)

  datatype Event =
    | Abort
    | Data(stream: Stream, chunk: Bytes)
    | ProcessError
    | Exit(code: Option<int>, exitSignal: Option<Signal>)
    | TermTimer
    | KillTimer(which: nat)

  function Limit(c: Config, stream: Stream): nat { if stream.Stdout? then c.maxStdout else c.maxStderr }

  function Captured(s: State, stream: Stream): Bytes { if stream.Stdout? then s.stdout else s.stderr }

  predicate Settled(s: State) { s.resolved != [] }

  // ---- the specification of each handler --------------------------------------------------------

  function KillGroup(c: Config, s: State, signal: Signal, now: int, cause: Cause): State {
    if !c.pid || s.exitCode.Some? then s else s.(sent := s.sent + [Sent(signal, now, cause)])
  }

  function Escalate(c: Config, s: State, trigger: Trigger, now: int): State {
    KillGroup(c, s.(trigger := trigger), Term, now, Escalation).(killsAt := s.killsAt + [now + c.grace])
  }

  function Settle(s: State, outcome: Outcome): State {
    if Settled(s) then s
    else s.(resolved := s.resolved + [outcome], termAt := None, killsAt := [], listening := false)
  }

  function OutcomeOfExit(s: State, code: Option<int>, exitSignal: Option<Signal>): Outcome {
    if s.limitHit.Some? then OutputLimit(s.limitHit.value, s.stdout, s.stderr)
    else if exitSignal == Some(Term) || exitSignal == Some(Kill) then
      Killed(s.trigger, exitSignal.value, s.stdout, s.stderr)
    else if code == Some(0) then Succeeded(s.stdout, s.stderr)
    else Failed(if code.Some? then code.value else -1, s.stdout, s.stderr)
  }

  function TimedTrigger(c: Config): Trigger {
    if c.deadline.Some? then InvocationDeadline else WallTime
  }

  function Step(c: Config, s: State, e: Event, now: int): State {
    match e
    case Abort => Escalate(c, s.(listening := false), Shutdown, now)
    case Data(stream, chunk) =>
      if Settled(s) || s.limitHit.Some? then s
      else if |Captured(s, stream)| + |chunk| > Limit(c, stream) then
        KillGroup(c, s.(limitHit := Some(stream)), Kill, now, Overflow)
      else if stream.Stdout? then s.(stdout := s.stdout + chunk)
      else s.(stderr := s.stderr + chunk)
    case ProcessError => Settle(s, SpawnFailed)
    case Exit(code, exitSignal) =>
      var gone := s.(exitCode := code);
      if Settled(s) then gone
      else
        var reaped := if c.pid then gone.(sent := s.sent + [Sent(Kill, now, Reaping)]) else gone;
        Settle(reaped, OutcomeOfExit(s, code, exitSignal))
    case TermTimer => Escalate(c, s.(termAt := None), TimedTrigger(c), now)
    case KillTimer(which) =>
      if which < |s.killsAt| then
        KillGroup(c, s.(killsAt := s.killsAt[..which] + s.killsAt[which + 1..]), Kill, now, GraceOver)
      else s
  }

  /** What the runtime may deliver: a timer only when it is pending and due, the abort only to its listener. */
  predicate Enabled(s: State, e: Event, now: int) {
    match e
    case Abort => s.listening
    case TermTimer => s.termAt.Some? && s.termAt.value <= now
    case KillTimer(which) => which < |s.killsAt| && s.killsAt[which] <= now
    case Data(_, _) => true
    case ProcessError => true
    case Exit(_, _) => s.exitCode.None?
  }

  /** The start of supervision at time `now`, the abort signal possibly set already. */
  function Start(c: Config, aborted: bool, now: int): State {
    var s0 := State([], [], None, WallTime, None, !aborted, None, [], [], []);
    var s1 := if aborted then Escalate(c, s0, Shutdown, now) else s0;
    var wall := now + c.wallTime;
    var killAt := if c.deadline.Some? && c.deadline.value < wall then c.deadline.value else wall;
    s1.(termAt := Some(if killAt < now then now else killAt))
  }

  // ---- as it runs -----------------------------------------------------------------------------------

  class Supervision {
    const config: Config
    var stdout: Bytes
    var stderr: Bytes
    var stdoutBytes: nat
    var stderrBytes: nat
    var settled: bool
    var limitHit: Option<Stream>
    var killTrigger: Trigger
    var exitCode: Option<int>
    var listening: bool
    var termAt: Option<int>
    var killsAt: seq<int>
    /** Calls of the promise's `resolve`, and of `process.kill` on the group. */
    var resolved: seq<Outcome>
    var sent: seq<Sent>

    ghost predicate Valid() reads this {
      && stdoutBytes == |stdout| && stderrBytes == |stderr|
      && (settled <==> resolved != [])
    }

    ghost function Abstract(): State reads this {
      State(stdout, stderr, limitHit, killTrigger, exitCode, listening, termAt, killsAt, resolved, sent)
    }

    constructor (config: Config, aborted: bool, now: int)
      ensures Valid() && this.config == config
      ensures Abstract() == Start(config, aborted, now)
    {
      this.config := config;
      stdout, stderr, stdoutBytes, stderrBytes := [], [], 0, 0;
      settled, limitHit, killTrigger, exitCode := false, None, WallTime, None;
      listening, termAt, killsAt, resolved, sent := true, None, [], [], [];
      new;
      if aborted {
        listening := false;
        EscalateWith(Shutdown, now);
      }
      var killAt := now + config.wallTime;
      if config.deadline.Some? && config.deadline.value < killAt { killAt := config.deadline.value; }
      termAt := Some(if killAt < now then now else killAt);
    }

    method SettleWith(outcome: Outcome)
      requires Valid()
      modifies this
      ensures Valid() && Abstract() == Settle(old(Abstract()), outcome)
    {
      if settled { return; }
      settled := true;
      termAt, killsAt, listening := None, [], false;
      resolved := resolved + [outcome];
    }

    method SignalGroup(signal: Signal, now: int, cause: Cause)
      requires Valid()
      modifies this`sent
      ensures Valid() && Abstract() == KillGroup(config, old(Abstract()), signal, now, cause)
    {
      if !config.pid || exitCode.Some? { return; }
      sent := sent + [Sent(signal, now, cause)];
    }

    method EscalateWith(trigger: Trigger, now: int)
      requires Valid()
      modifies this
      ensures Valid() && Abstract() == Escalate(config, old(Abstract()), trigger, now)
    {
      killTrigger := trigger;
      SignalGroup(Term, now, Escalation);
      killsAt := killsAt + [now + config.grace];
    }

    method OnAbort(now: int)
      requires Valid()
      modifies this
      ensures Valid() && Abstract() == Step(config, old(Abstract()), Abort, now)
    {
      listening := false;
      EscalateWith(Shutdown, now);
    }

    /** `boundStream`. */
    method OnData(stream: Stream, chunk: Bytes, now: int)
      requires Valid()
      modifies this
      ensures Valid() && Abstract() == Step(config, old(Abstract()), Data(stream, chunk), now)
    {
      if settled || limitHit.Some? { return; }
      var limit := if stream.Stdout? then config.maxStdout else config.maxStderr;
      var currentBytes := if stream.Stdout? then stdoutBytes else stderrBytes;
      if currentBytes + |chunk| > limit {
        limitHit := Some(stream);
        SignalGroup(Kill, now, Overflow);
        return;
      }
      if stream.Stdout? {
        stdoutBytes := stdoutBytes + |chunk|;
        stdout := stdout + chunk;
      } else {
        stderrBytes := stderrBytes + |chunk|;
        stderr := stderr + chunk;
      }
    }

    method OnError(now: int)
      requires Valid()
      modifies this
      ensures Valid() && Abstract() == Step(config, old(Abstract()), ProcessError, now)
    {
      SettleWith(SpawnFailed);
    }

    method OnExit(code: Option<int>, exitSignal: Option<Signal>, now: int)
      requires Valid()
      modifies this
      ensures Valid() && Abstract() == Step(config, old(Abstract()), Exit(code, exitSignal), now)
    {
      exitCode := code;
      if settled { return; }
      if config.pid { sent := sent + [Sent(Kill, now, Reaping)]; }
      if limitHit.Some? {
        SettleWith(OutputLimit(limitHit.value, stdout, stderr));
        return;
      }
      if exitSignal == Some(Term) || exitSignal == Some(Kill) {
        SettleWith(Killed(killTrigger, exitSignal.value, stdout, stderr));
        return;
      }
      if code == Some(0) {
        SettleWith(Succeeded(stdout, stderr));
        return;
      }
      SettleWith(Failed(if code.Some? then code.value else -1, stdout, stderr));
    }

    method OnTermTimer(now: int)
      requires Valid()
      modifies this
      ensures Valid() && Abstract() == Step(config, old(Abstract()), TermTimer, now)
    {
      termAt := None;
      EscalateWith(if config.deadline.Some? then InvocationDeadline else WallTime, now);
    }

    method OnKillTimer(which: nat, now: int)
      requires Valid() && which < |killsAt|
      modifies this
      ensures Valid() && Abstract() == Step(config, old(Abstract()), KillTimer(which), now)
    {
      killsAt := killsAt[..which] + killsAt[which + 1..];
      SignalGroup(Kill, now, GraceOver);
    }
  }
}
