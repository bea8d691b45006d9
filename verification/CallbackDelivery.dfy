// `deliverSignedBody`: one signed delivery with bounded retries.
// The environment (responses, clocks, randomness, abort signal, sleep) is a script
// with one entry for each attempt.
module CallbackDelivery {
  import opened Wrappers
  import opened Texts
  import opened RetryAfter

  datatype Config = Config(maxAttempts: nat, initialDelayMs: nat, maxDelayMs: nat, jitterRatio: real,
                           maxResponseBytes: nat)

  datatype Classification = Accepted | Retry | DoNotRetry

  function Classify(status: int): Classification {
    if 200 <= status <= 299 then Accepted
    else if status == 408 || status == 429 || 500 <= status <= 599 then Retry
    else DoNotRetry
  }

  /** A response body: the declared length, the sizes of its chunks, and whether reading breaks off after them. */
  datatype Body = Absent(declared: Option<nat>) | Stream(declared: Option<nat>, chunks: seq<nat>, broken: bool)

  function Total(sizes: seq<nat>): nat {
    if sizes == [] then 0 else sizes[0] + Total(sizes[1..])
  }

  predicate WithinLimit(b: Body, limit: nat) {
    && (b.declared.Some? ==> b.declared.value <= limit)
    && (b.Stream? ==> !b.broken && Total(b.chunks) <= limit)
  }

  /** Chunk by chunk, stopping at the first byte over the limit: true when the body was read to its end. */
  method ReadLimitedResponse(b: Body, limit: nat) returns (ok: bool)
    ensures ok <==> WithinLimit(b, limit)
    ensures ok <==> (b.declared.Some? ==> b.declared.value <= limit)
                    && (b.Stream? ==> !b.broken && Total(b.chunks) <= limit)
  {
    if b.declared.Some? && b.declared.value > limit { return false; }
    if b.Absent? { return true; }
    var size := 0;
    var i := 0;
    assert b.chunks[0..] == b.chunks;
    while i < |b.chunks|
      invariant 0 <= i <= |b.chunks| && size <= limit
      invariant size + Total(b.chunks[i..]) == Total(b.chunks)
    {
      assert b.chunks[i..][1..] == b.chunks[i + 1..];
      size := size + b.chunks[i];
      if size > limit { return false; }
      i := i + 1;
    }
    return !b.broken;
  }

  datatype Reply =
    | Response(status: int, body: Body, retryAfter: Option<Text>)
    | Unanswered(timedOut: bool)

  datatype Attempt = Attempt(
    abortedBefore: bool,      // the abort signal, seen before the request
    reply: Reply,
    random: real,             // the jitter drawn for the sleep after an answer
    slept: bool,              // false when that sleep rejects
    timedOutAsleep: bool,     // the request timer, still armed, fires during that sleep
    abortedInCatch: bool,     // the abort signal, seen when the request or that sleep failed
    retryRandom: real,        // the jitter drawn for the sleep after a failure
    retrySlept: bool,         // false when that sleep rejects
    abortedAtEnd: bool)       // the abort signal, seen when that sleep rejects

  datatype Reason =
    | WorkerShutdown | ResponseTooLarge | RetryableStatus | NonRetryableStatus
    | RequestTimeout | NetworkError | BackoffFailed | DeliveryFailed

  datatype Outcome =
    | Delivered(attempts: nat, status: int)
    | NotDelivered(attempts: nat, reason: Reason, httpStatus: Option<int>)

  function Pow2(n: nat): (p: nat)
    ensures p > 0
  {
    if n == 0 then 1 else 2 * Pow2(n - 1)
  }

  function Base(c: Config, attempt: nat): nat
    requires attempt > 0
  {
    if c.initialDelayMs * Pow2(attempt - 1) <= c.maxDelayMs then c.initialDelayMs * Pow2(attempt - 1) else c.maxDelayMs
  }

  /** `Math.round` rounds halves up. */
  function Round(x: real): int {
    (x + 0.5).Floor
  }

  function JitterFactor(random: real, ratio: real): real {
    1.0 + (random * 2.0 - 1.0) * ratio
  }

  function BackoffDelay(c: Config, attempt: nat, random: real): int
    requires attempt > 0
  {
    Clamped(Round(Base(c, attempt) as real * JitterFactor(random, c.jitterRatio)), c.maxDelayMs)
  }

  /** `Math.max(0, Math.min(most, n))`. */
  function Clamped(n: int, most: nat): int {
    var capped := if n <= most then n else most;
    if capped >= 0 then capped else 0
  }

  function RetryDelay(c: Config, attempt: nat, retryAfter: Option<Text>, random: real): real
    requires attempt > 0
  {
    var seconds := ParseRetryAfter(retryAfter, c.maxDelayMs as real / 1000.0);
    if seconds.None? then BackoffDelay(c, attempt, random) as real else seconds.value * 1000.0
  }

  /** How attempt number `attempt` ends the delivery; None when the loop goes on to the next one. */
  function Verdict(c: Config, a: Attempt, attempt: nat): Option<Outcome>
    requires 0 < attempt <= c.maxAttempts
  {
    if a.abortedBefore then Some(NotDelivered(attempt - 1, WorkerShutdown, None))
    else match a.reply
      case Unanswered(timedOut) => AfterFailure(c, a, attempt, timedOut)
      case Response(status, body, _) =>
        if !WithinLimit(body, c.maxResponseBytes) then Some(NotDelivered(attempt, ResponseTooLarge, Some(status)))
        else match Classify(status)
          case Accepted => Some(Delivered(attempt, status))
          case DoNotRetry => Some(NotDelivered(attempt, NonRetryableStatus, Some(status)))
          case Retry =>
            if attempt == c.maxAttempts then Some(NotDelivered(attempt, RetryableStatus, Some(status)))
            else if a.slept then None
            else AfterFailure(c, a, attempt, a.timedOutAsleep)
  }

  function AfterFailure(c: Config, a: Attempt, attempt: nat, timedOut: bool): Option<Outcome>
    requires 0 < attempt <= c.maxAttempts
  {
    if a.abortedInCatch then Some(NotDelivered(attempt, WorkerShutdown, None))
    else if attempt == c.maxAttempts
    then Some(NotDelivered(attempt, if timedOut then RequestTimeout else NetworkError, None))
    else if a.retrySlept then None
    else Some(NotDelivered(attempt, if a.abortedAtEnd then WorkerShutdown else BackoffFailed, None))
  }

  /** The sleeps requested during one attempt. */
  function Waits(c: Config, a: Attempt, attempt: nat): seq<real>
    requires 0 < attempt <= c.maxAttempts
  {
    if a.abortedBefore then []
    else match a.reply
      case Unanswered(_) => FailureWaits(c, a, attempt)
      case Response(status, body, retryAfter) =>
        if !WithinLimit(body, c.maxResponseBytes) || Classify(status) != Retry || attempt == c.maxAttempts then []
        else
          var first := [RetryDelay(c, attempt, retryAfter, a.random)];
          if a.slept then first else first + FailureWaits(c, a, attempt)
  }

  function FailureWaits(c: Config, a: Attempt, attempt: nat): seq<real>
    requires 0 < attempt <= c.maxAttempts
  {
    if a.abortedInCatch || attempt == c.maxAttempts then []
    else [BackoffDelay(c, attempt, a.retryRandom) as real]
  }

  function AllWaits(c: Config, script: seq<Attempt>, n: nat): seq<real>
    requires n <= c.maxAttempts && n <= |script|
  {
    if n == 0 then [] else AllWaits(c, script, n - 1) + Waits(c, script[n - 1], n)
  }

  /** The first attempt, from `attempt` on, whose verdict ends the delivery. */
  function LastFrom(c: Config, script: seq<Attempt>, attempt: nat): (last: nat)
    requires 0 < attempt <= c.maxAttempts <= |script|
    ensures attempt <= last <= c.maxAttempts
    ensures Verdict(c, script[last - 1], last).Some?
    ensures forall j :: attempt - 1 <= j < last - 1 ==> Verdict(c, script[j], j + 1).None?
    decreases c.maxAttempts - attempt
  {
    if Verdict(c, script[attempt - 1], attempt).Some? then attempt else LastFrom(c, script, attempt + 1)
  }

  /** Attempt `last` is the first whose verdict ends the delivery. */
  ghost predicate FirstDecisive(c: Config, script: seq<Attempt>, last: nat) {
    && 0 < last <= c.maxAttempts <= |script|
    && Verdict(c, script[last - 1], last).Some?
    && forall j :: 0 <= j < last - 1 ==> Verdict(c, script[j], j + 1).None?
  }

  /** The `catch` block: give up, or sleep before the next attempt. */
  method RecoverFromFailure(c: Config, a: Attempt, attempt: nat, timedOut: bool)
    returns (verdict: Option<Outcome>, waits: seq<real>)
    requires 0 < attempt <= c.maxAttempts
    ensures verdict == AfterFailure(c, a, attempt, timedOut)
    ensures waits == FailureWaits(c, a, attempt)
  {
    waits := [];
    if a.abortedInCatch { return Some(NotDelivered(attempt, WorkerShutdown, None)), waits; }
    var lastReason := if timedOut then RequestTimeout else NetworkError;
    if attempt == c.maxAttempts { return Some(NotDelivered(attempt, lastReason, None)), waits; }
    waits := [BackoffDelay(c, attempt, a.retryRandom) as real];
    if !a.retrySlept {
      return Some(NotDelivered(attempt, if a.abortedAtEnd then WorkerShutdown else BackoffFailed, None)), waits;
    }
    verdict := None;
  }

  /** The body of the loop: one request and what follows it. */
  method TryOnce(c: Config, a: Attempt, attempt: nat)
    returns (verdict: Option<Outcome>, sent: bool, waits: seq<real>)
    requires 0 < attempt <= c.maxAttempts
    ensures verdict == Verdict(c, a, attempt)
    ensures sent == !a.abortedBefore
    ensures waits == Waits(c, a, attempt)
  {
    waits := [];
    if a.abortedBefore { return Some(NotDelivered(attempt - 1, WorkerShutdown, None)), false, waits; }
    sent := true;
    var timedOut: bool;
    match a.reply {
      case Unanswered(t) =>
        timedOut := t;
      case Response(status, body, retryAfter) =>
        var read := ReadLimitedResponse(body, c.maxResponseBytes);
        if !read { return Some(NotDelivered(attempt, ResponseTooLarge, Some(status))), sent, waits; }
        var classification := Classify(status);
        if classification == Accepted { return Some(Delivered(attempt, status)), sent, waits; }
        var lastReason := if classification == Retry then RetryableStatus else NonRetryableStatus;
        if classification == DoNotRetry || attempt == c.maxAttempts {
          return Some(NotDelivered(attempt, lastReason, Some(status))), sent, waits;
        }
        waits := [RetryDelay(c, attempt, retryAfter, a.random)];
        if a.slept { return None, sent, waits; }
        timedOut := a.timedOutAsleep;
    }
    var more;
    verdict, more := RecoverFromFailure(c, a, attempt, timedOut);
    waits := waits + more;
  }

  /** The outcome, the number of requests sent, and every delay passed to `sleep`. */
  method DeliverSignedBody(c: Config, script: seq<Attempt>)
    returns (outcome: Outcome, requests: nat, waits: seq<real>)
    requires 0 < c.maxAttempts <= |script|
    ensures var last := LastFrom(c, script, 1);
            && outcome == Verdict(c, script[last - 1], last).value
            && requests == (if script[last - 1].abortedBefore then last - 1 else last)
            && waits == AllWaits(c, script, last)
  {
    hide Waits, BackoffDelay;
    var attempt := 1;
    requests, waits := 0, [];
    while true
      invariant 1 <= attempt <= c.maxAttempts
      invariant requests == attempt - 1
      invariant LastFrom(c, script, attempt) == LastFrom(c, script, 1)
      invariant waits == AllWaits(c, script, attempt - 1)
      decreases c.maxAttempts - attempt
    {
      var verdict, sent, more := TryOnce(c, script[attempt - 1], attempt);
      if sent { requests := requests + 1; }
      waits := waits + more;
      if verdict.Some? { return verdict.value, requests, waits; }
      attempt := attempt + 1;
    }
  }

  lemma LastIsFirstDecisive(c: Config, script: seq<Attempt>, last: nat)
    requires 0 < c.maxAttempts <= |script|
    ensures FirstDecisive(c, script, last) <==> last == LastFrom(c, script, 1)
  {
    hide Verdict;
    var first := LastFrom(c, script, 1);
    if FirstDecisive(c, script, last) {
      assert Verdict(c, script[first - 1], first).Some?;
    }
  }

  /** With at least one attempt allowed, some attempt always ends the loop: the return after it is dead. */
  lemma SomeAttemptDecides(c: Config, script: seq<Attempt>)
    requires 0 < c.maxAttempts <= |script|
    ensures Verdict(c, script[c.maxAttempts - 1], c.maxAttempts).Some?
  {}

  // ---- what the outcome tells --------------------------------------------------

  predicate Answered2xx(c: Config, a: Attempt) {
    a.reply.Response? && 200 <= a.reply.status <= 299 && WithinLimit(a.reply.body, c.maxResponseBytes)
  }

  predicate MayPass(status: int) {
    status == 408 || status == 429 || 500 <= status <= 599
  }

  /** A failure that may pass: no answer, or a complete answer with a retryable status. */
  predicate Transient(c: Config, a: Attempt) {
    a.reply.Unanswered? ||
    (WithinLimit(a.reply.body, c.maxResponseBytes) && MayPass(a.reply.status))
  }

  /** `attempts` counts the requests sent, delivery is reported exactly when the last request was
      answered by a complete 2xx, and every request but the last met a failure that may pass. */
  lemma OutcomeIsHonest(c: Config, script: seq<Attempt>, last: nat, requests: nat)
    requires FirstDecisive(c, script, last)
    requires requests == if script[last - 1].abortedBefore then last - 1 else last
    ensures var o := Verdict(c, script[last - 1], last).value;
            && o.attempts == requests <= c.maxAttempts
            && (o.Delivered? <==> requests > 0 && Answered2xx(c, script[requests - 1]))
            && (o.Delivered? ==> o.status == script[requests - 1].reply.status)
            && (o.NotDelivered? && o.httpStatus.Some? ==>
                  requests > 0 && script[requests - 1].reply.Response?
                      && o.httpStatus.value == script[requests - 1].reply.status)
            && forall j :: 0 <= j < requests - 1 ==> Transient(c, script[j]) && !script[j].abortedBefore
  {
    forall j | 0 <= j < last - 1 ensures Transient(c, script[j]) && !script[j].abortedBefore {
      assert Verdict(c, script[j], j + 1).None?;
    }
  }

  // ---- when it goes on, and how it ends ------------------------------------------

  /** The request has failed, or the sleep that was to follow its answer. */
  predicate Failed(c: Config, a: Attempt, attempt: nat) {
    a.reply.Unanswered? ||
    (WithinLimit(a.reply.body, c.maxResponseBytes) && MayPass(a.reply.status) && attempt < c.maxAttempts && !a.slept)
  }

  /** Another attempt follows this one. */
  predicate GoesOn(c: Config, a: Attempt, attempt: nat) {
    && attempt < c.maxAttempts && !a.abortedBefore
    && (a.reply.Response? ==> WithinLimit(a.reply.body, c.maxResponseBytes) && MayPass(a.reply.status))
    && ((a.reply.Response? && a.slept) || (!a.abortedInCatch && a.retrySlept))
  }

  /** The loop goes on exactly after a failure that may pass, while attempts are left and nothing was aborted. */
  lemma GoesOnExactly(c: Config, a: Attempt, attempt: nat)
    requires 0 < attempt <= c.maxAttempts
    ensures Verdict(c, a, attempt).None? <==> GoesOn(c, a, attempt)
  {}

  /** How an attempt that ends the delivery ends it, each way told from the attempt alone. */
  lemma EndsExactly(c: Config, a: Attempt, attempt: nat)
    requires 0 < attempt <= c.maxAttempts && !GoesOn(c, a, attempt)
    ensures Verdict(c, a, attempt) == Some(
              if a.abortedBefore then NotDelivered(attempt - 1, WorkerShutdown, None)
              else if a.reply.Response? && !WithinLimit(a.reply.body, c.maxResponseBytes) then
                NotDelivered(attempt, ResponseTooLarge, Some(a.reply.status))
              else if a.reply.Response? && 200 <= a.reply.status <= 299 then Delivered(attempt, a.reply.status)
              else if a.reply.Response? && !MayPass(a.reply.status) then
                NotDelivered(attempt, NonRetryableStatus, Some(a.reply.status))
              else if a.reply.Response? && attempt == c.maxAttempts then
                NotDelivered(attempt, RetryableStatus, Some(a.reply.status))
              else if a.abortedInCatch then NotDelivered(attempt, WorkerShutdown, None)
              else if attempt == c.maxAttempts then
                NotDelivered(attempt, if a.reply.timedOut then RequestTimeout else NetworkError, None)
              else NotDelivered(attempt, if a.abortedAtEnd then WorkerShutdown else BackoffFailed, None))
  {}

  /** A delivery makes one attempt after another for exactly as long as each calls for the next. */
  lemma StopsWhenNothingCallsForMore(c: Config, script: seq<Attempt>, last: nat)
    requires 0 < c.maxAttempts <= |script|
    ensures last == LastFrom(c, script, 1) <==>
              && 0 < last <= c.maxAttempts && !GoesOn(c, script[last - 1], last)
              && forall j :: 0 <= j < last - 1 ==> GoesOn(c, script[j], j + 1)
  {
    hide Verdict, GoesOn;
    forall j | 0 <= j < c.maxAttempts ensures Verdict(c, script[j], j + 1).None? <==> GoesOn(c, script[j], j + 1) {
      GoesOnExactly(c, script[j], j + 1);
    }
    LastIsFirstDecisive(c, script, last);
  }

  // ---- which delays it sleeps ------------------------------------------------------

  /** The base delay doubles from one attempt to the next, and stays at the maximum. */
  lemma BaseDoubles(c: Config, attempt: nat)
    requires attempt > 0
    ensures Base(c, 1) == if c.initialDelayMs <= c.maxDelayMs then c.initialDelayMs else c.maxDelayMs
    ensures Base(c, attempt + 1) == if 2 * Base(c, attempt) <= c.maxDelayMs then 2 * Base(c, attempt) else c.maxDelayMs
  {
    assert Pow2(0) == 1;
    var x, p := c.initialDelayMs, Pow2(attempt - 1);
    assert x * (2 * p) == 2 * (x * p);
    assert x * p >= 0;
  }

  /** The factor runs evenly from 1 - ratio, for the least random number, to 1 + ratio for the greatest. */
  lemma JitterSpreads(random: real, ratio: real)
    ensures JitterFactor(0.0, ratio) == 1.0 - ratio && JitterFactor(1.0, ratio) == 1.0 + ratio
    ensures JitterFactor(random, ratio) == (1.0 - random) * JitterFactor(0.0, ratio) + random * JitterFactor(1.0, ratio)
  {
    var x := random * ratio;
    assert (random * 2.0 - 1.0) * ratio == 2.0 * x - ratio;
    assert (1.0 - random) * (1.0 - ratio) == 1.0 - ratio - random + x;
    assert random * (1.0 + ratio) == random + x;
  }

  /** Rounded to the nearest, and kept within 0 and `most`. */
  lemma NearestWithin(exact: real, most: nat, d: int)
    requires d == Clamped(Round(exact), most)
    ensures 0.0 <= exact <= most as real ==> exact - 0.5 < d as real <= exact + 0.5
    ensures exact < 0.0 ==> d == 0
    ensures exact > most as real ==> d == most
  {}

  /** The backoff is the jittered base, to the nearest millisecond and never outside 0 and the maximum. */
  lemma BackoffIsJitteredBase(c: Config, attempt: nat, random: real, exact: real)
    requires attempt > 0 && exact == Base(c, attempt) as real * JitterFactor(random, c.jitterRatio)
    ensures var d := BackoffDelay(c, attempt, random);
            && (0.0 <= exact <= c.maxDelayMs as real ==> exact - 0.5 < d as real <= exact + 0.5)
            && (exact < 0.0 ==> d == 0)
            && (exact > c.maxDelayMs as real ==> d == c.maxDelayMs)
  {
    hide JitterFactor, Base;
    NearestWithin(exact, c.maxDelayMs, BackoffDelay(c, attempt, random));
  }

  /** A header of n seconds asks for n seconds, the maximum at most; any other leaves the backoff. */
  lemma RetryAfterTakesItsPlace(c: Config, attempt: nat, retryAfter: Option<Text>, random: real)
    requires attempt > 0
    ensures var d := RetryDelay(c, attempt, retryAfter, random);
            if retryAfter.Some? && retryAfter.value != [] && AllDigits(retryAfter.value) then
              var n := Value(retryAfter.value);
              d == if n * 1000 <= c.maxDelayMs && n <= 9007199254740991 then (n * 1000) as real
                   else c.maxDelayMs as real
            else d == BackoffDelay(c, attempt, random) as real
  {
    hide ParseRetryAfter, BackoffDelay, AllDigits, Value;
    var most := c.maxDelayMs as real / 1000.0;
    RetryAfterRecognizesDigits(retryAfter, most);
    if retryAfter.Some? && retryAfter.value != [] && AllDigits(retryAfter.value) {
      RetryAfterIsBoundedValue(retryAfter.value, most);
      WholeSeconds(Value(retryAfter.value), c.maxDelayMs);
    }
  }

  lemma WholeSeconds(n: nat, ms: nat)
    ensures n <= (ms as real / 1000.0).Floor <==> n * 1000 <= ms
  {
    var most := ms as real / 1000.0;
    assert most * 1000.0 == ms as real;
    if n as real <= most {
      assert (n * 1000) as real == n as real * 1000.0 <= ms as real;
    } else {
      assert (n * 1000) as real == n as real * 1000.0 > ms as real;
    }
  }

  /** One attempt sleeps after an answer that asks for another, and after a failure, and at no other time. */
  lemma WaitsExactly(c: Config, a: Attempt, attempt: nat)
    requires 0 < attempt <= c.maxAttempts
    ensures var answered := !a.abortedBefore && attempt < c.maxAttempts && a.reply.Response?
                            && WithinLimit(a.reply.body, c.maxResponseBytes) && MayPass(a.reply.status);
            var failed := !a.abortedBefore && attempt < c.maxAttempts && Failed(c, a, attempt) && !a.abortedInCatch;
            Waits(c, a, attempt) ==
            (if answered then [RetryDelay(c, attempt, a.reply.retryAfter, a.random)] else [])
            + (if failed then [BackoffDelay(c, attempt, a.retryRandom) as real] else [])
  {
    hide RetryDelay, BackoffDelay;
  }

  // ---- how long it may wait ------------------------------------------------------

  lemma BackoffWithinBounds(c: Config, attempt: nat, random: real)
    requires attempt > 0
    ensures 0 <= BackoffDelay(c, attempt, random) <= c.maxDelayMs
  {}

  lemma RetryDelayWithinBounds(c: Config, attempt: nat, retryAfter: Option<Text>, random: real)
    requires attempt > 0
    ensures 0.0 <= RetryDelay(c, attempt, retryAfter, random) <= c.maxDelayMs as real
  {
    hide ParseRetryAfter, BackoffDelay;
    BackoffWithinBounds(c, attempt, random);
    var seconds := ParseRetryAfter(retryAfter, c.maxDelayMs as real / 1000.0);
    if seconds.Some? {
      RetryAfterRecognizesDigits(retryAfter, c.maxDelayMs as real / 1000.0);
      RetryAfterIsBoundedValue(retryAfter.value, c.maxDelayMs as real / 1000.0);
    }
  }

  function Sum(xs: seq<real>): real {
    if xs == [] then 0.0 else Sum(xs[..|xs| - 1]) + xs[|xs| - 1]
  }

  lemma {:induction false} SumConcat(xs: seq<real>, ys: seq<real>)
    ensures Sum(xs + ys) == Sum(xs) + Sum(ys)
  {
    if ys == [] {
      assert xs + ys == xs;
    } else {
      var n := |ys|;
      assert (xs + ys)[..|xs| + n - 1] == xs + ys[..n - 1];
      SumConcat(xs, ys[..n - 1]);
    }
  }

  /** The injected `sleep` rejects only because the delivery is aborted, as `defaultSleep` does. */
  predicate SleepRejectsOnlyOnAbort(script: seq<Attempt>) {
    forall i :: 0 <= i < |script| && !script[i].slept ==> script[i].abortedInCatch
  }

  lemma FailureWaitsBounded(c: Config, a: Attempt, attempt: nat)
    requires 0 < attempt <= c.maxAttempts
    ensures Sum(FailureWaits(c, a, attempt)) <= c.maxDelayMs as real
    ensures a.abortedInCatch || attempt == c.maxAttempts ==> Sum(FailureWaits(c, a, attempt)) == 0.0
  {
    BackoffWithinBounds(c, attempt, a.retryRandom);
    SumOfOne(BackoffDelay(c, attempt, a.retryRandom) as real);
  }

  lemma SumOfOne(x: real)
    ensures Sum([x]) == x
  {
    assert [x][..0] == [];
  }

  lemma OneAttemptWaits(c: Config, a: Attempt, attempt: nat)
    requires 0 < attempt <= c.maxAttempts
    ensures Sum(Waits(c, a, attempt)) <= c.maxDelayMs as real + c.maxDelayMs as real
    ensures a.slept || a.abortedInCatch ==> Sum(Waits(c, a, attempt)) <= c.maxDelayMs as real
    ensures attempt == c.maxAttempts ==> Sum(Waits(c, a, attempt)) == 0.0
  {
    FailureWaitsBounded(c, a, attempt);
    if a.reply.Response? {
      var first := RetryDelay(c, attempt, a.reply.retryAfter, a.random);
      RetryDelayWithinBounds(c, attempt, a.reply.retryAfter, a.random);
      SumOfOne(first);
      SumConcat([first], FailureWaits(c, a, attempt));
    }
  }

  lemma NoWaits()
    ensures Sum([]) == 0.0
  {}

  /** The whole delivery sleeps at most (maxAttempts - 1) * maxDelayMs, if `sleep` rejects only on abort;
      an injected `sleep` that rejects for another reason can at most double that. */
  lemma {:induction false} TotalWaitBounded(c: Config, script: seq<Attempt>, n: nat)
    requires n <= c.maxAttempts <= |script|
    ensures SleepRejectsOnlyOnAbort(script) ==>
              Sum(AllWaits(c, script, n)) <=
              Times(if n == c.maxAttempts && n > 0 then n - 1 else n, c.maxDelayMs as real)
    ensures Sum(AllWaits(c, script, n)) <=
            Times(if n == c.maxAttempts && n > 0 then n - 1 else n, c.maxDelayMs as real + c.maxDelayMs as real)
  {
    hide Waits, Sum;
    if n == 0 {
      NoWaits();
    } else {
      TotalWaitBounded(c, script, n - 1);
      OneAttemptWaits(c, script[n - 1], n);
      SumConcat(AllWaits(c, script, n - 1), Waits(c, script[n - 1], n));
    }
  }

  /** n * x, by repeated addition. */
  function Times(n: nat, x: real): real {
    if n == 0 then 0.0 else Times(n - 1, x) + x
  }

  lemma {:induction false} TimesIsProduct(n: nat, x: real)
    ensures Times(n, x) == n as real * x
  {
    if n > 0 { TimesIsProduct(n - 1, x); }
  }

  lemma {:induction false} TimesGrows(m: nat, n: nat, x: real)
    requires m <= n && 0.0 <= x
    ensures Times(m, x) <= Times(n, x)
  {
    if m < n { TimesGrows(m, n - 1, x); }
  }

  /** A whole delivery sleeps at most (maxAttempts - 1) * maxDelayMs. */
  lemma DeliveryWaitsAtMost(c: Config, script: seq<Attempt>, last: nat)
    requires FirstDecisive(c, script, last) && SleepRejectsOnlyOnAbort(script)
    ensures Sum(AllWaits(c, script, last)) <= (c.maxAttempts - 1) as real * c.maxDelayMs as real
  {
    hide Verdict, AllWaits, Sum;
    var x := c.maxDelayMs as real;
    TotalWaitBounded(c, script, last);
    TimesGrows(if last == c.maxAttempts then last - 1 else last, c.maxAttempts - 1, x);
    TimesIsProduct(c.maxAttempts - 1, x);
  }
}
