// The events of one run: their sequence, their identity and their size.
module EventEmitter {
  import opened Wrappers
  import opened Texts
  import opened JsonValue
  import opened Canonical
  import opened CanonicalTheorems
  import opened SentBody
  import JsonGate

  const MAX_AGENT_EVENT_CANONICAL_BYTES := 64 * 1024
  const MAX_AGENT_EVENT_ID_LENGTH := 255
  const MAX_AGENT_EVENT_SEQUENCE := 2147483647

  /** The parts of the invocation that go into its events, and the run's own id. */
  datatype Run = Run(invocationId: Text, executionId: Text, stepExecutionId: Text, traceId: Text, correlationId: Text,
                     runId: Text)

  /** One call of `emit`: the objects it can reach, the event type, the payload, and the time stamp (None
      when the clock's value has no ISO form). */
  datatype Emission = Emission(heap: JsonGate.Heap, kind: Text, payload: JsonGate.Value, stamp: Option<Text>)

  /** What `deliver` is handed: the event and the body that is signed and sent. */
  datatype Event = Event(sequence: nat, eventId: Text, body: Json, rawBody: Text)

  datatype Answer = Ignored | Delivered | BadPayload | BadIdentity | BadTime | NotCanonical | TooLarge

  function EventId(invocationId: Text, sequence: nat): Text {
    invocationId + [COLON] + Decimal(sequence)
  }

  /** `validateEventPayload`: only a JSON object passes. */
  function ValidPayload(e: Emission): Option<seq<Member>> {
    match JsonGate.Gate(e.heap, e.payload, {})
    case None => None
    case Some(json) => if json.Obj? then Some(json.members) else None
  }

  function Body(run: Run, e: Emission, sequence: nat, payload: seq<Member>, stamp: Text): Json {
    Obj(Envelope(run, e, sequence, stamp) + [Member(Ascii("payload"), Obj(payload))] + Trailer(run))
  }

  /** The members before the payload. */
  function Envelope(run: Run, e: Emission, sequence: nat, stamp: Text): seq<Member> {
    [
      Member(Ascii("schemaVersion"), Str(Ascii("1"))),
      Member(Ascii("eventId"), Str(EventId(run.invocationId, sequence))),
      Member(Ascii("invocationId"), Str(run.invocationId)),
      Member(Ascii("executionId"), Str(run.executionId)),
      Member(Ascii("stepExecutionId"), Str(run.stepExecutionId)),
      Member(Ascii("sequence"), Num(Int(sequence))),
      Member(Ascii("type"), Str(e.kind)),
      Member(Ascii("occurredAt"), Str(stamp))
    ]
  }

  /** The members after it. */
  function Trailer(run: Run): seq<Member> {
    [
      Member(Ascii("trace"),
             Obj([Member(Ascii("traceId"), Str(run.traceId)), Member(Ascii("correlationId"), Str(run.correlationId))])),
      Member(Ascii("metadata"), Obj([Member(Ascii("runId"), Str(run.runId))]))
    ]
  }

  predicate IdentityOk(run: Run, sequence: nat) {
    sequence <= MAX_AGENT_EVENT_SEQUENCE && |EventId(run.invocationId, sequence)| <= MAX_AGENT_EVENT_ID_LENGTH
  }

  /** What one enabled emission does to the next sequence number and what it delivers. */
  function Emitted(run: Run, sequence: nat, e: Emission): (r: (Answer, nat, seq<Event>))
  {
    var payload := ValidPayload(e);
    if payload.None? then (BadPayload, sequence, [])
    else if !IdentityOk(run, sequence) then (BadIdentity, sequence + 1, [])
    else if e.stamp.None? then (BadTime, sequence + 1, [])
    else
      var body := Body(run, e, sequence, payload.value, e.stamp.value);
      var text := CanonicalJson(body);
      if text.None? then (NotCanonical, sequence + 1, [])
      else if Utf8Length(text.value) > MAX_AGENT_EVENT_CANONICAL_BYTES then (TooLarge, sequence + 1, [])
      else (Delivered, sequence + 1, [Event(sequence, EventId(run.invocationId, sequence), body, Stringify(body))])
  }

  class RunEventEmitter {
    const enabled: bool
    const run: Run
    var sequence: nat
    var debugNoted: bool
    /** Calls of `deliver`, and of the debug log. */
    var delivered: seq<Event>
    var debugLines: nat

    ghost predicate Valid() reads this {
      debugLines == if debugNoted then 1 else 0
    }

    constructor (run: Run, enabled: bool)
      ensures Valid() && this.run == run && this.enabled == enabled
      ensures sequence == 0 && delivered == [] && !debugNoted
    {
      this.run, this.enabled := run, enabled;
      sequence, debugNoted, delivered, debugLines := 0, false, [], 0;
    }

    /** `emit`; every answer but `Ignored` and `Delivered` is an exception. */
    method Emit(e: Emission) returns (answer: Answer)
      requires Valid()
      modifies this
      ensures Valid()
      ensures !enabled ==> answer == Ignored && debugNoted && sequence == old(sequence) && delivered == old(delivered)
      ensures enabled ==>
                var r := Emitted(run, old(sequence), e);
                answer == r.0 && sequence == r.1 && delivered == old(delivered) + r.2 && debugNoted == old(debugNoted)
    {
      if !enabled {
        if !debugNoted {
          debugNoted := true;
          debugLines := debugLines + 1;
        }
        return Ignored;
      }
      var payload := ValidPayload(e);
      if payload.None? { return BadPayload; }
      var number := sequence;
      sequence := sequence + 1;
      var eventId := EventId(run.invocationId, number);
      if number > MAX_AGENT_EVENT_SEQUENCE { return BadIdentity; }
      if |eventId| > MAX_AGENT_EVENT_ID_LENGTH { return BadIdentity; }
      if e.stamp.None? { return BadTime; }
      var body := Body(run, e, number, payload.value, e.stamp.value);
      var text := CanonicalJson(body);
      if text.None? { return NotCanonical; }
      if Utf8Length(text.value) > MAX_AGENT_EVENT_CANONICAL_BYTES { return TooLarge; }
      var rawBody := Stringify(body);
      delivered := delivered + [Event(number, eventId, body, rawBody)];
      return Delivered;
    }
  }

  // ---- over a whole run -------------------------------------------------------------------------

  datatype Log = Log(sequence: nat, delivered: seq<Event>)

  function After(run: Run, emissions: seq<Emission>): Log {
    if emissions == [] then Log(0, [])
    else
      var n := |emissions| - 1;
      var was := After(run, emissions[..n]);
      var r := Emitted(run, was.sequence, emissions[n]);
      Log(r.1, was.delivered + r.2)
  }

  /** How many emissions had a payload that is a JSON object. */
  function Numbered(emissions: seq<Emission>): nat {
    if emissions == [] then 0
    else Numbered(emissions[..|emissions| - 1]) + if ValidPayload(emissions[|emissions| - 1]).Some? then 1 else 0
  }

  predicate WithinBounds(run: Run, event: Event) {
    && event.sequence <= MAX_AGENT_EVENT_SEQUENCE
    && event.eventId == EventId(run.invocationId, event.sequence)
    && |event.eventId| <= MAX_AGENT_EVENT_ID_LENGTH
    && CanonicalJson(event.body).Some?
    && Utf8Length(CanonicalJson(event.body).value) <= MAX_AGENT_EVENT_CANONICAL_BYTES
    && event.rawBody == Stringify(event.body)
  }

  /** Delivered sequence numbers strictly increase, whatever was rejected in between: the n-th emission with a
      JSON object for a payload takes number n, delivered or not. Every delivered event is within bounds. */
  lemma {:induction false} EventsOfARun(run: Run, emissions: seq<Emission>)
    ensures var log := After(run, emissions);
            && log.sequence == Numbered(emissions)
            && (forall i, j :: 0 <= i < j < |log.delivered| ==> log.delivered[i].sequence < log.delivered[j].sequence)
            && (forall i :: 0 <= i < |log.delivered| ==>
                  log.delivered[i].sequence < log.sequence && WithinBounds(run, log.delivered[i]))
  {
    hide ValidPayload, Body, CanonicalJson, Utf8Length, EventId, Stringify;
    if emissions != [] { EventsOfARun(run, emissions[..|emissions| - 1]); }
  }

  lemma LastColon(a: Text, m: nat)
    ensures EventId(a, m)[|a|] == COLON && forall i :: |a| < i < |EventId(a, m)| ==> EventId(a, m)[i] != COLON
  {}

  /** The last colon of an event id splits it: ids are equal only for the same invocation and number. */
  lemma EventIdDecides(a: Text, m: nat, b: Text, n: nat)
    ensures EventId(a, m) == EventId(b, n) <==> a == b && m == n
  {
    var x, y := EventId(a, m), EventId(b, n);
    if x == y {
      LastColon(a, m);
      LastColon(b, n);
      assert |a| == |b|;
      assert a == x[..|a|] && b == y[..|b|];
      assert Decimal(m) == x[|a| + 1..] && Decimal(n) == y[|b| + 1..];
      DecimalInjective(m, n);
    }
  }

  /** No two events delivered by one run share an id. */
  lemma EventIdsUnique(run: Run, emissions: seq<Emission>, i: nat, j: nat)
    requires i < j < |After(run, emissions).delivered|
    ensures After(run, emissions).delivered[i].eventId != After(run, emissions).delivered[j].eventId
  {
    EventsOfARun(run, emissions);
    var d := After(run, emissions).delivered;
    EventIdDecides(run.invocationId, d[i].sequence, run.invocationId, d[j].sequence);
  }

  /** Behind the gate and the identity check the canonical form always exists: the size is the only thing
      that can still stop an event with a time stamp. */
  lemma DeliveredExactlyWhenSmall(run: Run, sequence: nat, e: Emission)
    requires JsonGate.OneEntryPerKey(e.heap)
    ensures Emitted(run, sequence, e).0 != NotCanonical
    ensures Emitted(run, sequence, e).0.Delivered? <==>
              && ValidPayload(e).Some? && IdentityOk(run, sequence) && e.stamp.Some?
              && var text := CanonicalJson(Body(run, e, sequence, ValidPayload(e).value, e.stamp.value));
                 text.Some? && Utf8Length(text.value) <= MAX_AGENT_EVENT_CANONICAL_BYTES
  {
    hide EventId, CanonicalJson, Utf8Length;
    if ValidPayload(e).Some? && IdentityOk(run, sequence) && e.stamp.Some? {
      JsonGate.AcceptedIsEncodable(e.heap, e.payload);
      var payload := Obj(ValidPayload(e).value);
      CanonicalExactlyWhenEncodable(payload);
      BodyEncodable(run, e, sequence, ValidPayload(e).value, e.stamp.value);
      CanonicalExactlyWhenEncodable(Body(run, e, sequence, ValidPayload(e).value, e.stamp.value));
    }
  }

  lemma BodyEncodable(run: Run, e: Emission, sequence: nat, payload: seq<Member>, stamp: Text)
    requires Encodable(Obj(payload)) && sequence <= MAX_AGENT_EVENT_SEQUENCE
    ensures Encodable(Body(run, e, sequence, payload, stamp))
  {
    hide EventId;
    assert Encodable(Num(Int(sequence)));
    assert Encodable(Obj([Member(Ascii("traceId"), Str(run.traceId)),
                          Member(Ascii("correlationId"), Str(run.correlationId))]));
    assert Encodable(Obj([Member(Ascii("runId"), Str(run.runId))]));
  }
}
