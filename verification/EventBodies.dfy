// What the body of an event says, and when one is delivered.
module EventBodies {
  import opened Wrappers
  import opened Texts
  import opened JsonValue
  import opened Canonical
  import opened CanonicalTheorems
  import opened SentBody
  import opened SentReads
  import opened EventEmitter
  import JsonGate

  /** The object has a property of this key and value. */
  predicate Has(body: Json, key: string, v: Json) {
    body.Obj? && Member(Ascii(key), v) in body.members
  }

  /** The payload is a JSON object with these members. */
  predicate IsPayload(e: Emission, members: seq<Member>) {
    JsonGate.Gate(e.heap, e.payload, {}) == Some(Obj(members))
  }

  /** A body says which event of which run it is, and nothing else. */
  ghost predicate Tells(run: Run, e: Emission, event: Event) {
    && event.eventId == run.invocationId + [58] + Decimal(event.sequence)
    && event.body.Obj? && |event.body.members| == 11 && DistinctKeys(event.body.members)
    && Has(event.body, "schemaVersion", Str(Ascii("1")))
    && Has(event.body, "eventId", Str(event.eventId))
    && Has(event.body, "invocationId", Str(run.invocationId))
    && Has(event.body, "executionId", Str(run.executionId))
    && Has(event.body, "stepExecutionId", Str(run.stepExecutionId))
    && Has(event.body, "sequence", Num(Int(event.sequence)))
    && Has(event.body, "type", Str(e.kind))
    && e.stamp.Some? && Has(event.body, "occurredAt", Str(e.stamp.value))
    && (exists members :: IsPayload(e, members) && Has(event.body, "payload", Obj(members)))
    && Has(event.body, "trace", Obj([Member(Ascii("traceId"), Str(run.traceId)),
                                     Member(Ascii("correlationId"), Str(run.correlationId))]))
    && Has(event.body, "metadata", Obj([Member(Ascii("runId"), Str(run.runId))]))
  }

  const KEYS: seq<Text> := [
    Ascii("schemaVersion"), Ascii("eventId"), Ascii("invocationId"), Ascii("executionId"), Ascii("stepExecutionId"),
    Ascii("sequence"), Ascii("type"), Ascii("occurredAt"), Ascii("payload"), Ascii("trace"), Ascii("metadata")]

  lemma KeysDiffer()
    ensures |KEYS| == 11 && forall i, j :: 0 <= i < j < |KEYS| ==> KEYS[i] != KEYS[j]
  {
    assert Ascii("eventId")[0] != Ascii("payload")[0] && Ascii("sequence")[0] != Ascii("metadata")[0];
    assert |Ascii("schemaVersion")| == 13 && |Ascii("eventId")| == 7 && |Ascii("invocationId")| == 12;
    assert |Ascii("executionId")| == 11 && |Ascii("stepExecutionId")| == 15 && |Ascii("sequence")| == 8;
    assert |Ascii("type")| == 4 && |Ascii("occurredAt")| == 10 && |Ascii("payload")| == 7;
    assert |Ascii("trace")| == 5 && |Ascii("metadata")| == 8;
  }

  function BodyMembers(run: Run, e: Emission, sequence: nat, payload: seq<Member>, stamp: Text): seq<Member> {
    Envelope(run, e, sequence, stamp) + [Member(Ascii("payload"), Obj(payload))] + Trailer(run)
  }

  lemma BodyKeys(run: Run, e: Emission, sequence: nat, payload: seq<Member>, stamp: Text)
    ensures var ms := BodyMembers(run, e, sequence, payload, stamp);
            |ms| == 11 && DistinctKeys(ms)
  {
    hide Ascii, EventId;
    KeysDiffer();
    var ms := BodyMembers(run, e, sequence, payload, stamp);
    assert |ms| == 11;
    forall i | 0 <= i < 11 ensures ms[i].key == KEYS[i] {}
    hide KEYS;
  }

  lemma EnvelopeHas(run: Run, e: Emission, sequence: nat, stamp: Text)
    ensures var ms := Envelope(run, e, sequence, stamp);
            && Member(Ascii("schemaVersion"), Str(Ascii("1"))) in ms
            && Member(Ascii("eventId"), Str(EventId(run.invocationId, sequence))) in ms
            && Member(Ascii("invocationId"), Str(run.invocationId)) in ms
            && Member(Ascii("executionId"), Str(run.executionId)) in ms
            && Member(Ascii("stepExecutionId"), Str(run.stepExecutionId)) in ms
            && Member(Ascii("sequence"), Num(Int(sequence))) in ms
            && Member(Ascii("type"), Str(e.kind)) in ms
            && Member(Ascii("occurredAt"), Str(stamp)) in ms
  {
    hide Ascii, EventId;
    var ms := Envelope(run, e, sequence, stamp);
    assert ms[0] in ms && ms[1] in ms && ms[2] in ms && ms[3] in ms;
    assert ms[4] in ms && ms[5] in ms && ms[6] in ms && ms[7] in ms;
  }

  lemma BodyTells(run: Run, e: Emission, sequence: nat, payload: seq<Member>, rawBody: Text)
    requires e.stamp.Some? && IsPayload(e, payload)
    ensures var body := Body(run, e, sequence, payload, e.stamp.value);
            Tells(run, e, Event(sequence, EventId(run.invocationId, sequence), body, rawBody))
  {
    hide Ascii, IsPayload, Envelope;
    var ms := BodyMembers(run, e, sequence, payload, e.stamp.value);
    BodyKeys(run, e, sequence, payload, e.stamp.value);
    hide DistinctKeys;
    EnvelopeHas(run, e, sequence, e.stamp.value);
    var trailer := Trailer(run);
    assert trailer[0] in trailer && trailer[1] in trailer;
    forall m ensures m in ms <==>
                     m in Envelope(run, e, sequence, e.stamp.value) || m == Member(Ascii("payload"), Obj(payload))
                     || m in trailer
    {}
  }

  predicate Identifiable(run: Run, sequence: nat) {
    sequence <= 2147483647 && |run.invocationId| + 1 + |Decimal(sequence)| <= 255
  }

  /** An event with an object for its payload, a number and an id within bounds and a time is delivered or too large,
      told by the canonical text of a body that tells what it should; what is sent of it reads back to that body. */
  lemma DeliveredTells(run: Run, sequence: nat, e: Emission, payload: seq<Member>) returns (event: Event)
    requires JsonGate.OneEntryPerKey(e.heap)
    requires IsPayload(e, payload) && Identifiable(run, sequence) && e.stamp.Some?
    ensures event.sequence == sequence && Tells(run, e, event) && CanonicalJson(event.body).Some?
    ensures ParseValue(event.rawBody) == Done(Filled(event.body), [])
    ensures Emitted(run, sequence, e) ==
            if Utf8Length(CanonicalJson(event.body).value) <= 65536 then (Delivered, sequence + 1, [event])
            else (TooLarge, sequence + 1, [])
  {
    hide Body, CanonicalJson, Utf8Length, Stringify, JsonGate.Gate, Tells;
    var body := Body(run, e, sequence, payload, e.stamp.value);
    event := Event(sequence, EventId(run.invocationId, sequence), body, Stringify(body));
    BodyTells(run, e, sequence, payload, event.rawBody);
    PayloadEncodable(e, payload);
    BodyEncodable(run, e, sequence, payload, e.stamp.value);
    CanonicalExactlyWhenEncodable(body);
    SentReadsBack(body);
  }

  lemma PayloadEncodable(e: Emission, payload: seq<Member>)
    requires JsonGate.OneEntryPerKey(e.heap) && IsPayload(e, payload)
    ensures Encodable(Obj(payload))
  {
    JsonGate.AcceptedIsEncodable(e.heap, e.payload);
  }

  /** Every other emission is refused: for its payload, without taking a number, or for its id or its time, after it
      has taken one. */
  lemma RefusedFor(run: Run, sequence: nat, e: Emission)
    ensures var r := Emitted(run, sequence, e);
            && ((forall payload :: !IsPayload(e, payload)) ==> r == (BadPayload, sequence, []))
            && forall payload :: IsPayload(e, payload) ==>
                 && (!Identifiable(run, sequence) ==> r == (BadIdentity, sequence + 1, []))
                 && (Identifiable(run, sequence) && e.stamp.None? ==> r == (BadTime, sequence + 1, []))
  {
    hide Body, CanonicalJson, Utf8Length, Stringify, JsonGate.Gate;
    if ValidPayload(e).Some? { assert IsPayload(e, ValidPayload(e).value); }
  }
}
