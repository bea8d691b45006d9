// The size that `emit` measures and the size of what is sent.
module EventSizes {
  import opened Wrappers
  import opened Texts
  import opened JsonValue
  import opened Canonical
  import opened CanonicalTheorems
  import opened SentBody
  import opened EventEmitter
  import JsonGate

  lemma {:induction false} MemberHolesConcat(a: seq<Member>, b: seq<Member>)
    ensures MemberHoles(a + b) == MemberHoles(a) + MemberHoles(b)
  {
    if a == [] {
      assert a + b == b;
    } else {
      assert (a + b)[1..] == a[1..] + b;
      MemberHolesConcat(a[1..], b);
    }
  }

  lemma {:induction false} MembersBytesConcat(a: seq<Member>, b: seq<Member>, hole: nat)
    ensures MembersBytes(a + b, hole) == MembersBytes(a, hole) + MembersBytes(b, hole)
  {
    if a == [] {
      assert a + b == b;
    } else {
      assert (a + b)[1..] == a[1..] + b;
      MembersBytesConcat(a[1..], b, hole);
    }
  }

  /** Only the payload of an event can have empty slots. */
  lemma BodyHoles(run: Run, e: Emission, sequence: nat, payload: seq<Member>, stamp: Text)
    ensures Holes(Body(run, e, sequence, payload, stamp)) == MemberHoles(payload)
  {
    hide EventId, Envelope, Trailer, Dense;
    var envelope, trailer := Envelope(run, e, sequence, stamp), Trailer(run);
    var middle := [Member(Ascii("payload"), Obj(payload))];
    EnvelopeIsDense(run, e, sequence, stamp);
    MemberHolesConcat(envelope + middle, trailer);
    MemberHolesConcat(envelope, middle);
    assert middle[1..] == [];
    assert MemberHoles(middle) == Holes(Obj(payload));
  }

  lemma EnvelopeIsDense(run: Run, e: Emission, sequence: nat, stamp: Text)
    ensures MemberHoles(Envelope(run, e, sequence, stamp)) == 0 && MemberHoles(Trailer(run)) == 0
  {
    hide EventId;
    MemberHolesAndDense(Envelope(run, e, sequence, stamp));
    MemberHolesAndDense(Trailer(run));
  }

  /** What is sent of a delivered event fits the limit exactly when the canonical text leaves room for four more bytes
      for each empty slot of the payload; without empty slots it always fits. */
  lemma SentFitsExactly(run: Run, sequence: nat, e: Emission)
    requires Emitted(run, sequence, e).0.Delivered?
    ensures var event, holes := Emitted(run, sequence, e).2[0], MemberHoles(ValidPayload(e).value);
            var measured := Utf8Length(CanonicalJson(event.body).value);
            && Utf8Length(event.rawBody) == measured + 4 * holes
            && (Utf8Length(event.rawBody) <= MAX_AGENT_EVENT_CANONICAL_BYTES <==>
                  4 * holes <= MAX_AGENT_EVENT_CANONICAL_BYTES - measured)
            && (Dense(Obj(ValidPayload(e).value)) ==>
                Utf8Length(event.rawBody) == measured <= MAX_AGENT_EVENT_CANONICAL_BYTES)
  {
    hide Utf8Length, Body, CanonicalJson, Stringify, EventId;
    var payload := ValidPayload(e).value;
    SentExceedsMeasured(Body(run, e, sequence, payload, e.stamp.value));
    BodyHoles(run, e, sequence, payload, e.stamp.value);
    HolesAndDense(Obj(payload));
  }

  // ---- an array of empty slots --------------------------------------------------------------------

  lemma {:induction false} EscapeBytes(s: Text)
    ensures Utf8Length(Escape(s)) <= 6 * |s|
    ensures Escape(s) == [] || !IsLow(Escape(s)[0])
  {
    if s == [] {
    } else if IsHigh(s[0]) && |s| > 1 && IsLow(s[1]) {
      EscapeBytes(s[2..]);
      assert (s[..2] + Escape(s[2..]))[2..] == Escape(s[2..]);
    } else {
      EscapeBytes(s[1..]);
      UnitBytes(s[0]);
      Utf8Concat(EscapeUnit(s[0]), Escape(s[1..]));
    }
  }

  lemma UnitBytes(c: CodeUnit)
    ensures Utf8Length(EscapeUnit(c)) <= 6 && !IsLow(EscapeUnit(c)[0])
  {
    var t := EscapeUnit(c);
    if t == [c] {
      assert t[1..] == [];
    } else {
      PlainBytes(t);
    }
  }

  lemma QuoteBytes(s: Text)
    ensures Utf8Length(QuoteText(s)) <= 6 * |s| + 2
  {
    EscapeBytes(s);
    BracketBytes(QUOTE, Escape(s), QUOTE);
  }

  lemma OneMember(key: Text, value: Json)
    ensures MembersBytes([Member(key, value)], 0) <= 6 * |key| + 3 + Bytes(value, 0)
  {
    QuoteBytes(key);
    assert [Member(key, value)][1..] == [];
  }

  lemma StringMember(key: Text, s: Text)
    ensures MembersBytes([Member(key, Str(s))], 0) <= 6 * |key| + 6 * |s| + 5
  {
    OneMember(key, Str(s));
    QuoteBytes(s);
  }

  /** Identifiers of at most 64 code units. */
  predicate Ordinary(run: Run) {
    && |run.invocationId| <= 64 && |run.executionId| <= 64 && |run.stepExecutionId| <= 64
    && |run.traceId| <= 64 && |run.correlationId| <= 64 && |run.runId| <= 64
  }

  lemma FourMembers(a: Member, b: Member, c: Member, d: Member)
    ensures MembersBytes([a, b, c, d], 0) ==
            MembersBytes([a], 0) + MembersBytes([b], 0) + MembersBytes([c], 0) + MembersBytes([d], 0)
    ensures MembersBytes([a, b], 0) == MembersBytes([a], 0) + MembersBytes([b], 0)
  {
    hide MembersBytes;
    MembersBytesConcat([a], [b], 0);
    MembersBytesConcat([c], [d], 0);
    MembersBytesConcat([a] + [b], [c] + [d], 0);
    assert ([a] + [b]) + ([c] + [d]) == [a, b, c, d] && [a] + [b] == [a, b];
  }

  lemma EnvelopeBytes(run: Run, e: Emission, stamp: Text)
    requires Ordinary(run) && |e.kind| <= 32 && |stamp| <= 32
    ensures MembersBytes(Envelope(run, e, 0, stamp), 0) <= 2600 && |Envelope(run, e, 0, stamp)| == 8
  {
    hide MembersBytes, Bytes;
    var m := Envelope(run, e, 0, stamp);
    FourMembers(m[0], m[1], m[2], m[3]);
    FourMembers(m[4], m[5], m[6], m[7]);
    assert m == [m[0], m[1], m[2], m[3]] + [m[4], m[5], m[6], m[7]];
    MembersBytesConcat([m[0], m[1], m[2], m[3]], [m[4], m[5], m[6], m[7]], 0);
    assert Decimal(0) == [48];
    StringMember(m[0].key, Ascii("1"));
    StringMember(m[1].key, EventId(run.invocationId, 0));
    StringMember(m[2].key, run.invocationId);
    StringMember(m[3].key, run.executionId);
    StringMember(m[4].key, run.stepExecutionId);
    OneMember(m[5].key, Num(Int(0)));
    ZeroBytes();
    StringMember(m[6].key, e.kind);
    StringMember(m[7].key, stamp);
  }

  lemma ZeroBytes()
    ensures Bytes(Num(Int(0)), 0) == 1
  {
    assert CanonicalNumber(Int(0)) == Some([48]);
    PlainBytes([48]);
  }

  lemma TrailerBytes(run: Run)
    requires Ordinary(run)
    ensures MembersBytes(Trailer(run), 0) <= 1500 && |Trailer(run)| == 2
  {
    hide MembersBytes;
    var m := Trailer(run);
    var a, b := Member(Ascii("traceId"), Str(run.traceId)), Member(Ascii("correlationId"), Str(run.correlationId));
    var c := Member(Ascii("runId"), Str(run.runId));
    FourMembers(m[0], m[1], m[0], m[1]);
    FourMembers(a, b, a, b);
    assert m == [m[0], m[1]];
    StringMember(a.key, run.traceId);
    StringMember(b.key, run.correlationId);
    StringMember(c.key, run.runId);
    OneMember(m[0].key, Obj([a, b]));
    OneMember(m[1].key, Obj([c]));
  }

  lemma {:induction false} AllHoles(n: nat)
    ensures ItemBytes(seq(n, _ => Hole), 0) == 0 && ItemHoles(seq(n, _ => Hole)) == n
  {
    if n > 0 {
      assert seq(n, _ => Hole)[1..] == seq(n - 1, _ => Hole);
      AllHoles(n - 1);
    }
  }

  lemma {:induction false} GatePassesHoles(h: JsonGate.Heap, n: nat, seen: set<JsonGate.Ref>)
    ensures JsonGate.GateItems(h, seq(n, _ => JsonGate.Empty), seen) == Some(seq(n, _ => Hole))
  {
    if n > 0 {
      assert seq(n, _ => JsonGate.Empty)[1..] == seq(n - 1, _ => JsonGate.Empty);
      GatePassesHoles(h, n - 1, seen);
      assert [Hole] + seq(n - 1, _ => Hole) == seq(n, _ => Hole);
    } else {
      assert seq(n, _ => JsonGate.Empty) == [] && seq(n, _ => Hole) == [];
    }
  }

  /** `context.progress({ list: new Array(n) })`. */
  function SparseEmission(n: nat, kind: Text, stamp: Text): Emission {
    var h: JsonGate.Heap := map[
      0 := JsonGate.Plain([JsonGate.Entry(Ascii("list"), JsonGate.Reference(1))]),
      1 := JsonGate.List(seq(n, _ => JsonGate.Empty))];
    Emission(h, kind, JsonGate.Reference(0), Some(stamp))
  }

  lemma SparsePayload(n: nat, kind: Text, stamp: Text)
    ensures ValidPayload(SparseEmission(n, kind, stamp)) == Some([Member(Ascii("list"), Arr(seq(n, _ => Hole)))])
    ensures JsonGate.OneEntryPerKey(SparseEmission(n, kind, stamp).heap)
  {
    var h := SparseEmission(n, kind, stamp).heap;
    GatePassesHoles(h, n, {0, 1});
    assert {} + {0} + {1} == {0, 1};
    assert JsonGate.Gate(h, JsonGate.Reference(1), {} + {0}) == Some(Arr(seq(n, _ => Hole)));
    var es := h[0].entries;
    assert es[1..] == [];
    assert JsonGate.GateEntries(h, [], {} + {0}) == Some([]);
    assert es[0] == JsonGate.Entry(Ascii("list"), JsonGate.Reference(1));
    var list := Member(Ascii("list"), Arr(seq(n, _ => Hole)));
    assert [list] + [] == [list];
    assert JsonGate.GateEntries(h, es, {} + {0}) == Some([list]);
  }

  /** For every ordinary run, an array of 60000 empty slots is measured below the limit, delivered, and sent at more
      than 240000 bytes. */
  lemma SparsePayloadOverruns(run: Run, kind: Text, stamp: Text)
    requires Ordinary(run) && |kind| <= 32 && |stamp| <= 32
    ensures var r := Emitted(run, 0, SparseEmission(60000, kind, stamp));
            r.0.Delivered? && |r.2| == 1 && Utf8Length(r.2[0].rawBody) >= 240000 > MAX_AGENT_EVENT_CANONICAL_BYTES
  {
    hide Utf8Length, CanonicalJson, Stringify, Envelope, Trailer, SparseEmission, JsonGate.Gate, MembersBytes;
    var e := SparseEmission(60000, kind, stamp);
    SparsePayload(60000, kind, stamp);
    SparseShape(60000, kind, stamp);
    var list := Member(Ascii("list"), Arr(seq(60000, _ => Hole)));
    var body := Body(run, e, 0, [list], stamp);
    assert EventId(run.invocationId, 0) == run.invocationId + [COLON] + [48];
    DeliveredExactlyWhenSmall(run, 0, e);
    EnvelopeBytes(run, e, stamp);
    TrailerBytes(run);
    AllHoles(60000);
    OneMember(list.key, list.value);
    OneMember(Ascii("payload"), Obj([list]));
    MembersBytesConcat(Envelope(run, e, 0, stamp) + [Member(Ascii("payload"), Obj([list]))], Trailer(run), 0);
    MembersBytesConcat(Envelope(run, e, 0, stamp), [Member(Ascii("payload"), Obj([list]))], 0);
    assert Bytes(body, 0) <= 65000;
    BodyEncodable(run, e, 0, [list], stamp);
    CanonicalExactlyWhenEncodable(body);
    CanonicalBytes(body);
    SentFitsExactly(run, 0, e);
    assert [list][1..] == [];
    assert MemberHoles([list]) == 60000;
  }

  lemma SparseShape(n: nat, kind: Text, stamp: Text)
    ensures SparseEmission(n, kind, stamp).kind == kind && SparseEmission(n, kind, stamp).stamp == Some(stamp)
  {}
}
