// The lazily expiring store against a simple map that holds live records only.
module IdempotencyHistories {
  import opened Ids
  import opened Idempotency

  datatype Op =
    | Lookup(id: InvocationId, fingerprint: Fingerprint)
    | Create(id: InvocationId, fingerprint: Fingerprint, runId: RunId, acceptedAt: int)
    | Update(id: InvocationId, runId: RunId, state: RunState)
    | Cleanup

  datatype Call = Call(op: Op, nowMs: int)

  datatype Reply = Looked(answer: Answer) | Made(creation: Creation)

  // ---- the store as it is --------------------------------------------------------

  function After(o: Options, m: Records, c: Call): Records {
    match c.op
    case Lookup(id, _) => AfterLookup(m, id, c.nowMs, o.ttlMs)
    case Create(id, f, r, at) => AfterCreate(o, m, NewRecord(id, f, r, at, c.nowMs), c.nowMs)
    case Update(id, r, state) => AfterUpdate(m, id, r, state, c.nowMs)
    case Cleanup => Swept(m, c.nowMs, o.ttlMs)
  }

  function ReplyTo(o: Options, m: Records, c: Call): seq<Reply> {
    match c.op
    case Lookup(id, f) => [Looked(LookupAnswer(m, id, f, c.nowMs, o.ttlMs))]
    case Create(id, f, r, at) => [Made(CreateResult(o, m, NewRecord(id, f, r, at, c.nowMs), c.nowMs))]
    case _ => []
  }

  function Replies(o: Options, m: Records, h: seq<Call>): seq<Reply>
    decreases |h|
  {
    if h == [] then [] else ReplyTo(o, m, h[0]) + Replies(o, After(o, m, h[0]), h[1..])
  }

  // ---- the simple map: nothing expired is ever in it, and a sweep is nothing --------

  function SimpleAfter(o: Options, m: Records, c: Call): Records {
    var live := Swept(m, c.nowMs, o.ttlMs);
    match c.op
    case Lookup(_, _) => live
    case Create(id, f, r, at) =>
      if id in live || |live| >= o.maxEntries then live else live[id := NewRecord(id, f, r, at, c.nowMs)]
    case Update(id, r, state) =>
      if id in live && live[id].runId == r then live[id := live[id].(state := state, updatedAtMs := c.nowMs)] else live
    case Cleanup => m
  }

  function SimpleReplyTo(o: Options, m: Records, c: Call): seq<Reply> {
    var live := Swept(m, c.nowMs, o.ttlMs);
    match c.op
    case Lookup(id, f) =>
      [Looked(if id !in live then Miss
              else if live[id].fingerprint == f then Duplicate(live[id])
              else Conflict(live[id]))]
    case Create(id, f, r, at) =>
      [Made(if id in live then AlreadyExists
            else if |live| >= o.maxEntries then CapacityExhausted
            else Created(NewRecord(id, f, r, at, c.nowMs)))]
    case _ => []
  }

  function SimpleReplies(o: Options, m: Records, h: seq<Call>): seq<Reply>
    decreases |h|
  {
    if h == [] then [] else SimpleReplyTo(o, m, h[0]) + SimpleReplies(o, SimpleAfter(o, m, h[0]), h[1..])
  }

  // ---- the clients of the store -------------------------------------------------------

  predicate NonDecreasing(h: seq<Call>) {
    forall i, j :: 0 <= i < j < |h| ==> h[i].nowMs <= h[j].nowMs
  }

  function Closes(c: Call): set<RunId> {
    if c.op.Update? && Terminal(c.op.state) then {c.op.runId} else {}
  }

  /** A run id is new when its record is created, and its record is never written again once it is terminal. */
  predicate Disciplined(h: seq<Call>, closed: set<RunId>) {
    h == [] ||
    (&& (h[0].op.Update? || h[0].op.Create? ==> h[0].op.runId !in closed)
     && Disciplined(h[1..], closed + Closes(h[0])))
  }

  predicate TerminalAreClosed(m: Records, closed: set<RunId>) {
    forall k :: k in m && Terminal(m[k].state) ==> m[k].runId in closed
  }

  /** Both stores hold the same records that are not expired at `nowMs`. */
  predicate SameLive(o: Options, m: Records, simple: Records, nowMs: int) {
    Swept(m, nowMs, o.ttlMs) == Swept(simple, nowMs, o.ttlMs)
  }

  lemma SweptLater(m: Records, t: int, u: int, ttlMs: nat)
    requires t <= u
    ensures Swept(Swept(m, t, ttlMs), u, ttlMs) == Swept(m, u, ttlMs)
  {}

  lemma SameLiveLater(o: Options, m: Records, simple: Records, t: int, u: int)
    requires t <= u && SameLive(o, m, simple, t)
    ensures SameLive(o, m, simple, u)
  {
    SweptLater(m, t, u, o.ttlMs);
    SweptLater(simple, t, u, o.ttlMs);
  }

  lemma SubmapSize(a: Records, b: Records)
    requires a.Keys <= b.Keys
    ensures |a| <= |b|
  {
    assert b.Keys == a.Keys + (b.Keys - a.Keys);
  }

  /** What making room leaves is at least what is live, and exactly that when the store was full. */
  lemma RoomKeepsLive(o: Options, m: Records, id: InvocationId, nowMs: int)
    requires !LiveUnder(o, m, id, nowMs)
    ensures Swept(Room(o, m, id, nowMs), nowMs, o.ttlMs) == Swept(m, nowMs, o.ttlMs)
    ensures id !in Room(o, m, id, nowMs)
    ensures |Room(o, m, id, nowMs)| >= o.maxEntries <==> |Swept(m, nowMs, o.ttlMs)| >= o.maxEntries
  {
    var m1 := AfterLookup(m, id, nowMs, o.ttlMs);
    assert Swept(m1, nowMs, o.ttlMs) == Swept(m, nowMs, o.ttlMs);
    SubmapSize(Swept(m, nowMs, o.ttlMs), m1);
    SweptLater(m1, nowMs, nowMs, o.ttlMs);
  }

  /** `create` reports exhaustion exactly when the live records alone fill the store: expired ones never count. */
  lemma ExhaustedExactlyWhenLiveFull(o: Options, m: Records, rec: Rec, nowMs: int)
    ensures CreateResult(o, m, rec, nowMs) == CapacityExhausted <==>
            (!LiveUnder(o, m, rec.invocationId, nowMs) && |Swept(m, nowMs, o.ttlMs)| >= o.maxEntries)
  {
    if !LiveUnder(o, m, rec.invocationId, nowMs) { RoomKeepsLive(o, m, rec.invocationId, nowMs); }
  }

  lemma SameReply(o: Options, m: Records, simple: Records, c: Call)
    requires SameLive(o, m, simple, c.nowMs)
    ensures ReplyTo(o, m, c) == SimpleReplyTo(o, simple, c)
  {
    var live := Swept(m, c.nowMs, o.ttlMs);
    match c.op
    case Lookup(id, f) =>
      assert id in live <==> id in m && !ExpiredTerminal(m[id], c.nowMs, o.ttlMs);
    case Create(id, f, r, at) =>
      assert id in live <==> LiveUnder(o, m, id, c.nowMs);
      ExhaustedExactlyWhenLiveFull(o, m, NewRecord(id, f, r, at, c.nowMs), c.nowMs);
    case _ =>
  }

  lemma SweptInsert(m: Records, id: InvocationId, rec: Rec, nowMs: int, ttlMs: nat)
    ensures Swept(m[id := rec], nowMs, ttlMs) ==
            if ExpiredTerminal(rec, nowMs, ttlMs) then Swept(m, nowMs, ttlMs) - {id}
            else Swept(m, nowMs, ttlMs)[id := rec]
  {}

  lemma CreateKeepsSameLive(o: Options, m: Records, simple: Records, c: Call)
    requires c.op.Create? && SameLive(o, m, simple, c.nowMs)
    ensures SameLive(o, After(o, m, c), SimpleAfter(o, simple, c), c.nowMs)
  {
    var id, now, ttl := c.op.id, c.nowMs, o.ttlMs;
    var rec := NewRecord(id, c.op.fingerprint, c.op.runId, c.op.acceptedAt, now);
    var live := Swept(m, now, ttl);
    assert id in live <==> LiveUnder(o, m, id, now);
    ExhaustedExactlyWhenLiveFull(o, m, rec, now);
    SweptLater(simple, now, now, ttl);
    if !LiveUnder(o, m, id, now) {
      RoomKeepsLive(o, m, id, now);
      SweptInsert(Room(o, m, id, now), id, rec, now, ttl);
      SweptInsert(live, id, rec, now, ttl);
    }
  }

  lemma UpdateKeepsSameLive(o: Options, m: Records, simple: Records, c: Call, closed: set<RunId>)
    requires c.op.Update? && SameLive(o, m, simple, c.nowMs)
    requires TerminalAreClosed(m, closed) && c.op.runId !in closed
    ensures SameLive(o, After(o, m, c), SimpleAfter(o, simple, c), c.nowMs)
  {
    var id, now, ttl := c.op.id, c.nowMs, o.ttlMs;
    var live := Swept(m, now, ttl);
    SweptLater(simple, now, now, ttl);
    if id in m && m[id].runId == c.op.runId {
      assert !Terminal(m[id].state);
      assert id in live && live[id] == m[id];
      var rec := m[id].(state := c.op.state, updatedAtMs := now);
      SweptInsert(m, id, rec, now, ttl);
      SweptInsert(live, id, rec, now, ttl);
    }
  }

  lemma StepKeepsSameLive(o: Options, m: Records, simple: Records, c: Call, closed: set<RunId>)
    requires SameLive(o, m, simple, c.nowMs) && TerminalAreClosed(m, closed)
    requires c.op.Update? ==> c.op.runId !in closed
    ensures SameLive(o, After(o, m, c), SimpleAfter(o, simple, c), c.nowMs)
  {
    SweptLater(m, c.nowMs, c.nowMs, o.ttlMs);
    SweptLater(simple, c.nowMs, c.nowMs, o.ttlMs);
    match c.op
    case Lookup(id, f) => assert Swept(After(o, m, c), c.nowMs, o.ttlMs) == Swept(m, c.nowMs, o.ttlMs);
    case Create(_, _, _, _) => CreateKeepsSameLive(o, m, simple, c);
    case Update(_, _, _) => UpdateKeepsSameLive(o, m, simple, c, closed);
    case Cleanup =>
  }

  lemma StepKeepsTerminalClosed(o: Options, m: Records, c: Call, closed: set<RunId>)
    requires TerminalAreClosed(m, closed)
    ensures TerminalAreClosed(After(o, m, c), closed + Closes(c))
  {}

  /** Over any history with a non-decreasing clock and disciplined clients, the store answers
      exactly like the map of live records. */
  lemma {:induction false} StoreRefinesSimpleMap(o: Options, m: Records, simple: Records, h: seq<Call>,
                                                 closed: set<RunId>, nowMs: int)
    requires NonDecreasing(h) && (h != [] ==> nowMs <= h[0].nowMs)
    requires Disciplined(h, closed) && TerminalAreClosed(m, closed)
    requires SameLive(o, m, simple, nowMs)
    ensures Replies(o, m, h) == SimpleReplies(o, simple, h)
    decreases |h|
  {
    if h != [] {
      SameLiveLater(o, m, simple, nowMs, h[0].nowMs);
      SameReply(o, m, simple, h[0]);
      StepKeepsSameLive(o, m, simple, h[0], closed);
      StepKeepsTerminalClosed(o, m, h[0], closed);
      StoreRefinesSimpleMap(o, After(o, m, h[0]), SimpleAfter(o, simple, h[0]), h[1..], closed + Closes(h[0]),
                            h[0].nowMs);
    }
  }

  function WithoutCleanups(h: seq<Call>): seq<Call> {
    if h == [] then []
    else if h[0].op.Cleanup? then WithoutCleanups(h[1..])
    else [h[0]] + WithoutCleanups(h[1..])
  }

  lemma {:induction false} WithoutCleanupsIsHistory(h: seq<Call>, closed: set<RunId>)
    requires NonDecreasing(h) && Disciplined(h, closed)
    ensures NonDecreasing(WithoutCleanups(h)) && Disciplined(WithoutCleanups(h), closed)
    ensures forall c :: c in WithoutCleanups(h) ==> c in h
  {
    if h != [] {
      WithoutCleanupsIsHistory(h[1..], closed + Closes(h[0]));
      var w := WithoutCleanups(h[1..]);
      if h[0].op.Cleanup? {
        assert closed + Closes(h[0]) == closed;
      } else {
        assert ([h[0]] + w)[1..] == w;
        forall i, j | 0 <= i < j < |[h[0]] + w| ensures ([h[0]] + w)[i].nowMs <= ([h[0]] + w)[j].nowMs {
          assert w[j - 1] in h[1..];
        }
      }
    }
  }

  lemma {:induction false} SimpleIgnoresCleanups(o: Options, m: Records, h: seq<Call>)
    ensures SimpleReplies(o, m, h) == SimpleReplies(o, m, WithoutCleanups(h))
    decreases |h|
  {
    if h != [] {
      SimpleIgnoresCleanups(o, SimpleAfter(o, m, h[0]), h[1..]);
      if !h[0].op.Cleanup? {
        assert ([h[0]] + WithoutCleanups(h[1..]))[1..] == WithoutCleanups(h[1..]);
      }
    }
  }

  /** Sweeps may happen at any moments, or never: no answer of the whole history changes. */
  lemma CleanupsAreInvisible(o: Options, h: seq<Call>)
    requires NonDecreasing(h) && Disciplined(h, {})
    ensures Replies(o, map[], h) == Replies(o, map[], WithoutCleanups(h))
  {
    var w := WithoutCleanups(h);
    WithoutCleanupsIsHistory(h, {});
    StoreRefinesSimpleMap(o, map[], map[], h, {}, if h == [] then 0 else h[0].nowMs);
    StoreRefinesSimpleMap(o, map[], map[], w, {}, if w == [] then 0 else w[0].nowMs);
    SimpleIgnoresCleanups(o, map[], h);
  }

  // ---- bounds and what is never dropped -------------------------------------------------

  lemma CreateKeepsSize(o: Options, m: Records, rec: Rec, nowMs: int)
    requires |m| <= o.maxEntries
    ensures |AfterCreate(o, m, rec, nowMs)| <= o.maxEntries
  {
    hide ExpiredTerminal;
    var room := Room(o, m, rec.invocationId, nowMs);
    SubmapSize(room, m);
    assert room[rec.invocationId := rec].Keys == room.Keys + {rec.invocationId};
  }

  lemma StepKeepsSize(o: Options, m: Records, c: Call)
    requires |m| <= o.maxEntries
    ensures |After(o, m, c)| <= o.maxEntries
  {
    match c.op
    case Lookup(id, _) => SubmapSize(After(o, m, c), m);
    case Create(id, f, r, at) => CreateKeepsSize(o, m, NewRecord(id, f, r, at, c.nowMs), c.nowMs);
    case Update(id, _, _) => assert After(o, m, c).Keys == m.Keys;
    case Cleanup => SubmapSize(After(o, m, c), m);
  }

  function Final(o: Options, m: Records, h: seq<Call>): Records
    decreases |h|
  {
    if h == [] then m else Final(o, After(o, m, h[0]), h[1..])
  }

  /** The store never outgrows `maxEntries`, whatever the clock and the clients do. */
  lemma {:induction false} SizeBounded(o: Options, m: Records, h: seq<Call>)
    requires |m| <= o.maxEntries
    ensures |Final(o, m, h)| <= o.maxEntries
    decreases |h|
  {
    if h != [] {
      StepKeepsSize(o, m, h[0]);
      SizeBounded(o, After(o, m, h[0]), h[1..]);
    }
  }

  /** No operation removes or replaces a record whose run is not over. */
  lemma LiveRunsStay(o: Options, m: Records, c: Call, id: InvocationId)
    requires id in m && !Terminal(m[id].state)
    ensures id in After(o, m, c)
    ensures After(o, m, c)[id].runId == m[id].runId && After(o, m, c)[id].acceptedAt == m[id].acceptedAt
    ensures After(o, m, c)[id].fingerprint == m[id].fingerprint
    ensures !c.op.Update? ==> After(o, m, c)[id] == m[id]
  {}

  // ---- where the promise ends --------------------------------------------------------------

  /** `get` alone sees through the laziness: a sweep changes its answer exactly when the record has expired. */
  lemma GetSeesSweeps(o: Options, m: Records, id: InvocationId, nowMs: int)
    ensures (id in Swept(m, nowMs, o.ttlMs) <==> id in m) <==> !(id in m && ExpiredTerminal(m[id], nowMs, o.ttlMs))
  {}

  /** With a clock that steps back, a sweep does change a later answer: the record of a delivered
      run is swept at its expiry and then asked for at an earlier time. */
  lemma BackwardClockShowsSweep(o: Options, rec: Rec)
    requires o.ttlMs > 0 && Terminal(rec.state)
    ensures var m := map[rec.invocationId := rec];
            var expiry := rec.updatedAtMs + o.ttlMs;
            var h := [Call(Cleanup, expiry), Call(Lookup(rec.invocationId, rec.fingerprint), expiry - 1)];
            Replies(o, m, h) == [Looked(Miss)] && Replies(o, m, WithoutCleanups(h)) == [Looked(Duplicate(rec))]
  {
    var m := map[rec.invocationId := rec];
    var expiry := rec.updatedAtMs + o.ttlMs;
    var sweep, look := Call(Cleanup, expiry), Call(Lookup(rec.invocationId, rec.fingerprint), expiry - 1);
    assert [sweep, look][1..] == [look] && [look][1..] == [];
    assert After(o, m, sweep) == map[];
    assert Replies(o, map[], [look]) == [Looked(Miss)] + [];
    assert Replies(o, m, [sweep, look]) == [] + Replies(o, map[], [look]);
    assert Replies(o, m, [look]) == [Looked(Duplicate(rec))] + [];
    assert WithoutCleanups([look]) == [look] + [];
    assert WithoutCleanups([sweep, look]) == [look];
  }

  // ---- exactly which clocks hide the sweeps ------------------------------------------------------

  predicate CalledAt(h: seq<Call>, times: seq<int>) {
    |h| == |times| && forall i :: 0 <= i < |h| ==> h[i].nowMs == times[i]
  }

  /** Whatever the store holds at first and whatever disciplined clients call at these times, no sweep shows. */
  ghost predicate HidesSweeps(o: Options, times: seq<int>) {
    forall m: Records, closed: set<RunId>, h: seq<Call> ::
      CalledAt(h, times) && Disciplined(h, closed) && TerminalAreClosed(m, closed) ==>
        Replies(o, m, h) == Replies(o, m, WithoutCleanups(h))
  }

  lemma SweepsHidden(o: Options, m: Records, h: seq<Call>, closed: set<RunId>)
    requires NonDecreasing(h) && Disciplined(h, closed) && TerminalAreClosed(m, closed)
    ensures Replies(o, m, h) == Replies(o, m, WithoutCleanups(h))
  {
    hide Disciplined;
    var w := WithoutCleanups(h);
    WithoutCleanupsIsHistory(h, closed);
    StoreRefinesSimpleMap(o, m, m, h, closed, if h == [] then 0 else h[0].nowMs);
    StoreRefinesSimpleMap(o, m, m, w, closed, if w == [] then 0 else w[0].nowMs);
    SimpleIgnoresCleanups(o, m, h);
  }

  /** A sweep at the `i`th call, a lookup of "a" at the next, and lookups of another invocation around them. */
  function Exposing(times: seq<int>, i: nat): seq<Call> {
    seq(|times|, k requires 0 <= k < |times| =>
      Call(if k == i then Cleanup else if k == i + 1 then Lookup("a", "f") else Lookup("b", "f"), times[k]))
  }

  lemma ExposingRest(times: seq<int>, i: nat)
    requires times != []
    ensures i > 0 ==> Exposing(times, i)[1..] == Exposing(times[1..], i - 1)
  {}

  lemma {:induction false} ReadersAreDisciplined(h: seq<Call>, closed: set<RunId>)
    requires forall i :: 0 <= i < |h| ==> h[i].op.Lookup? || h[i].op.Cleanup?
    ensures Disciplined(h, closed)
  {
    if h != [] { ReadersAreDisciplined(h[1..], closed + Closes(h[0])); }
  }

  /** Where the clock steps back after call `i`, a record that expires at that call is swept or not before the next. */
  lemma {:induction false} SteppingBackExposes(o: Options, times: seq<int>, i: nat, rec: Rec)
    requires i + 1 < |times| && times[i + 1] < times[i]
    requires rec.invocationId == "a" && rec.fingerprint == "f" && Terminal(rec.state)
    requires rec.updatedAtMs + o.ttlMs == times[i]
    ensures var h, m := Exposing(times, i), map["a" := rec]; Replies(o, m, h) != Replies(o, m, WithoutCleanups(h))
    decreases i
  {
    var h, m := Exposing(times, i), map["a" := rec];
    if i == 0 {
      hide Exposing;
      FirstIsSwept(o, h, rec);
    } else {
      ExposingRest(times, i);
      SteppingBackExposes(o, times[1..], i - 1, rec);
      FirstLooksAside(o, h, rec);
    }
  }

  lemma FirstIsSwept(o: Options, h: seq<Call>, rec: Rec)
    requires |h| >= 2 && h[0].op == Cleanup && h[1].op == Lookup(rec.invocationId, rec.fingerprint)
    requires Terminal(rec.state) && h[1].nowMs < rec.updatedAtMs + o.ttlMs == h[0].nowMs
    ensures var m := map[rec.invocationId := rec]; Replies(o, m, h) != Replies(o, m, WithoutCleanups(h))
  {
    var m := map[rec.invocationId := rec];
    var rest := h[1..];
    assert rest[0] == h[1];
    assert After(o, m, h[0]) == map[];
    assert Replies(o, m, h) == [] + Replies(o, map[], rest);
    assert Replies(o, map[], rest)[0] == Looked(Miss);
    var w := WithoutCleanups(rest);
    assert w[0] == h[1];
    assert Replies(o, m, w)[0] == Looked(Duplicate(rec));
  }

  lemma FirstLooksAside(o: Options, h: seq<Call>, rec: Rec)
    requires h != [] && h[0].op.Lookup? && h[0].op.id != rec.invocationId
    requires var m := map[rec.invocationId := rec]; Replies(o, m, h[1..]) != Replies(o, m, WithoutCleanups(h[1..]))
    ensures var m := map[rec.invocationId := rec]; Replies(o, m, h) != Replies(o, m, WithoutCleanups(h))
  {
    var m := map[rec.invocationId := rec];
    var w := WithoutCleanups(h[1..]);
    assert ([h[0]] + w)[1..] == w;
    assert After(o, m, h[0]) == m && |ReplyTo(o, m, h[0])| == 1;
    assert Replies(o, m, h)[1..] == Replies(o, m, h[1..]);
    assert Replies(o, m, [h[0]] + w)[1..] == Replies(o, m, w);
  }

  lemma {:induction false} StepsBackSomewhere(times: seq<int>) returns (i: nat)
    requires exists j, k :: 0 <= j < k < |times| && times[k] < times[j]
    ensures i + 1 < |times| && times[i + 1] < times[i]
  {
    var j, k :| 0 <= j < k < |times| && times[k] < times[j];
    i := j;
    while !(times[i + 1] < times[i])
      invariant j <= i < k && times[k] < times[i]
      decreases k - i
    {
      i := i + 1;
    }
  }

  /** The sweeps are hidden exactly from clocks that never step back. */
  lemma HidesSweepsExactly(o: Options, times: seq<int>)
    ensures HidesSweeps(o, times) <==> forall j, k :: 0 <= j < k < |times| ==> times[j] <= times[k]
  {
    if forall j, k :: 0 <= j < k < |times| ==> times[j] <= times[k] {
      forall m: Records, closed: set<RunId>, h: seq<Call>
        | CalledAt(h, times) && Disciplined(h, closed) && TerminalAreClosed(m, closed)
        ensures Replies(o, m, h) == Replies(o, m, WithoutCleanups(h))
      {
        SweepsHidden(o, m, h, closed);
      }
    } else {
      var i := StepsBackSomewhere(times);
      var rec := Rec("a", "f", 0, 0, Delivered, 0, times[i] - o.ttlMs);
      SteppingBackExposes(o, times, i, rec);
      ReadersAreDisciplined(Exposing(times, i), {0});
      assert CalledAt(Exposing(times, i), times) && TerminalAreClosed(map["a" := rec], {0});
    }
  }

  // ---- every call told from the records -----------------------------------------------------------

  /** The run's outcome has been delivered, or cannot be, and its record has been left alone for `ttlMs` since. */
  predicate Over(r: Rec, nowMs: int, ttlMs: nat) {
    (r.state == Delivered || r.state == CallbackFailed) && r.updatedAtMs + ttlMs <= nowMs
  }

  /** The record of an invocation that still counts. */
  predicate Lives(o: Options, m: Records, id: InvocationId, nowMs: int) {
    id in m && !Over(m[id], nowMs, o.ttlMs)
  }

  function Living(o: Options, m: Records, nowMs: int): set<InvocationId> {
    set id | id in m && Lives(o, m, id, nowMs)
  }

  /** A lookup finds a record that is not over, whichever request it is for, and nothing else. */
  lemma LookupTells(o: Options, m: Records, id: InvocationId, fingerprint: Fingerprint, nowMs: int)
    ensures var answer := LookupAnswer(m, id, fingerprint, nowMs, o.ttlMs);
            if !Lives(o, m, id, nowMs) then answer == Miss
            else if m[id].fingerprint == fingerprint then answer == Duplicate(m[id])
            else answer == Conflict(m[id])
    ensures var now := AfterLookup(m, id, nowMs, o.ttlMs);
            now == if id in m && !Lives(o, m, id, nowMs) then m - {id} else m
  {}

  /** A record is made unless one of its invocation, or `maxEntries` of others, still count. Making it changes no other
      record; where all places are taken, or one is by a record that is over, records that are over go. */
  lemma CreateTells(o: Options, m: Records, id: InvocationId, fingerprint: Fingerprint, runId: RunId, acceptedAt: int,
                    nowMs: int)
    ensures var rec := NewRecord(id, fingerprint, runId, acceptedAt, nowMs);
            var reply, now := CreateResult(o, m, rec, nowMs), AfterCreate(o, m, rec, nowMs);
            && rec == Rec(id, fingerprint, runId, acceptedAt, Accepted, nowMs, nowMs)
            && (if Lives(o, m, id, nowMs) then reply == AlreadyExists && now == m
                else if |Living(o, m, nowMs)| >= o.maxEntries then reply == CapacityExhausted && now.Keys <= m.Keys
                else reply == Created(rec) && id in now && now[id] == rec)
            && (forall k :: Lives(o, m, k, nowMs) ==> k in now && now[k] == m[k])
            && (forall k :: k in now && k != id ==> k in m && now[k] == m[k])
  {
    hide Room;
    var rec := NewRecord(id, fingerprint, runId, acceptedAt, nowMs);
    ExhaustedExactlyWhenLiveFull(o, m, rec, nowMs);
    assert Living(o, m, nowMs) == Swept(m, nowMs, o.ttlMs).Keys;
    RoomTells(o, m, id, nowMs);
  }

  lemma RoomTells(o: Options, m: Records, id: InvocationId, nowMs: int)
    ensures var room := Room(o, m, id, nowMs);
            && (forall k :: k in room ==> k in m && room[k] == m[k])
            && (forall k :: Lives(o, m, k, nowMs) ==> k in room)
  {}

  /** A sweep drops exactly the records that are over. */
  lemma SweepTells(o: Options, m: Records, nowMs: int)
    ensures Swept(m, nowMs, o.ttlMs) == map k | k in m && Lives(o, m, k, nowMs) :: m[k]
  {}
}
