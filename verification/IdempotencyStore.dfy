// `InMemoryIdempotencyStore`: records of runs that expire lazily, on lookup, on
// creation under the same key, or in a cleanup sweep.
module Idempotency {
  import opened Ids
  import opened Wrappers

  type InvocationId = string
  type Fingerprint = string

  datatype RunState = Accepted | Queued | Running | CallbackPending | Delivered | CallbackFailed

  /** The value of one run record. */
  datatype Rec = Rec(
    invocationId: InvocationId, fingerprint: Fingerprint, runId: RunId, acceptedAt: int,
    state: RunState, createdAtMs: int, updatedAtMs: int)

  datatype Options = Options(ttlMs: nat, maxEntries: nat)

  type Records = map<InvocationId, Rec>

  predicate Terminal(s: RunState) {
    s == Delivered || s == CallbackFailed
  }

  predicate ExpiredTerminal(r: Rec, nowMs: int, ttlMs: nat) {
    Terminal(r.state) && r.updatedAtMs + ttlMs <= nowMs
  }

  datatype Answer = Miss | Duplicate(rec: Rec) | Conflict(rec: Rec)

  datatype Creation = Created(rec: Rec) | AlreadyExists | CapacityExhausted

  // ---- what each operation does to the map ----------------------------------------

  function Swept(m: Records, nowMs: int, ttlMs: nat): Records {
    map k | k in m && !ExpiredTerminal(m[k], nowMs, ttlMs) :: m[k]
  }

  /** `lookup` drops an expired record under its own key and answers from what is left there. */
  function AfterLookup(m: Records, id: InvocationId, nowMs: int, ttlMs: nat): Records {
    if id in m && ExpiredTerminal(m[id], nowMs, ttlMs) then m - {id} else m
  }

  function LookupAnswer(m: Records, id: InvocationId, fingerprint: Fingerprint, nowMs: int, ttlMs: nat): Answer {
    if id !in m || ExpiredTerminal(m[id], nowMs, ttlMs) then Miss
    else if m[id].fingerprint == fingerprint then Duplicate(m[id])
    else Conflict(m[id])
  }

  function NewRecord(id: InvocationId, fingerprint: Fingerprint, runId: RunId, acceptedAt: int, nowMs: int): Rec {
    Rec(id, fingerprint, runId, acceptedAt, Accepted, nowMs, nowMs)
  }

  /** The map when `create` has made room: the expired record under the key, then all expired records. */
  function Room(o: Options, m: Records, id: InvocationId, nowMs: int): Records {
    var m1 := AfterLookup(m, id, nowMs, o.ttlMs);
    if |m1| >= o.maxEntries then Swept(m1, nowMs, o.ttlMs) else m1
  }

  function CreateResult(o: Options, m: Records, rec: Rec, nowMs: int): Creation {
    if LiveUnder(o, m, rec.invocationId, nowMs) then AlreadyExists
    else if |Room(o, m, rec.invocationId, nowMs)| >= o.maxEntries then CapacityExhausted
    else Created(rec)
  }

  predicate LiveUnder(o: Options, m: Records, id: InvocationId, nowMs: int) {
    id in m && !ExpiredTerminal(m[id], nowMs, o.ttlMs)
  }

  function AfterCreate(o: Options, m: Records, rec: Rec, nowMs: int): Records {
    match CreateResult(o, m, rec, nowMs)
    case AlreadyExists => m
    case CapacityExhausted => Room(o, m, rec.invocationId, nowMs)
    case Created(_) => Room(o, m, rec.invocationId, nowMs)[rec.invocationId := rec]
  }

  /** `updateState` writes to a record object; the map sees it only if it still holds that object. */
  function AfterUpdate(m: Records, id: InvocationId, runId: RunId, state: RunState, nowMs: int): Records {
    if id in m && m[id].runId == runId then m[id := m[id].(state := state, updatedAtMs := nowMs)] else m
  }

  // ---- the code -----------------------------------------------------------------------

  class RunRecord {
    const invocationId: InvocationId
    const fingerprint: Fingerprint
    const runId: RunId
    const acceptedAt: int
    var state: RunState
    const createdAtMs: int
    var updatedAtMs: int

    constructor (invocationId: InvocationId, fingerprint: Fingerprint, runId: RunId, acceptedAt: int, nowMs: int)
      ensures Value() == NewRecord(invocationId, fingerprint, runId, acceptedAt, nowMs)
    {
      this.invocationId, this.fingerprint, this.runId, this.acceptedAt := invocationId, fingerprint, runId, acceptedAt;
      state, createdAtMs, updatedAtMs := Accepted, nowMs, nowMs;
    }

    function Value(): Rec
      reads this
    {
      Rec(invocationId, fingerprint, runId, acceptedAt, state, createdAtMs, updatedAtMs)
    }

    method IsExpiredTerminal(nowMs: int, ttlMs: nat) returns (expired: bool)
      ensures expired == ExpiredTerminal(Value(), nowMs, ttlMs)
    {
      expired := (state == Delivered || state == CallbackFailed) && updatedAtMs + ttlMs <= nowMs;
    }
  }

  class InMemoryIdempotencyStore {
    const options: Options
    var records: map<InvocationId, RunRecord>

    constructor (options: Options)
      ensures this.options == options && records == map[] && Valid() && View() == map[]
    {
      this.options := options;
      records := map[];
    }

    /** Every record sits under its own invocation id; in particular no two keys share a record object. */
    ghost predicate Valid()
      reads this, records.Values
    {
      forall k :: k in records ==> records[k].invocationId == k
    }

    ghost function View(): Records
      reads this, records.Values
    {
      map k | k in records :: records[k].Value()
    }

    method Get(id: InvocationId) returns (r: Option<RunRecord>)
      requires Valid()
      ensures r.Some? <==> id in View()
      ensures r.Some? ==> r.value.Value() == View()[id]
    {
      r := if id in records then Some(records[id]) else None;
    }

    method Lookup(id: InvocationId, fingerprint: Fingerprint, nowMs: int) returns (answer: Answer)
      requires Valid()
      modifies this
      ensures Valid()
      ensures answer == LookupAnswer(old(View()), id, fingerprint, nowMs, options.ttlMs)
      ensures View() == AfterLookup(old(View()), id, nowMs, options.ttlMs)
      ensures forall k :: k in records ==> k in old(records) && records[k] == old(records)[k]
    {
      if id !in records { return Miss; }
      var record := records[id];
      var expired := record.IsExpiredTerminal(nowMs, options.ttlMs);
      if expired {
        records := records - {id};
        return Miss;
      }
      answer := if record.fingerprint == fingerprint then Duplicate(record.Value()) else Conflict(record.Value());
    }

    method Create(id: InvocationId, fingerprint: Fingerprint, runId: RunId, acceptedAt: int, nowMs: int)
      returns (result: Creation, record: Option<RunRecord>)
      requires Valid()
      modifies this
      ensures Valid()
      ensures var rec := NewRecord(id, fingerprint, runId, acceptedAt, nowMs);
              && result == CreateResult(options, old(View()), rec, nowMs)
              && View() == AfterCreate(options, old(View()), rec, nowMs)
      ensures result.Created? ==> record.Some? && fresh(record.value) && id in records && records[id] == record.value
      ensures result.Created? ==> record.value.Value() == NewRecord(id, fingerprint, runId, acceptedAt, nowMs)
      ensures forall k :: k in records && !(result.Created? && k == id) ==>
              k in old(records) && records[k] == old(records)[k]
    {
      hide Room, LiveUnder, ExpiredTerminal;
      record := None;
      var room := MakeRoom(id, nowMs);
      if !room { return AlreadyExists, None; }
      SizeOfView();
      if |records| >= options.maxEntries { return CapacityExhausted, None; }
      var made := new RunRecord(id, fingerprint, runId, acceptedAt, nowMs);
      ghost var before := View();
      records := records[id := made];
      assert View() == before[id := made.Value()];
      return Created(made.Value()), Some(made);
    }

    /** False when a live record holds the key; otherwise expired records are dropped as far as needed. */
    method MakeRoom(id: InvocationId, nowMs: int) returns (room: bool)
      requires Valid()
      modifies this
      ensures Valid()
      ensures room == !LiveUnder(options, old(View()), id, nowMs)
      ensures View() == if room then Room(options, old(View()), id, nowMs) else old(View())
      ensures forall k :: k in records ==> k in old(records) && records[k] == old(records)[k]
    {
      ghost var before := View();
      if id in records {
        var expired := records[id].IsExpiredTerminal(nowMs, options.ttlMs);
        if !expired { return false; }
        records := records - {id};
      }
      assert View() == AfterLookup(before, id, nowMs, options.ttlMs);
      SizeOfView();
      if |records| >= options.maxEntries { Cleanup(nowMs); }
      return true;
    }

    method UpdateState(record: RunRecord, state: RunState, nowMs: int)
      requires Valid()
      requires record.invocationId in records && records[record.invocationId] != record ==>
                 records[record.invocationId].runId != record.runId
      modifies record
      ensures Valid()
      ensures record.Value() == old(record.Value()).(state := state, updatedAtMs := nowMs)
      ensures View() == AfterUpdate(old(View()), record.invocationId, record.runId, state, nowMs)
    {
      record.state := state;
      record.updatedAtMs := nowMs;
    }

    lemma SizeOfView()
      requires Valid()
      ensures |View()| == |records|
    {
      assert View().Keys == records.Keys;
    }

    method Cleanup(nowMs: int)
      requires Valid()
      modifies this
      ensures Valid()
      ensures View() == Swept(old(View()), nowMs, options.ttlMs)
      ensures forall k :: k in records ==> k in old(records) && records[k] == old(records)[k]
    {
      var todo := records.Keys;
      while todo != {}
        invariant todo <= old(records).Keys
        invariant forall k :: k in old(records) ==>
                    (k in records <==> k in todo || !ExpiredTerminal(old(records)[k].Value(), nowMs, options.ttlMs))
        invariant forall k :: k in records ==> k in old(records) && records[k] == old(records)[k]
        decreases todo
      {
        var id :| id in todo;
        var expired := records[id].IsExpiredTerminal(nowMs, options.ttlMs);
        if expired { records := records - {id}; }
        todo := todo - {id};
      }
    }
  }
}
