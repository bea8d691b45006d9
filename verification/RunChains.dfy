// The promise chains of the accepted runs. Each closes over its run's record object, which the store may
// hold as well: a state written through the chain is seen by both.
module RunChains {
  import opened Ids
  import opened Wrappers
  import opened Scheduling
  import opened Idempotency
  import opened WorkerProtocol

  /** Where the promise chain of a run stands. */
  datatype Progress = Progress(
    record: RunRecord, phase: Phase, owner: Owner, slot: bool, result: Option<Result>, hookThrew: bool,
    deliveries: nat, announced: bool, event: Option<nat>)

  function RunAt(p: Progress, rec: Rec): Run {
    Run(rec, p.phase, p.owner, p.slot, p.result, p.hookThrew, p.deliveries, p.announced, p.event)
  }

  ghost function RecordsOf(all: map<RunId, Progress>): set<object> {
    set r | r in all :: all[r].record
  }

  lemma SameRecords(a: map<RunId, Progress>, b: map<RunId, Progress>)
    requires a.Keys == b.Keys && forall r :: r in a ==> a[r].record == b[r].record
    ensures RecordsOf(a) == RecordsOf(b)
  {
    forall r | r in a ensures a[r].record in RecordsOf(b) && b[r].record in RecordsOf(a) {
      assert b[r].record in RecordsOf(b);
    }
  }

  class Chains {
    const store: InMemoryIdempotencyStore
    var all: map<RunId, Progress>

    /** Every object the chains can reach. */
    ghost function Footprint(): set<object>
      reads this, store
    {
      {this, store} + RecordsOf(all) + (set k | k in store.records :: store.records[k])
    }

    /** A chain has its own record, and every record of the store belongs to a chain. */
    ghost predicate Valid()
      reads this, store, Footprint()
    {
      && store.Valid()
      && (forall r :: r in all ==> all[r].record.runId == r)
      && (forall k :: k in store.records ==>
          store.records[k].runId in all && all[store.records[k].runId].record == store.records[k])
    }

    ghost function RunOf(r: RunId): Run
      requires r in all
      reads this, all[r].record
    {
      RunAt(all[r], all[r].record.Value())
    }

    ghost function View(): map<RunId, Run>
      reads this, store, Footprint()
    {
      map r | r in all :: RunOf(r)
    }

    ghost function StoreView(): Records
      reads this, store, Footprint()
    {
      store.View()
    }

    constructor (store: InMemoryIdempotencyStore)
      requires store.Valid() && store.records == map[]
      ensures this.store == store && Valid() && View() == map[] && all == map[] && Footprint() == {this, store}
              && StoreView() == map[]
    {
      this.store := store;
      all := map[];
    }

    lemma Known(r: RunId)
      ensures this in Footprint() && store in Footprint()
      ensures r in View() <==> r in all
      ensures r in all ==>
              View()[r] == RunOf(r) && all[r].record in Footprint() && View()[r] == RunAt(all[r], View()[r].rec)
    {}

    /** `store.updateState(record, ...)`: the chain and, if it still holds the object, the store see it. */
    method UpdateState(r: RunId, newState: RunState, now: int)
      requires Valid() && r in all
      modifies all[r].record
      ensures Valid() && Footprint() == old(Footprint())
      ensures View() == old(View())[r := old(RunOf(r)).(rec := Written(old(RunOf(r)).rec, Some(newState), now))]
      ensures StoreView() == AfterUpdate(old(StoreView()), old(RunOf(r)).rec.invocationId, r, newState, now)
    {
      hide AfterUpdate;
      var record := all[r].record;
      ghost var runs := View();
      store.UpdateState(record, newState, now);
      forall q | q in all && q != r ensures RunOf(q) == runs[q] {
        assert all[q].record.runId == q && record.runId == r;
      }
    }

    method SetProgress(r: RunId, p: Progress)
      requires Valid() && r in all && p.record == all[r].record
      modifies this
      ensures Valid() && Footprint() == old(Footprint()) && all == old(all)[r := p]
      ensures View() == old(View())[r := RunAt(p, old(RunOf(r)).rec)]
    {
      hide RunRecord.Value, InMemoryIdempotencyStore.View, InMemoryIdempotencyStore.Valid;
      var moved := all[r := p];
      SameRecords(all, moved);
      all := moved;
    }

    /** One run moves on: its record is written, if at all, and its chain is at `p`. */
    method Advance(r: RunId, writes: Option<RunState>, p: Progress, now: int)
      requires Valid() && r in all && p.record == all[r].record
      modifies this, all[r].record
      ensures Valid() && Footprint() == old(Footprint()) && all == old(all)[r := p]
      ensures View() == old(View())[r := RunAt(p, Written(old(View())[r].rec, writes, now))]
      ensures StoreView() == if writes.None? then old(StoreView())
                             else AfterUpdate(old(StoreView()), old(View())[r].rec.invocationId, r, writes.value, now)
    {
      hide AfterUpdate, Valid, Footprint;
      ghost var was := View();
      if writes.Some? { UpdateState(r, writes.value, now); }
      assert RunOf(r) == View()[r];
      SetProgress(r, p);
    }

    /** The chains move; whose record is whose does not change. */
    method MoveAll(moved: map<RunId, Progress>)
      requires Valid() && moved.Keys == all.Keys && forall r :: r in all ==> moved[r].record == all[r].record
      modifies this
      ensures Valid() && all == moved && Footprint() == old(Footprint()) && StoreView() == old(StoreView())
    {
      SameRecords(all, moved);
      all := moved;
    }

    /** The chains of the runs a drain has started. */
    method Pick(started: seq<RunId>)
      requires Valid()
      modifies this
      ensures Valid() && Footprint() == old(Footprint()) && StoreView() == old(StoreView())
      ensures View() == map r | r in old(View()) ::
                if r in started then old(View())[r].(phase := Picked, slot := true) else old(View())[r]
    {
      hide Valid, Footprint, StoreView;
      ghost var was := View();
      MoveAll(map r | r in all :: if r in started then all[r].(phase := Picked, slot := true) else all[r]);
      forall r | r in all ensures RunOf(r) == if r in started then was[r].(phase := Picked, slot := true) else was[r] {}
    }

    // ---- the store's own operations, which leave the chains alone -------------------------------

    method Lookup(id: InvocationId, fingerprint: Fingerprint, now: int) returns (answer: Answer)
      requires Valid()
      modifies store
      ensures Valid() && Footprint() <= old(Footprint()) && all == old(all)
      ensures answer == LookupAnswer(old(StoreView()), id, fingerprint, now, store.options.ttlMs)
      ensures StoreView() == AfterLookup(old(StoreView()), id, now, store.options.ttlMs) && View() == old(View())
    {
      hide ExpiredTerminal, AfterLookup, LookupAnswer;
      answer := store.Lookup(id, fingerprint, now);
    }

    method Cleanup(now: int)
      requires Valid()
      modifies store
      ensures Valid() && Footprint() <= old(Footprint()) && all == old(all)
      ensures StoreView() == Swept(old(StoreView()), now, store.options.ttlMs) && View() == old(View())
    {
      hide ExpiredTerminal, Swept;
      store.Cleanup(now);
    }

    /** As `Valid`, but `made` may be in the store without a chain yet. */
    ghost predicate ValidBut(made: RunRecord)
      reads this, store, Footprint()
    {
      && store.Valid()
      && (forall r :: r in all ==> all[r].record.runId == r)
      && (forall k :: k in store.records && store.records[k] != made ==>
            store.records[k].runId in all && all[store.records[k].runId].record == store.records[k])
    }

    /** `store.create`. */
    method Create(id: InvocationId, fingerprint: Fingerprint, r: RunId, now: int) returns (record: Option<RunRecord>)
      requires Valid()
      modifies store
      ensures all == old(all) && View() == old(View())
      ensures Footprint() <= old(Footprint()) + if record.Some? then {record.value} else {}
      ensures record.None? ==> Valid()
      ensures record.Some? ==> fresh(record.value) && record.value.runId == r && ValidBut(record.value)
                               && record.value.Value() == NewRecord(id, fingerprint, r, now, now)
      ensures var rec := NewRecord(id, fingerprint, r, now, now);
              && record.Some? == CreateResult(store.options, old(StoreView()), rec, now).Created?
              && StoreView() == AfterCreate(store.options, old(StoreView()), rec, now)
    {
      hide CreateResult, AfterCreate;
      var result, made := store.Create(id, fingerprint, r, now, now);
      record := if result.Created? then made else None;
    }

    /** The chain of a new run, closing over its record. */
    method Add(r: RunId, record: RunRecord)
      requires ValidBut(record) && r !in all && record.runId == r
      modifies this
      ensures Valid() && Footprint() <= old(Footprint()) + {record}
      ensures all == old(all)[r := Progress(record, Waiting, BySlot, false, None, false, 0, false, None)]
      ensures View() == old(View())[r := Run(record.Value(), Waiting, BySlot, false, None, false, 0, false, None)]
      ensures StoreView() == old(StoreView())
    {
      hide RunRecord.Value, InMemoryIdempotencyStore.View;
      all := all[r := Progress(record, Waiting, BySlot, false, None, false, 0, false, None)];
    }

    /** A record in the store is the record of its run. */
    lemma Shared()
      requires Valid()
      ensures forall k :: k in StoreView() ==>
                var r := StoreView()[k].runId;
                r in View() && View()[r].rec == StoreView()[k] && StoreView()[k].invocationId == k
    {}

    /** `stopAccepting` cancels each queued run: its delivery starts, up to its first wait. */
    method CancelAll(queued: seq<RunId>, now: int)
      requires Valid() && NoDuplicates(queued) && forall r :: r in queued ==> r in View()
      modifies Footprint()
      ensures Valid() && Footprint() == old(Footprint())
      ensures View() == Cancelled(old(View()), queued, now)
      ensures StoreView() == CancelledRecords(old(StoreView()), queued, now)
    {
      hide Valid, Footprint, StoreView, View, AfterUpdate, Cancelled, CancelledRecords;
      ghost var runs, records := View(), StoreView();
      Shared();
      NothingCancelled(runs, records, now);
      for i := 0 to |queued|
        invariant Valid() && Footprint() == old(Footprint())
        invariant View() == Cancelled(runs, queued[..i], now)
        invariant StoreView() == CancelledRecords(records, queued[..i], now)
      {
        var r := queued[i];
        Known(r);
        CancelMore(runs, records, queued[..i], r, now);
        assert queued[..i] + [r] == queued[..i + 1];
        var p := all[r];
        var cancelled := p.(phase := Delivering, owner := ByStop, deliveries := p.deliveries + 1);
        Advance(r, Some(CallbackPending), cancelled, now);
      }
      assert queued[..|queued|] == queued;
    }
  }

  function Cancelled(runs: map<RunId, Run>, queued: seq<RunId>, now: int): map<RunId, Run> {
    map r | r in runs :: if r in queued then CancelledRun(runs[r], now) else runs[r]
  }

  function CancelledRecords(m: Records, queued: seq<RunId>, now: int): Records {
    map k | k in m :: if m[k].runId in queued then m[k].(state := CallbackPending, updatedAtMs := now) else m[k]
  }

  lemma NothingCancelled(runs: map<RunId, Run>, m: Records, now: int)
    ensures Cancelled(runs, [], now) == runs && CancelledRecords(m, [], now) == m
  {}

  lemma CancelMore(runs: map<RunId, Run>, m: Records, done: seq<RunId>, r: RunId, now: int)
    requires r in runs && r !in done
    requires forall k :: k in m && m[k].runId == r ==> runs[r].rec == m[k] && m[k].invocationId == k
    ensures r in Cancelled(runs, done, now) && Cancelled(runs, done, now)[r] == runs[r]
    ensures Cancelled(runs, done, now)[r := CancelledRun(runs[r], now)] == Cancelled(runs, done + [r], now)
    ensures AfterUpdate(CancelledRecords(m, done, now), runs[r].rec.invocationId, r, CallbackPending, now) ==
            CancelledRecords(m, done + [r], now)
  {
    var a, b := Cancelled(runs, done, now)[r := CancelledRun(runs[r], now)], Cancelled(runs, done + [r], now);
    assert a.Keys == b.Keys && forall q :: q in a ==> a[q] == b[q];
    var id := runs[r].rec.invocationId;
    var x := AfterUpdate(CancelledRecords(m, done, now), id, r, CallbackPending, now);
    var y := CancelledRecords(m, done + [r], now);
    assert x.Keys == y.Keys && forall k :: k in x ==> x[k] == y[k];
  }
}
