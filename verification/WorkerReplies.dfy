// What the Worker tells each request, from the runs and the records; and what its records say about time.
module WorkerReplies {
  import opened Ids
  import opened Wrappers
  import opened Scheduling
  import opened Idempotency
  import opened IdempotencyHistories
  import opened WorkerProtocol
  import opened WorkerInvariants
  import opened WorkerShutdown

  /** The runs that hold a slot, and those that wait for one. */
  function Holding(w: World): set<RunId> { set r | r in w.runs && w.runs[r].slot }

  function Queueing(w: World): set<RunId> { set r | r in w.runs && w.runs[r].phase == Waiting }

  /** The answer: the same request again, or another one, while the record of the invocation still counts; then
      whether all slots and the whole queue are taken; then whether `maxEntries` records still count. */
  function Answered(c: Config, w: World, id: InvocationId, f: Fingerprint, r: RunId): WorkerProtocol.Reply {
    if Lives(c.options, w.records, id, w.now) then
      if w.records[id].fingerprint == f then Repeated(w.records[id].runId, w.records[id].acceptedAt) else Conflicted
    else if |Holding(w)| + |Queueing(w)| >= c.limits.concurrency + c.limits.maxQueuedRuns then QueueFull
    else if |Living(c.options, w.records, w.now)| >= c.options.maxEntries then CapacityFull
    else Ran(r, w.now)
  }

  lemma RoomMeans(c: Config, w: World)
    requires QueueInv(w)
    ensures HasRoom(c.limits, w.sched) <==>
            |Holding(w)| + |Queueing(w)| < c.limits.concurrency + c.limits.maxQueuedRuns
  {
    ElementsCount(w.sched.queue);
    assert Elements(w.sched.queue) == Queueing(w);
    assert w.slots == Holding(w);
  }

  lemma SameLiving(c: Config, w: World, id: InvocationId)
    requires !Lives(c.options, w.records, id, w.now)
    ensures var m := AfterLookup(w.records, id, w.now, c.options.ttlMs);
            && Living(c.options, m, w.now) == Living(c.options, w.records, w.now) && id !in m
            && (forall k :: Lives(c.options, w.records, k, w.now) ==> k in m && m[k] == w.records[k])
            && (forall k :: k in m ==> k in w.records && m[k] == w.records[k])
            && (forall k :: Lives(c.options, m, k, w.now) <==> Lives(c.options, w.records, k, w.now))
  {}

  lemma DecidesSo(c: Config, w: World, id: InvocationId, f: Fingerprint, r: RunId)
    requires QueueInv(w)
    ensures Decide(c, w, id, f, r) == Answered(c, w, id, f, r)
  {
    hide QueueInv, CreateResult, Room, HasRoom, Holding, Queueing, Living;
    RoomMeans(c, w);
    LookupTells(c.options, w.records, id, f, w.now);
    if !Lives(c.options, w.records, id, w.now) {
      SameLiving(c, w, id);
      var m := AfterLookup(w.records, id, w.now, c.options.ttlMs);
      CreateTells(c.options, m, id, f, r, w.now, w.now);
    }
  }

  /** The records after the store has been asked: those that count stay as they are, and a new one is the run's. */
  lemma KeepsLiving(c: Config, w: World, id: InvocationId, f: Fingerprint, r: RunId)
    ensures var m := RecordsAfter(c, w, id, f, r);
            && (forall k :: Lives(c.options, w.records, k, w.now) ==> k in m && m[k] == w.records[k])
            && (Decide(c, w, id, f, r).Ran? ==> id in m && m[id] == Rec(id, f, r, w.now, Accepted, w.now, w.now))
  {
    hide CreateResult, Room, HasRoom, AfterCreate, Living;
    LookupTells(c.options, w.records, id, f, w.now);
    if !Lives(c.options, w.records, id, w.now) {
      SameLiving(c, w, id);
      CreateTells(c.options, AfterLookup(w.records, id, w.now, c.options.ttlMs), id, f, r, w.now, w.now);
    }
  }

  /** What a run is when the handler turns to the next request. */
  predicate Begun(w: World, v: World, id: InvocationId, f: Fingerprint, r: RunId) {
    && r in v.runs && v.runs.Keys == w.runs.Keys + {r} && id in v.records && v.records[id] == v.runs[r].rec
    && v.runs[r].rec == Rec(id, f, r, w.now, if w.sched.accepting then Queued else CallbackPending, w.now, w.now)
    && v.runs[r].owner == (if w.sched.accepting then BySlot else ByHandler)
    && v.runs[r].phase == (if w.sched.accepting then Waiting else Delivering)
    && v.sched.queue == (if w.sched.accepting then w.sched.queue + [r] else w.sched.queue)
    && (w.sched.accepting ==> v.sched.drainScheduled)
  }

  lemma AcceptBegins(c: Config, w: World, w1: World, id: InvocationId, f: Fingerprint, r: RunId)
    requires r !in w.runs && HasRoom(c.limits, w.sched)
    requires w1.runs == w.runs && w1.sched == w.sched && w1.now == w.now
    requires id in w1.records && w1.records[id] == Rec(id, f, r, w.now, Accepted, w.now, w.now)
    ensures var v := Accept(c, w1, w1.records[id], r);
            && Begun(w, v, id, f, r) && (forall q :: q in w.runs ==> v.runs[q] == w.runs[q])
            && (forall k :: k in w1.records && k != id ==> k in v.records && v.records[k] == w1.records[k])
  {
    hide HasRoom;
  }

  /** Every request is answered from the runs and the records of the moment, and the answer is logged. A request that
      is told to have run begins a run of its own; any other changes no run. No record that counts is touched. */
  lemma RepliesExactly(c: Config, turns: seq<Turn>, id: InvocationId, f: Fingerprint, r: RunId, sent: bool)
    requires Execute(c, turns).Some? && Enabled(Execute(c, turns).value, HandlerTurn(id, f, r, sent))
    ensures var w := Execute(c, turns).value;
            var v, reply := Step(c, w, HandlerTurn(id, f, r, sent)), Answered(c, w, id, f, r);
            && v.log == w.log + [Entry(w.now, id, f, reply)]
            && (forall q :: q in w.runs ==> q in v.runs && v.runs[q] == w.runs[q])
            && (forall k :: k != id && Lives(c.options, w.records, k, w.now) ==>
                  k in v.records && v.records[k] == w.records[k])
            && if reply.Ran? then Begun(w, v, id, f, r) else v.runs == w.runs && v.sched == w.sched
  {
    hide Execute, RunsInv, TrackInv, StopInv, LifeInv, QueueInv, Decide, RecordsAfter, Accept, HasRoom, Begun;
    hide Holding, Queueing, Living, Lives;
    ReachableProtocol(c, turns);
    var w := Execute(c, turns).value;
    DecidesSo(c, w, id, f, r);
    KeepsLiving(c, w, id, f, r);
    RoomMeans(c, w);
    HandleUnfolds(c, w, id, f, r, sent);
    if Answered(c, w, id, f, r).Ran? {
      var w1 := w.(records := RecordsAfter(c, w, id, f, r), log := w.log + [Entry(w.now, id, f, Ran(r, w.now))]);
      AcceptBegins(c, w, w1, id, f, r);
      AcceptKeepsLog(c, w1, w1.records[id], r);
      TrackKeepsRuns(w, Accept(c, w1, w1.records[id], r), id, f, r);
    }
  }

  lemma HandleUnfolds(c: Config, w: World, id: InvocationId, f: Fingerprint, r: RunId, sent: bool)
    ensures var reply := Decide(c, w, id, f, r);
            var w1 := w.(records := RecordsAfter(c, w, id, f, r), log := w.log + [Entry(w.now, id, f, reply)]);
            Handle(c, w, id, f, r, sent) ==
            if !reply.Ran? then w1
            else
              var v := Accept(c, w1, Rec(id, f, r, w.now, Accepted, w.now, w.now), r);
              if sent then TrackEvent(v) else v
  {
    hide Decide, RecordsAfter, Accept;
  }

  lemma AcceptKeepsLog(c: Config, w: World, rec: Rec, r: RunId)
    ensures Accept(c, w, rec, r).log == w.log
  {}

  lemma TrackKeepsRuns(w: World, v: World, id: InvocationId, f: Fingerprint, r: RunId)
    requires Begun(w, v, id, f, r)
    ensures Begun(w, TrackEvent(v), id, f, r)
  {}
}
