// Idempotency over whole histories of the Worker: what repeated requests are told,
// and when a second run of the same invocation can start.
module WorkerIdempotency {
  import opened Ids
  import opened Wrappers
  import opened Scheduling
  import opened Idempotency
  import opened WorkerProtocol
  import opened WorkerInvariants
  import opened WorkerShutdown

  ghost predicate Held(w: World, rec: Rec) {
    rec.invocationId in w.records && w.records[rec.invocationId].runId == rec.runId
  }

  /** The store holds the record objects of runs; a run whose record it no longer holds is over and expired. */
  ghost predicate StoreInv(c: Config, w: World) {
    && (forall k :: k in w.records ==>
          && w.records[k].invocationId == k && w.records[k].runId in w.runs
          && w.runs[w.records[k].runId].rec == w.records[k])
    && (forall r :: r in w.runs ==> w.runs[r].rec.runId == r && HeldOrExpired(c, w, w.runs[r].rec))
  }

  ghost predicate HeldOrExpired(c: Config, w: World, rec: Rec) {
    Held(w, rec) || ExpiredTerminal(rec, w.now, c.options.ttlMs)
  }

  /** What the answer to a later request says about an earlier run of the same invocation. */
  ghost predicate Consistent(c: Config, w: World, earlier: Entry, later: Entry)
    requires earlier.reply.Ran? && earlier.reply.run in w.runs
  {
    var rec := w.runs[earlier.reply.run].rec;
    || (later.reply == Repeated(earlier.reply.run, earlier.reply.at) && later.fingerprint == earlier.fingerprint)
    || (later.reply == Conflicted && later.fingerprint != earlier.fingerprint)
    || ExpiredTerminal(rec, later.nowMs, c.options.ttlMs)
  }

  ghost predicate Recorded(w: World, entry: Entry) {
    entry.reply.Ran? ==>
      && entry.reply.run in w.runs
      && var rec := w.runs[entry.reply.run].rec;
         rec.invocationId == entry.id && rec.fingerprint == entry.fingerprint && rec.acceptedAt == entry.reply.at
  }

  ghost predicate LogInv(c: Config, w: World) {
    && (forall i :: 0 <= i < |w.log| ==> Recorded(w, w.log[i]))
    && (forall i, j :: 0 <= i < j < |w.log| && w.log[i].reply.Ran? && w.log[i].id == w.log[j].id
          ==> Consistent(c, w, w.log[i], w.log[j]))
    && (forall r :: r in w.runs ==> exists i :: 0 <= i < |w.log| && w.log[i].reply == Ran(r, w.runs[r].rec.acceptedAt))
  }

  // ---- records across one turn -----------------------------------------------------------

  predicate SameIdentity(a: Rec, b: Rec) {
    && b.invocationId == a.invocationId && b.fingerprint == a.fingerprint
    && b.runId == a.runId && b.acceptedAt == a.acceptedAt
  }

  /** Records keep their identity, and a terminal record never changes again. */
  ghost predicate RecordsLast(w: World, v: World) {
    forall r :: r in w.runs ==>
      r in v.runs && SameIdentity(w.runs[r].rec, v.runs[r].rec)
      && (Terminal(w.runs[r].rec.state) ==> v.runs[r].rec == w.runs[r].rec)
  }

  ghost predicate SameRecords(w: World, v: World) {
    && v.records == w.records && v.now >= w.now && v.log == w.log
    && v.runs.Keys == w.runs.Keys && forall r :: r in w.runs ==> v.runs[r].rec == w.runs[r].rec
  }

  lemma SameRecordsKeep(c: Config, w: World, v: World)
    requires StoreInv(c, w) && LogInv(c, w) && SameRecords(w, v)
    ensures StoreInv(c, v) && LogInv(c, v)
  {
    forall r | r in v.runs ensures v.runs[r].rec.runId == r && HeldOrExpired(c, v, v.runs[r].rec) {
      assert HeldOrExpired(c, w, w.runs[r].rec);
    }
    SameLogKeeps(c, w, v);
  }

  lemma SameLogKeeps(c: Config, w: World, v: World)
    requires LogInv(c, w) && v.log == w.log && RecordsLast(w, v) && v.runs.Keys == w.runs.Keys
    ensures LogInv(c, v)
  {
    forall i | 0 <= i < |v.log| ensures Recorded(v, v.log[i]) {
      assert Recorded(w, w.log[i]);
    }
    forall i, j | 0 <= i < j < |v.log| && v.log[i].reply.Ran? && v.log[i].id == v.log[j].id
      ensures Consistent(c, v, v.log[i], v.log[j])
    {
      assert Recorded(w, w.log[i]);
      assert Consistent(c, w, w.log[i], w.log[j]);
    }
    forall r | r in v.runs ensures exists i :: 0 <= i < |v.log| && v.log[i].reply == Ran(r, v.runs[r].rec.acceptedAt) {
      var i :| 0 <= i < |w.log| && w.log[i].reply == Ran(r, w.runs[r].rec.acceptedAt);
      assert v.log[i].reply == Ran(r, v.runs[r].rec.acceptedAt);
    }
  }

  lemma RunStepRecords(w: World, e: Turn)
    requires RunsInv(w) && OfOneRun(e) && e.run in w.runs && RunEnabled(w.runs[e.run], e)
    ensures var v := RunStep(w, e);
            v.now == w.now && v.log == w.log && v.runs.Keys == w.runs.Keys
            && (forall r :: r in w.runs && r != e.run ==> v.runs[r] == w.runs[r])
            && (Writes(e).None? ==> v.records == w.records && v.runs[e.run].rec == w.runs[e.run].rec)
            && (Writes(e).Some? ==>
                  && !Terminal(w.runs[e.run].rec.state)
                  && v.runs[e.run].rec == w.runs[e.run].rec.(state := Writes(e).value, updatedAtMs := w.now)
                  && v.records == AfterUpdate(w.records, w.runs[e.run].rec.invocationId, e.run, Writes(e).value, w.now))
  {
    hide AfterUpdate, WorkAfter, RunsInv;
    assert RunInv(w.runs[e.run], e.run) by { RunOf(w, e.run); }
  }

  lemma RunStepKeepsStore(c: Config, w: World, e: Turn)
    requires RunsInv(w) && StoreInv(c, w) && OfOneRun(e) && e.run in w.runs && RunEnabled(w.runs[e.run], e)
    ensures StoreInv(c, RunStep(w, e))
  {
    hide RunStep, RunsInv, RunEnabled;
    RunStepRecords(w, e);
    var v := RunStep(w, e);
    OneRecordWritten(c, w, v, e.run, Writes(e));
  }

  /** Writing a record that is not terminal, in the run and wherever the store still holds it. */
  lemma OneRecordWritten(c: Config, w: World, v: World, r: RunId, writes: Option<RunState>)
    requires StoreInv(c, w) && r in w.runs && v.now == w.now && v.runs.Keys == w.runs.Keys
    requires forall q :: q in w.runs && q != r ==> v.runs[q] == w.runs[q]
    requires writes.None? ==> v.records == w.records && v.runs[r].rec == w.runs[r].rec
    requires writes.Some? ==>
               && !Terminal(w.runs[r].rec.state)
               && v.runs[r].rec == w.runs[r].rec.(state := writes.value, updatedAtMs := w.now)
               && v.records == AfterUpdate(w.records, w.runs[r].rec.invocationId, r, writes.value, w.now)
    ensures StoreInv(c, v)
  {
    assert HeldOrExpired(c, w, w.runs[r].rec);
    forall q | q in v.runs ensures v.runs[q].rec.runId == q && HeldOrExpired(c, v, v.runs[q].rec) {
      assert HeldOrExpired(c, w, w.runs[q].rec);
    }
  }

  lemma BeginShutdownKeepsStore(c: Config, w: World)
    requires RunsInv(w) && QueueInv(w) && StoreInv(c, w) && LogInv(c, w)
    ensures StoreInv(c, BeginShutdown(w)) && LogInv(c, BeginShutdown(w))
  {
    hide LogInv, StoreInv, BeginShutdown;
    forall r | r in w.sched.queue ensures r in w.runs && !Terminal(w.runs[r].rec.state) && w.runs[r].rec.runId == r {
      assert InPhase(w, r, Waiting);
      RunOf(w, r);
    }
    ShutdownRecords(w);
    SameLogKeeps(c, w, BeginShutdown(w));
    ShutdownStore(c, w, BeginShutdown(w));
  }

  lemma ShutdownRecords(w: World)
    requires forall r :: r in w.sched.queue ==>
             r in w.runs && !Terminal(w.runs[r].rec.state) && w.runs[r].rec.runId == r
    ensures var v := BeginShutdown(w);
            RecordsLast(w, v) && v.log == w.log && v.runs.Keys == w.runs.Keys
  {}

  lemma ShutdownStore(c: Config, w: World, v: World)
    requires StoreInv(c, w) && v == BeginShutdown(w)
    requires forall r :: r in w.sched.queue ==>
             r in w.runs && !Terminal(w.runs[r].rec.state) && w.runs[r].rec.runId == r
    ensures StoreInv(c, v)
  {
    forall k | k in v.records
      ensures v.records[k].invocationId == k && v.records[k].runId in v.runs
      ensures v.runs[v.records[k].runId].rec == v.records[k]
    {
      assert k in w.records;
    }
    forall r | r in v.runs ensures v.runs[r].rec.runId == r && HeldOrExpired(c, v, v.runs[r].rec) {
      assert HeldOrExpired(c, w, w.runs[r].rec);
    }
  }

  lemma SweepKeepsStore(c: Config, w: World)
    requires StoreInv(c, w)
    ensures StoreInv(c, w.(records := Swept(w.records, w.now, c.options.ttlMs)))
  {
    var v := w.(records := Swept(w.records, w.now, c.options.ttlMs));
    forall r | r in v.runs ensures v.runs[r].rec.runId == r && HeldOrExpired(c, v, v.runs[r].rec) {
      assert HeldOrExpired(c, w, w.runs[r].rec);
    }
  }

  // ---- a request ---------------------------------------------------------------------------

  /** Dropping expired records keeps the store's relation to the runs. */
  lemma DroppingKeepsStore(c: Config, w: World, m: Records)
    requires StoreInv(c, w)
    requires m.Keys <= w.records.Keys
    requires forall k :: k in m ==> m[k] == w.records[k]
    requires forall k :: k in w.records && k !in m ==> ExpiredTerminal(w.records[k], w.now, c.options.ttlMs)
    ensures StoreInv(c, w.(records := m))
  {
    var v := w.(records := m);
    forall r | r in v.runs ensures v.runs[r].rec.runId == r && HeldOrExpired(c, v, v.runs[r].rec) {
      assert HeldOrExpired(c, w, w.runs[r].rec);
    }
  }

  /** The new entry of the log agrees with every earlier run of the same invocation. */
  lemma AnswerConsistent(c: Config, w: World, id: InvocationId, f: Fingerprint, r: RunId, earlier: Entry)
    requires StoreInv(c, w) && Recorded(w, earlier) && earlier.reply.Ran? && earlier.id == id
    ensures Consistent(c, w, earlier, Entry(w.now, id, f, Decide(c, w, id, f, r)))
  {
    var rec := w.runs[earlier.reply.run].rec;
    assert HeldOrExpired(c, w, rec);
  }

  lemma AnswerLogged(c: Config, w: World, v: World, entry: Entry)
    requires LogInv(c, w) && v.log == w.log + [entry] && RecordsLast(w, v)
    requires Recorded(v, entry)
    requires forall i :: 0 <= i < |w.log| && w.log[i].reply.Ran? && w.log[i].id == entry.id ==>
             Consistent(c, w, w.log[i], entry)
    requires forall r :: r in v.runs && r !in w.runs ==> entry.reply == Ran(r, v.runs[r].rec.acceptedAt)
    ensures LogInv(c, v)
  {
    hide HeldOrExpired;
    forall i | 0 <= i < |v.log| ensures Recorded(v, v.log[i]) {
      if i < |w.log| { assert Recorded(w, w.log[i]); }
    }
    forall i, j | 0 <= i < j < |v.log| && v.log[i].reply.Ran? && v.log[i].id == v.log[j].id
      ensures Consistent(c, v, v.log[i], v.log[j])
    {
      assert Recorded(w, w.log[i]);
      assert Consistent(c, w, w.log[i], v.log[j]);
    }
    forall r | r in v.runs ensures exists i :: 0 <= i < |v.log| && v.log[i].reply == Ran(r, v.runs[r].rec.acceptedAt) {
      if r in w.runs {
        var i :| 0 <= i < |w.log| && w.log[i].reply == Ran(r, w.runs[r].rec.acceptedAt);
        assert v.log[i] == w.log[i];
      } else {
        assert v.log[|w.log|] == entry;
      }
    }
  }

  lemma RoomDropsExpired(c: Config, w: World, id: InvocationId)
    ensures var m := Room(c.options, w.records, id, w.now);
            && m.Keys <= w.records.Keys && (forall k :: k in m ==> m[k] == w.records[k])
            && (forall k :: k in w.records && k !in m ==> ExpiredTerminal(w.records[k], w.now, c.options.ttlMs))
            && (id in m ==> !ExpiredTerminal(w.records[id], w.now, c.options.ttlMs))
  {}

  /** After the store has answered: either nothing was created, or the new record sits under a free key. */
  lemma RecordsAfterShape(c: Config, w: World, id: InvocationId, f: Fingerprint, r: RunId) returns (m: Records)
    requires StoreInv(c, w)
    ensures StoreInv(c, w.(records := m))
    ensures var rec := NewRecord(id, f, r, w.now, w.now);
            var reply := Decide(c, w, id, f, r);
            && (reply.Ran? ==> reply == Ran(r, w.now) && id !in m && RecordsAfter(c, w, id, f, r) == m[id := rec])
            && (!reply.Ran? ==> RecordsAfter(c, w, id, f, r) == m)
  {
    hide StoreInv, Decide, RecordsAfter, Room;
    var m1 := AfterLookup(w.records, id, w.now, c.options.ttlMs);
    var w1 := w.(records := m1);
    var m2 := Room(c.options, m1, id, w.now);
    DroppingKeepsStore(c, w, m1);
    RoomDropsExpired(c, w1, id);
    DroppingKeepsStore(c, w1, m2);
    assert w1.(records := m2) == w.(records := m2);
    CreateShape(c, w, id, f, r);
    m := if Decide(c, w, id, f, r).Ran? || Decide(c, w, id, f, r).CapacityFull? then m2 else m1;
  }

  lemma CreateShape(c: Config, w: World, id: InvocationId, f: Fingerprint, r: RunId)
    ensures var rec := NewRecord(id, f, r, w.now, w.now);
            var m1 := AfterLookup(w.records, id, w.now, c.options.ttlMs);
            var m2 := Room(c.options, m1, id, w.now);
            var reply := Decide(c, w, id, f, r);
            && (reply.Ran? ==> reply == Ran(r, w.now) && id !in m2 && RecordsAfter(c, w, id, f, r) == m2[id := rec])
            && (reply.CapacityFull? ==> RecordsAfter(c, w, id, f, r) == m2)
            && (!reply.Ran? && !reply.CapacityFull? ==> RecordsAfter(c, w, id, f, r) == m1)
  {
    hide Swept;
    var m1 := AfterLookup(w.records, id, w.now, c.options.ttlMs);
    var reply := Decide(c, w, id, f, r);
    if reply.Ran? || reply.CapacityFull? {
      assert id !in m1;
      assert !LiveUnder(c.options, m1, id, w.now);
      NothingToDrop(c, m1, id, w.now);
    }
  }

  lemma NothingToDrop(c: Config, m: Records, id: InvocationId, nowMs: int)
    requires id !in m
    ensures id !in Room(c.options, m, id, nowMs)
  {}

  /** `w` became `v` by one new run, recorded under its key. */
  ghost predicate Joins(w: World, v: World, rec: Rec, r: RunId) {
    && v.now == w.now && v.log == w.log && v.runs.Keys == w.runs.Keys + {r}
    && (forall q :: q in w.runs ==> v.runs[q] == w.runs[q])
    && SameIdentity(rec, v.runs[r].rec)
    && v.records == w.records[rec.invocationId := v.runs[r].rec]
  }

  lemma AcceptRecords(c: Config, w: World, rec: Rec, r: RunId)
    requires r !in w.runs && rec.runId == r && rec.invocationId in w.records && w.records[rec.invocationId] == rec
    ensures Joins(w, Accept(c, w, rec, r), rec, r)
  {
    hide Admits, AfterEnqueue, Joins;
    var v := Accept(c, w, rec, r);
    assert v.runs == w.runs[r := v.runs[r]];
    assert v.records == w.records[rec.invocationId := v.runs[r].rec];
    JoinsMeaning(w, v, rec, r);
  }

  lemma JoinsMeaning(w: World, v: World, rec: Rec, r: RunId)
    requires r in v.runs && v.now == w.now && v.log == w.log && r !in w.runs
    requires v.runs == w.runs[r := v.runs[r]] && SameIdentity(rec, v.runs[r].rec)
    requires v.records == w.records[rec.invocationId := v.runs[r].rec]
    ensures Joins(w, v, rec, r)
  {}

  lemma NewRunKeepsStore(c: Config, w: World, v: World, id: InvocationId, r: RunId)
    requires StoreInv(c, w) && id !in w.records && r !in w.runs
    requires v.now == w.now && v.runs.Keys == w.runs.Keys + {r}
    requires forall q :: q in w.runs ==> v.runs[q] == w.runs[q]
    requires v.runs[r].rec.invocationId == id && v.runs[r].rec.runId == r
    requires v.records == w.records[id := v.runs[r].rec]
    ensures StoreInv(c, v)
  {
    forall q | q in v.runs ensures v.runs[q].rec.runId == q && HeldOrExpired(c, v, v.runs[q].rec) {
      if q in w.runs { assert HeldOrExpired(c, w, w.runs[q].rec); }
    }
  }

  lemma HandleKeepsStore(c: Config, w: World, id: InvocationId, f: Fingerprint, r: RunId, sent: bool)
    requires StoreInv(c, w) && LogInv(c, w) && r !in w.runs
    ensures StoreInv(c, Handle(c, w, id, f, r, sent)) && LogInv(c, Handle(c, w, id, f, r, sent))
  {
    hide StoreInv, LogInv, Decide, RecordsAfter, Accept, TrackEvent, Consistent;
    var reply := Decide(c, w, id, f, r);
    var entry := Entry(w.now, id, f, reply);
    var m := RecordsAfterShape(c, w, id, f, r);
    AnswersConsistent(c, w, id, f, r);
    if reply.Ran? {
      RanKeepsStore(c, w, id, f, r, sent, m);
    } else {
      var w1 := w.(records := RecordsAfter(c, w, id, f, r), log := w.log + [entry]);
      StoreIgnoresLog(c, w.(records := m), w1);
      AnswerLogged(c, w, w1, entry);
    }
  }

  lemma AnswersConsistent(c: Config, w: World, id: InvocationId, f: Fingerprint, r: RunId)
    requires StoreInv(c, w) && LogInv(c, w)
    ensures forall i :: 0 <= i < |w.log| ==> Recorded(w, w.log[i])
    ensures forall i :: 0 <= i < |w.log| && w.log[i].reply.Ran? && w.log[i].id == id ==>
              Consistent(c, w, w.log[i], Entry(w.now, id, f, Decide(c, w, id, f, r)))
  {
    hide StoreInv, Decide, Consistent;
    forall i | 0 <= i < |w.log| && w.log[i].reply.Ran? && w.log[i].id == id
      ensures Consistent(c, w, w.log[i], Entry(w.now, id, f, Decide(c, w, id, f, r)))
    {
      assert Recorded(w, w.log[i]);
      AnswerConsistent(c, w, id, f, r, w.log[i]);
    }
  }

  lemma RanKeepsStore(c: Config, w: World, id: InvocationId, f: Fingerprint, r: RunId, sent: bool, m: Records)
    requires StoreInv(c, w) && LogInv(c, w) && r !in w.runs
    requires Decide(c, w, id, f, r) == Ran(r, w.now)
    requires StoreInv(c, w.(records := m)) && id !in m
    requires RecordsAfter(c, w, id, f, r) == m[id := NewRecord(id, f, r, w.now, w.now)]
    requires forall i :: 0 <= i < |w.log| && w.log[i].reply.Ran? && w.log[i].id == id ==>
               Consistent(c, w, w.log[i], Entry(w.now, id, f, Ran(r, w.now)))
    ensures StoreInv(c, Handle(c, w, id, f, r, sent)) && LogInv(c, Handle(c, w, id, f, r, sent))
  {
    var rec := NewRecord(id, f, r, w.now, w.now);
    var entry := Entry(w.now, id, f, Ran(r, w.now));
    var w1 := w.(records := m[id := rec], log := w.log + [entry]);
    HandleAccepts(c, w, id, f, r, sent, m);
    AcceptedKeepsStore(c, w, w1, rec, r, m, entry);
    hide Handle;
    hide Accept;
    hide StoreInv;
    hide LogInv;
    StoreIgnoresWork(c, Accept(c, w1, rec, r));
  }

  lemma HandleAccepts(c: Config, w: World, id: InvocationId, f: Fingerprint, r: RunId, sent: bool, m: Records)
    requires Decide(c, w, id, f, r) == Ran(r, w.now)
    requires RecordsAfter(c, w, id, f, r) == m[id := NewRecord(id, f, r, w.now, w.now)]
    ensures var rec := NewRecord(id, f, r, w.now, w.now);
            var w1 := w.(records := m[id := rec], log := w.log + [Entry(w.now, id, f, Ran(r, w.now))]);
            Handle(c, w, id, f, r, sent) == if sent then TrackEvent(Accept(c, w1, rec, r)) else Accept(c, w1, rec, r)
  {
    hide Decide;
    hide RecordsAfter;
    hide Accept;
  }

  lemma AcceptedKeepsStore(c: Config, w: World, w1: World, rec: Rec, r: RunId, m: Records, entry: Entry)
    requires StoreInv(c, w) && LogInv(c, w) && r !in w.runs
    requires rec.runId == r && rec.acceptedAt == w.now
    requires StoreInv(c, w.(records := m)) && rec.invocationId !in m
    requires entry == Entry(w.now, rec.invocationId, rec.fingerprint, Ran(r, w.now))
    requires w1 == w.(records := m[rec.invocationId := rec], log := w.log + [entry])
    requires forall i :: 0 <= i < |w.log| && w.log[i].reply.Ran? && w.log[i].id == entry.id ==>
             Consistent(c, w, w.log[i], entry)
    ensures StoreInv(c, Accept(c, w1, rec, r)) && LogInv(c, Accept(c, w1, rec, r))
  {
    AcceptRecords(c, w1, rec, r);
    JoinKeepsStore(c, w, w1, Accept(c, w1, rec, r), rec, r, m);
    JoinKeepsLog(c, w, w1, Accept(c, w1, rec, r), rec, r, entry);
  }

  lemma JoinKeepsStore(c: Config, w: World, w1: World, v: World, rec: Rec, r: RunId, m: Records)
    requires StoreInv(c, w.(records := m)) && r !in w.runs && rec.runId == r && rec.invocationId !in m
    requires w1.runs == w.runs && w1.now == w.now && w1.records == m[rec.invocationId := rec]
    requires Joins(w1, v, rec, r)
    ensures StoreInv(c, v)
  {
    hide StoreInv;
    assert v.records == m[rec.invocationId := v.runs[r].rec];
    NewRunKeepsStore(c, w.(records := m), v, rec.invocationId, r);
  }

  lemma JoinKeepsLog(c: Config, w: World, w1: World, v: World, rec: Rec, r: RunId, entry: Entry)
    requires LogInv(c, w) && r !in w.runs && rec.acceptedAt == w.now
    requires w1.runs == w.runs && w1.log == w.log + [entry]
    requires entry == Entry(w.now, rec.invocationId, rec.fingerprint, Ran(r, w.now))
    requires Joins(w1, v, rec, r)
    requires forall i :: 0 <= i < |w.log| && w.log[i].reply.Ran? && w.log[i].id == entry.id ==>
             Consistent(c, w, w.log[i], entry)
    ensures LogInv(c, v)
  {
    hide LogInv;
    hide Consistent;
    AnswerLogged(c, w, v, entry);
  }

  lemma StoreIgnoresWork(c: Config, w: World)
    requires StoreInv(c, w) && LogInv(c, w)
    ensures StoreInv(c, TrackEvent(w)) && LogInv(c, TrackEvent(w))
  {
    SameRecordsKeep(c, w, TrackEvent(w));
  }

  lemma StoreIgnoresLog(c: Config, w: World, v: World)
    requires StoreInv(c, w) && v.records == w.records && v.runs == w.runs && v.now == w.now
    ensures StoreInv(c, v)
  {
    forall r | r in v.runs ensures v.runs[r].rec.runId == r && HeldOrExpired(c, v, v.runs[r].rec) {
      assert HeldOrExpired(c, w, w.runs[r].rec);
    }
  }

  // ---- every turn, every run ------------------------------------------------------------------

  lemma FillSameRecords(c: Config, w: World, v: World)
    requires SameRecords(w, v)
    ensures SameRecords(w, Fill(c, v))
  {
    hide Started, AfterDrain;
    assert Fill(c, v).runs.Keys == v.runs.Keys;
  }

  lemma VacatedSameRecords(w: World, r: RunId)
    requires r in w.runs
    ensures SameRecords(w, Vacated(w, r))
  {}

  lemma AsideKeepsStore(c: Config, w: World, e: Turn)
    requires StoreInv(c, w) && LogInv(c, w) && Aside(e)
    ensures StoreInv(c, AsideStep(c, w, e)) && LogInv(c, AsideStep(c, w, e))
  {
    hide StoreInv, LogInv;
    var v := AsideStep(c, w, e);
    if e.Sweep? {
      SweepKeepsStore(c, w);
      SameLogKeeps(c, w, v);
    } else {
      hide AsideStep;
      AsideStays(c, w, e);
      AsideWork(c, w, e);
      SameRecordsKeep(c, w, v);
    }
  }

  lemma StepKeepsStore(c: Config, w: World, e: Turn)
    requires ProtocolInv(w) && StoreInv(c, w) && LogInv(c, w) && Enabled(w, e)
    ensures StoreInv(c, Step(c, w, e)) && LogInv(c, Step(c, w, e))
  {
    hide RunsInv, QueueInv, TrackInv, StopInv, LifeInv, StoreInv, LogInv;
    hide RunStep, Handle, BeginShutdown, Fill, Vacated, AsideStep, Step, Enabled;
    StepByKind(c, w, e);
    if Aside(e) {
      AsideKeepsStore(c, w, e);
    } else if OfOneRun(e) {
      RunStepKeepsStore(c, w, e);
      RunStepRecords(w, e);
      SameLogKeeps(c, w, RunStep(w, e));
    } else if e.HandlerTurn? {
      HandleKeepsStore(c, w, e.id, e.fingerprint, e.run, e.acceptedSent);
    } else if e.ImmediateFires? {
      FillSameRecords(c, w, w.(sched := w.sched.(drainScheduled := false)));
      SameRecordsKeep(c, w, Step(c, w, e));
    } else if e.SlotReleased? {
      VacatedSameRecords(w, e.run);
      FillSameRecords(c, w, Vacated(w, e.run));
      SameRecordsKeep(c, w, Step(c, w, e));
    } else if e.ShutdownBegins? {
      BeginShutdownKeepsStore(c, w);
    } else {
      StopKeepsStore(c, w, e);
    }
  }

  lemma StopKeepsStore(c: Config, w: World, e: Turn)
    requires RunsInv(w) && QueueInv(w) && StoreInv(c, w) && LogInv(c, w) && Enabled(w, e) && e.StopCalled?
    ensures StoreInv(c, Step(c, w, e)) && LogInv(c, Step(c, w, e))
  {
    hide RunsInv, QueueInv, StoreInv, LogInv, BeginShutdown, Step, Enabled;
    StopByLife(c, w, e);
    var w1 := w.(life := Stopping);
    NoRunChanges(w, w1);
    SameRecordsKeep(c, w, w1);
    SameRecordsKeep(c, w, w.(life := Stopped));
    BeginShutdownKeepsStore(c, w1);
  }

  lemma {:induction false} ReachableStore(c: Config, turns: seq<Turn>)
    requires Execute(c, turns).Some?
    ensures StoreInv(c, Execute(c, turns).value) && LogInv(c, Execute(c, turns).value)
    decreases |turns|
  {
    if turns != [] {
      var before := turns[..|turns| - 1];
      ReachableStore(c, before);
      ReachableProtocol(c, before);
      StepKeepsStore(c, Execute(c, before).value, turns[|turns| - 1]);
    }
  }

  /** Once a request has started a run, every later request for the same invocation is told the same run and
      acceptance time if it is the same request, is refused if it differs, and reaches neither answer only when
      the run's record had been terminal for at least ttlMs. */
  lemma AnswersAreIdempotent(c: Config, turns: seq<Turn>, i: nat, j: nat)
    requires Execute(c, turns).Some?
    requires i < j < |Execute(c, turns).value.log|
    requires Execute(c, turns).value.log[i].reply.Ran?
             && Execute(c, turns).value.log[i].id == Execute(c, turns).value.log[j].id
    ensures var w := Execute(c, turns).value;
            var first, later := w.log[i], w.log[j];
            first.reply.run in w.runs &&
            var rec := w.runs[first.reply.run].rec;
            || (later.reply == Repeated(first.reply.run, first.reply.at) && later.fingerprint == first.fingerprint)
            || (later.reply == Conflicted && later.fingerprint != first.fingerprint)
            || (Terminal(rec.state) && rec.updatedAtMs + c.options.ttlMs <= later.nowMs)
  {
    ReachableStore(c, turns);
    var w := Execute(c, turns).value;
    assert Recorded(w, w.log[i]);
    assert Consistent(c, w, w.log[i], w.log[j]);
  }

  /** A second run of an invocation starts no sooner than ttlMs after the first became terminal. */
  lemma SecondRunWaitsForExpiry(c: Config, turns: seq<Turn>, i: nat, j: nat)
    requires Execute(c, turns).Some?
    requires i < j < |Execute(c, turns).value.log|
    requires Execute(c, turns).value.log[i].reply.Ran? && Execute(c, turns).value.log[j].reply.Ran?
    requires Execute(c, turns).value.log[i].id == Execute(c, turns).value.log[j].id
    ensures var w := Execute(c, turns).value;
            && w.log[i].reply.run in w.runs
            && Terminal(w.runs[w.log[i].reply.run].rec.state)
            && w.runs[w.log[i].reply.run].rec.updatedAtMs + c.options.ttlMs <= w.log[j].nowMs
  {
    AnswersAreIdempotent(c, turns, i, j);
  }

  /** Two runs of one invocation are never both unfinished, and no run starts without being logged as started. */
  lemma OneLiveRun(c: Config, turns: seq<Turn>, r: RunId, q: RunId)
    requires Execute(c, turns).Some?
    ensures var w := Execute(c, turns).value;
            (r in w.runs && q in w.runs && r != q && w.runs[r].rec.invocationId == w.runs[q].rec.invocationId) ==>
              (Terminal(w.runs[r].rec.state) || Terminal(w.runs[q].rec.state))
    ensures var w := Execute(c, turns).value;
            r in w.runs ==> exists i :: 0 <= i < |w.log| && w.log[i].reply == Ran(r, w.runs[r].rec.acceptedAt)
  {
    hide Execute, QueueInv, TrackInv, StopInv, LifeInv;
    ReachableStore(c, turns);
    ReachableProtocol(c, turns);
    var w := Execute(c, turns).value;
    if r in w.runs && q in w.runs && r != q {
      RunOf(w, r);
      RunOf(w, q);
      assert HeldOrExpired(c, w, w.runs[r].rec) && HeldOrExpired(c, w, w.runs[q].rec);
    }
  }
}
