// Which edge of a structural key the runs carry, read off the inputs alone.
module SubdomainEdges {
  import opened Wrappers
  import opened NodeLists
  import opened TestedBy
  import opened EdgeTable
  import opened MergeSubdomainGraphs
  import opened SubdomainHistories

  /** The edges of one key, in the order in which they are read. */
  function OfKey(s: seq<Edge>, k: Key): seq<Edge> {
    if s == [] then []
    else
      var e := s[|s| - 1];
      OfKey(s[..|s| - 1], k) + if KeyOf(e) == k then [e] else []
  }

  lemma {:induction false} OfKeyHas(s: seq<Edge>, k: Key)
    ensures forall e :: e in OfKey(s, k) <==> e in s && KeyOf(e) == k
  {
    if s != [] {
      var t := s[..|s| - 1];
      OfKeyHas(t, k);
      assert forall x :: x in s <==> x in t || x == s[|t|];
    }
  }

  lemma OfKeyMore(s: seq<Edge>, e: Edge, k: Key)
    ensures OfKey(s + [e], k) == OfKey(s, k) + if KeyOf(e) == k then [e] else []
  {
    assert (s + [e])[..|s|] == s;
  }

  lemma {:induction false} OfKeyConcat(a: seq<Edge>, b: seq<Edge>, k: Key)
    ensures OfKey(a + b, k) == OfKey(a, k) + OfKey(b, k)
  {
    if b == [] {
      assert a + b == a;
    } else {
      hide OfKey;
      var c, e := b[..|b| - 1], b[|b| - 1];
      OfKeyConcat(a, c, k);
      OfKeyMore(a + c, e, k);
      OfKeyMore(c, e, k);
      assert b == c + [e] && a + b == a + c + [e];
      Regroup(OfKey(a, k), OfKey(c, k), if KeyOf(e) == k then [e] else []);
    }
  }

  lemma Regroup(a: seq<Edge>, b: seq<Edge>, c: seq<Edge>)
    ensures a + b + c == a + (b + c)
  {}

  /** What `weight > existing.weight` leaves of the edges of one key. */
  function Winner(l: seq<Edge>): Option<Edge> {
    if l == [] then None
    else
      var prior, e := Winner(l[..|l| - 1]), l[|l| - 1];
      if prior.None? || Heavier(e.weight, prior.value.weight) then Some(e) else prior
  }

  /** One table decides each key by itself. */
  lemma {:induction false} TableByKey(s: seq<Edge>, k: Key)
    ensures var t := Merged(EDGES, s);
            (k in t.byKey <==> Winner(OfKey(s, k)).Some?) && (k in t.byKey ==> Winner(OfKey(s, k)) == Some(t.byKey[k]))
  {
    hide Heavier;
    if s != [] {
      var n := |s| - 1;
      TableByKey(s[..n], k);
      assert Merged(EDGES, s) == Put(EDGES, Merged(EDGES, s[..n]), s[n]);
      var l := OfKey(s[..n], k);
      assert (l + [s[n]])[..|l|] == l;
      assert OfKey(s, k) == if KeyOf(s[n]) == k then l + [s[n]] else l;
      MergedSound(EDGES, s[..n]);
    }
  }

  function Optional(e: Option<Edge>): seq<Edge> {
    if e.None? then [] else [e.value]
  }

  /** What a key carries after the runs: while an end is missing the carried edge is read last, once both
      ends are there it is read first. */
  function Kept(h: History, k: Key): Option<Edge> {
    if h == [] then None
    else
      var n := |h| - 1;
      var prior, brought := Optional(Kept(h[..n], k)), OfKey(FlatEdges(h[n]), k);
      Winner(if BothArrived(h[..n], k) then prior + brought else brought + prior)
  }

  // ---- the runs carry it -------------------------------------------------------------------------

  predicate OnceEach(s: seq<Edge>) {
    forall i, j :: 0 <= i < j < |s| ==> KeyOf(s[i]) != KeyOf(s[j])
  }

  function EdgesIn(report: seq<Dropped>): (r: seq<Edge>)
    ensures |r| == |report| && forall i :: 0 <= i < |r| ==> r[i] == report[i].edge
  {
    seq(|report|, i requires 0 <= i < |report| => report[i].edge)
  }

  lemma OnceMore(s: seq<Edge>, e: Edge)
    requires OnceEach(s) && forall x :: x in s ==> KeyOf(x) != KeyOf(e)
    ensures OnceEach(s + [e])
  {
    assert forall i :: 0 <= i < |s| ==> s[i] in s;
  }

  lemma {:induction false} ValidKeepsOnce(nodes: seq<GraphNode>, s: seq<Edge>)
    requires OnceEach(s)
    ensures OnceEach(ValidOf(nodes, s))
  {
    hide BothEnds, KeyOf;
    if s != [] {
      var n := |s| - 1;
      ValidKeepsOnce(nodes, s[..n]);
      assert forall x :: x in s[..n] ==> KeyOf(x) != KeyOf(s[n]);
      OnceMore(ValidOf(nodes, s[..n]), s[n]);
    }
  }

  lemma DroppedMore(nodes: seq<GraphNode>, s: seq<Edge>)
    requires s != []
    ensures var n := |s| - 1;
            EdgesIn(DroppedOf(nodes, s)) ==
            EdgesIn(DroppedOf(nodes, s[..n])) + if BothEnds(nodes, s[n]) then [] else [s[n]]
  {
    hide BothEnds, HasNode;
  }

  lemma {:induction false} DroppedKeepsOnce(nodes: seq<GraphNode>, s: seq<Edge>)
    requires OnceEach(s)
    ensures OnceEach(EdgesIn(DroppedOf(nodes, s)))
    ensures forall x :: x in EdgesIn(DroppedOf(nodes, s)) ==> x in s
  {
    hide BothEnds, KeyOf, DroppedOf, EdgesIn;
    if s == [] {
      NothingDropped(nodes);
    } else {
      var n := |s| - 1;
      DroppedKeepsOnce(nodes, s[..n]);
      DroppedMore(nodes, s);
      assert forall x :: x in s[..n] ==> KeyOf(x) != KeyOf(s[n]);
      OnceMore(EdgesIn(DroppedOf(nodes, s[..n])), s[n]);
    }
  }

  lemma NothingDropped(nodes: seq<GraphNode>)
    ensures EdgesIn(DroppedOf(nodes, [])) == []
  {}

  lemma {:induction false} PendingKeepsOnce(report: seq<Dropped>)
    requires OnceEach(EdgesIn(report))
    ensures OnceEach(Pending(report))
    ensures forall e :: e in Pending(report) ==> e in EdgesIn(report)
  {
    hide KeyOf;
    if report != [] {
      var n := |report| - 1;
      var t, e := report[..n], report[n].edge;
      assert EdgesIn(report) == EdgesIn(t) + [e];
      assert forall i :: 0 <= i < n ==> EdgesIn(report)[i] == EdgesIn(t)[i];
      PendingKeepsOnce(t);
      assert forall x :: x in EdgesIn(t) ==> KeyOf(x) != KeyOf(e);
      OnceMore(Pending(t), e);
    }
  }

  /** Neither the saved graph nor the report has two edges of one key. */
  lemma {:induction false} FilesHoldOnce(h: History)
    ensures OnceEach(EdgesOf(After(h))) && OnceEach(Pending(After(h).report))
  {
    hide KeyOf, FlatEdges, Merged, BothEnds;
    if h != [] {
      var n := |h| - 1;
      FilesHoldOnce(h[..n]);
      if h[n] == [] {
        AfterNothing(After(h[..n]));
      } else {
        var s := FlatEdges(Inputs(After(h[..n]), h[n]));
        MergedSound(EDGES, s);
        var all := Values(EDGES, Merged(EDGES, s));
        assert OnceEach(all);
        ValidKeepsOnce(NodesOf(After(h)), all);
        DroppedKeepsOnce(NodesOf(After(h)), all);
        PendingKeepsOnce(After(h).report);
      }
    }
  }

  lemma {:induction false} OnceIsOptional(s: seq<Edge>, k: Key, e: Option<Edge>)
    requires OnceEach(s)
    requires forall x :: x in s && KeyOf(x) == k <==> e == Some(x)
    ensures OfKey(s, k) == Optional(e)
  {
    if s != [] {
      var n := |s| - 1;
      assert forall x :: x in s <==> x in s[..n] || x == s[n];
      assert forall x :: x in s[..n] ==> KeyOf(x) != KeyOf(s[n]);
      OnceIsOptional(s[..n], k, if KeyOf(s[n]) == k then None else e);
    }
  }

  /** Exactly the kept edge is carried. */
  lemma {:induction false} KeptIsCarried(h: History, k: Key)
    requires Structural(k)
    ensures forall e :: KeyOf(e) == k ==> (Carries(After(h), e) <==> Kept(h, k) == Some(e))
  {
    hide FlatEdges, Pending, BothEnds, Merged, AfterRun, Winner, OfKey, BothArrived, Everything;
    if h == [] {
      NothingCarried();
    } else {
      var n := |h| - 1;
      var was := After(h[..n]);
      KeptIsCarried(h[..n], k);
      if h[n] == [] {
        AfterNothing(was);
        assert After(h) == was;
        KeptUnchanged(h, k);
      } else {
        RunDecides(was, h[n]);
        ReadingOrder(h, k);
        TableByKey(EdgesOf(was) + FlatEdges(h[n]) + Pending(was.report), k);
      }
    }
  }

  lemma NothingCarried()
    ensures forall e :: !Carries(After([]), e)
  {}

  lemma AloneWins(e: Option<Edge>, k: Key)
    ensures Winner(Optional(e)) == e && OfKey([], k) == []
  {
    if e.Some? { assert [e.value][..0] == []; }
  }

  lemma KeptUnchanged(h: History, k: Key)
    requires h != [] && h[|h| - 1] == []
    ensures Kept(h, k) == Kept(h[..|h| - 1], k)
  {
    hide BothArrived, FlatEdges, Winner, OfKey;
    FlatNone();
    AloneWins(Kept(h[..|h| - 1], k), k);
    var prior := Optional(Kept(h[..|h| - 1], k));
    assert prior + [] == prior && [] + prior == prior;
  }

  lemma {:induction false} WinnerIsIn(l: seq<Edge>)
    ensures Winner(l).None? <==> l == []
    ensures Winner(l).Some? ==> Winner(l).value in l
  {
    if l != [] { WinnerIsIn(l[..|l| - 1]); }
  }

  lemma {:induction false} KeptHasKey(h: History, k: Key)
    ensures Kept(h, k).Some? ==> KeyOf(Kept(h, k).value) == k
  {
    hide BothArrived;
    if h != [] {
      var n := |h| - 1;
      var prior, brought := Optional(Kept(h[..n], k)), OfKey(FlatEdges(h[n]), k);
      KeptHasKey(h[..n], k);
      OfKeyHas(FlatEdges(h[n]), k);
      WinnerIsIn(prior + brought);
      WinnerIsIn(brought + prior);
    }
  }

  /** In which order a run reads the edges of one key. */
  lemma ReadingOrder(h: History, k: Key)
    requires Structural(k) && h != []
    requires var was := After(h[..|h| - 1]);
             forall e :: KeyOf(e) == k ==> (Carries(was, e) <==> Kept(h[..|h| - 1], k) == Some(e))
    ensures var t := h[..|h| - 1];
            var was := After(t);
            var prior, brought := Optional(Kept(t, k)), OfKey(FlatEdges(h[|h| - 1]), k);
            OfKey(EdgesOf(was) + FlatEdges(h[|h| - 1]) + Pending(was.report), k) ==
            if BothArrived(t, k) then prior + brought else brought + prior
  {
    hide FlatEdges, Pending, Merged, AfterRun, Kept, OfKey, Everything, After, NodesOf, EdgesOf;
    var t := h[..|h| - 1];
    var was := After(t);
    CarriedSplit(t);
    FilesHoldOnce(t);
    KeptHasKey(t, k);
    NodesArrived(t, k.source);
    NodesArrived(t, k.target);
    assert forall e :: KeyOf(e) == k ==> (BothEnds(NodesOf(was), e) <==> BothArrived(t, k));
    OnceIsOptional(EdgesOf(was), k, if BothArrived(t, k) then Kept(t, k) else None);
    OnceIsOptional(Pending(was.report), k, if BothArrived(t, k) then None else Kept(t, k));
    OfKeyConcat(EdgesOf(was) + FlatEdges(h[|h| - 1]), Pending(was.report), k);
    OfKeyConcat(EdgesOf(was), FlatEdges(h[|h| - 1]), k);
  }

  // ---- the earliest of the heaviest ---------------------------------------------------------------

  /** The first edge of weight `w`. */
  function EarliestOf(l: seq<Edge>, w: real): (r: Option<Edge>)
    ensures r.Some? ==> r.value in l && r.value.weight == Num(w)
    ensures r.None? ==> forall e :: e in l ==> e.weight != Num(w)
  {
    if l == [] then None
    else
      var prior, e := EarliestOf(l[..|l| - 1], w), l[|l| - 1];
      assert forall x :: x in l <==> x in l[..|l| - 1] || x == e;
      if prior.Some? then prior else if e.weight == Num(w) then Some(e) else None
  }

  lemma {:induction false} EarliestConcat(a: seq<Edge>, b: seq<Edge>, w: real)
    ensures EarliestOf(a + b, w) == if EarliestOf(a, w).Some? then EarliestOf(a, w) else EarliestOf(b, w)
  {
    if b == [] {
      assert a + b == a;
    } else {
      var n := |b| - 1;
      assert (a + b)[..|a| + n] == a + b[..n] && (a + b)[|a| + n] == b[n];
      EarliestConcat(a, b[..n], w);
    }
  }

  predicate AtMost(l: seq<Edge>, w: real) {
    forall e :: e in l && e.weight.Num? ==> e.weight.value <= w
  }

  /** A NaN read first blinds the key; otherwise the earliest of the greatest weight wins and every NaN is ignored. */
  lemma {:induction false} WinnerByFirst(l: seq<Edge>)
    requires l != []
    ensures Winner(l).Some?
    ensures l[0].weight.NaN? ==> Winner(l) == Some(l[0])
    ensures l[0].weight.Num? ==>
              && Winner(l).value.weight.Num?
              && AtMost(l, Winner(l).value.weight.value)
              && EarliestOf(l, Winner(l).value.weight.value) == Winner(l)
  {
    var n := |l| - 1;
    assert forall x :: x in l <==> x in l[..n] || x == l[n];
    if n > 0 {
      WinnerByFirst(l[..n]);
    }
  }

  // ---- what the runs remember of a key ------------------------------------------------------------

  /** The edges of the key that run `i` brings. */
  function Brought(h: History, i: nat, k: Key): seq<Edge>
    requires i < |h|
  {
    OfKey(FlatEdges(h[i]), k)
  }

  predicate Brings(h: History, i: nat, k: Key, w: real) {
    i < |h| && EarliestOf(Brought(h, i, k), w).Some?
  }

  /** Run `i` finds the key waiting: before it some end had not arrived. */
  predicate Waiting(h: History, i: nat, k: Key)
    requires i <= |h|
  {
    !BothArrived(h[..i], k)
  }

  /** `Blind(run)`: the NaN that this run read first is carried. `Since(run)`: the weights brought from that run on
      count, none before. */
  datatype Memory = Unseen | Blind(run: nat) | Since(run: nat)

  function MemoryOf(h: History, k: Key): Memory {
    if h == [] then Unseen
    else
      var n := |h| - 1;
      var prior, brought := MemoryOf(h[..n], k), Brought(h, n, k);
      if brought == [] || (!Waiting(h, n, k) && !prior.Unseen?) then prior
      else if brought[0].weight.NaN? then Blind(n)
      else if prior.Since? then prior
      else Since(n)
  }

  /** The run that decides for weight `w` among the runs from `from` on: the last one that found the key waiting
      and brought `w`, or, when there is none, the first later one that brought it. */
  predicate Decides(h: History, k: Key, w: real, from: nat, d: nat) {
    && from <= d < |h| && Brings(h, d, k, w)
    && (Waiting(h, d, k) ==> forall j :: d < j < |h| && Waiting(h, j, k) ==> !Brings(h, j, k, w))
    && (!Waiting(h, d, k) ==> forall j :: from <= j < d ==> !Brings(h, j, k, w))
  }

  lemma {:induction false} ArrivedFor(h: History, i: nat, j: nat, id: string)
    requires i <= j <= |h| && Arrived(h[..i], id)
    ensures Arrived(h[..j], id)
  {
    hide Arrived;
    if i < j {
      ArrivedFor(h, i, j - 1, id);
      assert h[..j][..j - 1] == h[..j - 1];
      ArrivedStays(h[..j], id);
    }
  }

  lemma WaitingBefore(h: History, i: nat, j: nat, k: Key)
    requires i <= j <= |h| && Waiting(h, j, k)
    ensures Waiting(h, i, k)
  {
    hide Arrived;
    if !Waiting(h, i, k) {
      ArrivedFor(h, i, j, k.source);
      ArrivedFor(h, i, j, k.target);
    }
  }

  /** There is at most one deciding run. */
  lemma DecidesOnce(h: History, k: Key, w: real, from: nat, a: nat, b: nat)
    requires Decides(h, k, w, from, a) && Decides(h, k, w, from, b)
    ensures a == b
  {
    hide Waiting, Brings;
    var x, y := if a < b then a else b, if a < b then b else a;
    if Waiting(h, y, k) { WaitingBefore(h, x, y, k); }
  }

  lemma PrefixReads(h: History, i: nat, k: Key)
    requires i < |h|
    ensures Waiting(h[..|h| - 1], i, k) == Waiting(h, i, k)
    ensures i < |h| - 1 ==> Brought(h[..|h| - 1], i, k) == Brought(h, i, k)
    ensures i < |h| - 1 ==> forall w :: Brings(h[..|h| - 1], i, k, w) == Brings(h, i, k, w)
  {
    assert h[..|h| - 1][..i] == h[..i];
  }

  /** What `KeptByMemory` says of a key that remembers. */
  predicate Remembers(h: History, k: Key, from: nat, c: Edge, d: nat) {
    && c.weight.Num?
    && Decides(h, k, c.weight.value, from, d)
    && EarliestOf(Brought(h, d, k), c.weight.value) == Some(c)
    && forall i :: from <= i < |h| ==> AtMost(Brought(h, i, k), c.weight.value)
  }

  /** A run that brings nothing heavier, and nothing as heavy while the key waits, leaves the decision. */
  lemma MemoryStays(h: History, k: Key, from: nat, c: Edge, d: nat)
    requires h != [] && Remembers(h[..|h| - 1], k, from, c, d)
    requires AtMost(Brought(h, |h| - 1, k), c.weight.value)
    requires Waiting(h, |h| - 1, k) ==> EarliestOf(Brought(h, |h| - 1, k), c.weight.value).None?
    ensures Remembers(h, k, from, c, d)
  {
    hide Waiting, Brought, AtMost;
    var n := |h| - 1;
    forall i | 0 <= i < n
      ensures Waiting(h[..n], i, k) == Waiting(h, i, k) && Brought(h[..n], i, k) == Brought(h, i, k)
      ensures Brings(h[..n], i, k, c.weight.value) == Brings(h, i, k, c.weight.value)
    {
      PrefixReads(h, i, k);
    }
  }

  /** A run that brings something heavier, or as heavy while the key waits, decides. */
  lemma MemoryMoves(h: History, k: Key, from: nat, p: Edge, d: nat, c: Edge)
    requires h != [] && Remembers(h[..|h| - 1], k, from, p, d) && c.weight.Num?
    requires EarliestOf(Brought(h, |h| - 1, k), c.weight.value) == Some(c)
    requires AtMost(Brought(h, |h| - 1, k), c.weight.value)
    requires if Waiting(h, |h| - 1, k) then p.weight.value <= c.weight.value else p.weight.value < c.weight.value
    ensures Remembers(h, k, from, c, |h| - 1)
  {
    hide Waiting, Brought;
    var n := |h| - 1;
    forall i | from <= i < n
      ensures AtMost(Brought(h, i, k), c.weight.value)
      ensures p.weight.value < c.weight.value ==> !Brings(h, i, k, c.weight.value)
    {
      PrefixReads(h, i, k);
    }
  }

  /** `c` is the NaN that run `run` brought first. */
  predicate Blinds(h: History, k: Key, run: nat, c: Edge) {
    run < |h| && Brought(h, run, k) != [] && c == Brought(h, run, k)[0] && c.weight.NaN?
  }

  lemma BlindStays(h: History, k: Key, run: nat, c: Edge)
    requires h != [] && Blinds(h[..|h| - 1], k, run, c)
    ensures Blinds(h, k, run, c)
  {
    hide Brought;
    PrefixReads(h, run, k);
  }

  lemma MemoryStarts(h: History, k: Key, c: Edge)
    requires h != [] && c.weight.Num?
    requires EarliestOf(Brought(h, |h| - 1, k), c.weight.value) == Some(c)
             && AtMost(Brought(h, |h| - 1, k), c.weight.value)
    ensures Remembers(h, k, |h| - 1, c, |h| - 1)
  {}

  /** What is carried, whatever the weights: nothing for an unseen key, the first edge of the run that blinded a
      blind one, and otherwise the earliest edge, in the deciding run, of the greatest weight brought since the key
      can see. */
  predicate Explained(h: History, k: Key, d: nat) {
    var memory, kept := MemoryOf(h, k), Kept(h, k);
    && (memory.Unseen? <==> kept.None?)
    && (memory.Blind? ==> Blinds(h, k, memory.run, kept.value))
    && (memory.Since? ==> Remembers(h, k, memory.run, kept.value, d))
  }

  /** What the last run reads for the key: its own edges and the carried one, this one last while the key waits. */
  function Read(h: History, k: Key): seq<Edge>
    requires h != []
  {
    var n := |h| - 1;
    var brought, p := Brought(h, n, k), Optional(Kept(h[..n], k));
    if Waiting(h, n, k) then brought + p else p + brought
  }

  lemma {:induction false} KeptByMemory(h: History, k: Key) returns (d: nat)
    ensures Explained(h, k, d)
  {
    hide Winner, OfKey, Waiting, Remembers, Blinds, FlatEdges, Read;
    d := 0;
    if h != [] {
      var n := |h| - 1;
      var t := h[..n];
      d := KeptByMemory(t, k);
      KeptReads(h, k);
      if Brought(h, n, k) == [] {
        AloneWins(Kept(t, k), k);
        var prior := MemoryOf(t, k);
        if prior.Since? { MemoryStays(h, k, prior.run, Kept(t, k).value, d); }
        if prior.Blind? { BlindStays(h, k, prior.run, Kept(t, k).value); }
      } else {
        hide Explained, MemoryOf, Kept, Brought;
        d := KeptStep(h, k, d);
      }
    }
  }

  lemma KeptReads(h: History, k: Key)
    requires h != []
    ensures Kept(h, k) == Winner(Read(h, k))
    ensures Brought(h, |h| - 1, k) == [] ==> Read(h, k) == Optional(Kept(h[..|h| - 1], k))
  {
    hide Winner, OfKey, FlatEdges, Optional;
  }

  lemma EarliestAlone(e: Option<Edge>, w: real)
    ensures EarliestOf(Optional(e), w) == if e.Some? && e.value.weight == Num(w) then e else None
  {
    if e.Some? { assert [e.value][..0] == []; }
  }

  /** What the winner over a run's edges and the carried one is, by whichever is read first. */
  lemma WonBy(brought: seq<Edge>, carried: Option<Edge>, l: seq<Edge>, first: bool)
    requires brought != [] && l == if first then brought + Optional(carried) else Optional(carried) + brought
    ensures Winner(l).Some?
    ensures l[0].weight.NaN? ==> Winner(l) == Some(l[0])
    ensures l[0].weight.Num? ==> Winner(l).value.weight.Num? && Won(brought, carried, l, first, Winner(l).value)
  {
    hide Winner, EarliestOf;
    WinnerByFirst(l);
    if l[0].weight.Num? {
      var w := Winner(l).value.weight.value;
      EarliestConcat(brought, Optional(carried), w);
      EarliestConcat(Optional(carried), brought, w);
      EarliestAlone(carried, w);
    }
  }

  predicate Won(brought: seq<Edge>, carried: Option<Edge>, l: seq<Edge>, first: bool, c: Edge) {
    && c.weight.Num? && AtMost(l, c.weight.value)
    && var a := EarliestOf(brought, c.weight.value);
       var b := if carried.Some? && carried.value.weight == c.weight then carried else None;
       Some(c) == if first then (if a.Some? then a else b) else (if b.Some? then b else a)
  }

  lemma KeptStep(h: History, k: Key, was: nat) returns (d: nat)
    requires h != [] && Brought(h, |h| - 1, k) != [] && Explained(h[..|h| - 1], k, was)
    ensures Explained(h, k, d)
  {
    hide Winner, OfKey, Waiting, Remembers, FlatEdges, Kept, EarliestOf, Brought;
    var l := Read(h, k);
    KeptReads(h, k);
    d := was;
    var n := |h| - 1;
    var t := h[..n];
    var prior, brought := MemoryOf(t, k), Brought(h, n, k);
    WonBy(brought, Kept(t, k), l, Waiting(h, n, k));
    assert forall x :: x in brought ==> x in l;
    if prior.Since? { RememberedIsNum(t, k, prior.run, Kept(t, k).value, was); }
    if prior.Blind? { BlindStays(h, k, prior.run, Kept(t, k).value); }
    if l[0].weight.Num? {
      var c := Winner(l).value;
      assert AtMost(brought, c.weight.value);
      if prior.Since? {
        var q := Kept(t, k).value;
        assert q in l;
        if EarliestOf(brought, c.weight.value) == Some(c) && (Waiting(h, n, k) || q.weight != c.weight) {
          MemoryMoves(h, k, prior.run, q, was, c);
          d := n;
        } else {
          MemoryStays(h, k, prior.run, q, was);
        }
      } else if Waiting(h, n, k) || prior.Unseen? {
        MemoryStarts(h, k, c);
        d := n;
      }
    }
  }

  lemma RememberedIsNum(h: History, k: Key, from: nat, c: Edge, d: nat)
    requires Remembers(h, k, from, c, d)
    ensures c.weight.Num?
  {}

  // ---- main results -----------------------------------------------------------------------------------

  /** Every edge of the key that was ever handed in, in order. */
  function AllOfKey(h: History, k: Key): seq<Edge> {
    OfKey(FlatEdges(Everything(h)), k)
  }

  /** `m` is the greatest numeric weight ever handed in for the key. */
  predicate Greatest(h: History, k: Key, m: real) {
    EarliestOf(AllOfKey(h, k), m).Some? && AtMost(AllOfKey(h, k), m)
  }

  lemma AllOfKeyMore(h: History, k: Key)
    requires h != []
    ensures AllOfKey(h, k) == AllOfKey(h[..|h| - 1], k) + Brought(h, |h| - 1, k)
  {
    hide OfKey, FlatEdges;
    var n := |h| - 1;
    FlatConcat(Everything(h[..n]), h[n]);
    OfKeyConcat(FlatEdges(Everything(h[..n])), FlatEdges(h[n]), k);
  }

  lemma {:induction false} AllFromRuns(h: History, k: Key, e: Edge)
    ensures e in AllOfKey(h, k) <==> exists i :: 0 <= i < |h| && e in Brought(h, i, k)
  {
    hide OfKey, FlatEdges, AllOfKey;
    if h == [] {
      NoneHandedIn(k);
    } else {
      var n := |h| - 1;
      AllFromRuns(h[..n], k, e);
      AllOfKeyMore(h, k);
      assert forall i :: 0 <= i < n ==> Brought(h[..n], i, k) == Brought(h, i, k);
    }
  }

  lemma NoneHandedIn(k: Key)
    ensures AllOfKey([], k) == []
  {}

  /** The greatest weight, told run by run. */
  lemma GreatestByRuns(h: History, k: Key, m: real)
    ensures Greatest(h, k, m) ==>
            (forall i :: 0 <= i < |h| ==> AtMost(Brought(h, i, k), m)) && exists i :: Brings(h, i, k, m)
  {
    hide OfKey, FlatEdges, AllOfKey, Brought;
    if Greatest(h, k, m) {
      forall i, e | 0 <= i < |h| && e in Brought(h, i, k) ensures e in AllOfKey(h, k) { AllFromRuns(h, k, e); }
      var e := EarliestOf(AllOfKey(h, k), m).value;
      AllFromRuns(h, k, e);
      var i :| 0 <= i < |h| && e in Brought(h, i, k);
      assert Brings(h, i, k, m);
    }
  }

  /** Whatever the weights are: the runs carry nothing for a key never seen, the first edge of the run that blinded a
      blind key, and otherwise exactly one edge, the earliest of greatest weight in the deciding run. */
  lemma CarriedEdge(h: History, k: Key) returns (c: Option<Edge>, d: nat)
    requires Structural(k)
    ensures forall e :: KeyOf(e) == k ==> (Carries(After(h), e) <==> c == Some(e))
    ensures c.Some? ==> KeyOf(c.value) == k
    ensures var memory := MemoryOf(h, k);
            && (memory.Unseen? <==> c.None?)
            && (memory.Blind? ==> Blinds(h, k, memory.run, c.value))
            && (memory.Since? ==> Remembers(h, k, memory.run, c.value, d))
  {
    hide Carries, After, Remembers, MemoryOf, Kept;
    KeptIsCarried(h, k);
    KeptHasKey(h, k);
    d := KeptByMemory(h, k);
    c := Kept(h, k);
  }

  /** The runs carry the greatest weight exactly when the key can see and some run since it can has brought that
      weight: a NaN read first by a waiting or new key makes it forget, and a NaN that is attached stays. */
  lemma GreatestCarriedExactly(h: History, k: Key, m: real)
    requires Structural(k) && Greatest(h, k, m)
    ensures (exists c :: Carries(After(h), c) && KeyOf(c) == k && c.weight == Num(m)) <==>
              MemoryOf(h, k).Since? && exists i :: MemoryOf(h, k).run <= i && Brings(h, i, k, m)
  {
    hide Carries, After, MemoryOf, Greatest, Brought;
    var c, d := CarriedEdge(h, k);
    GreatestByRuns(h, k, m);
    var memory := MemoryOf(h, k);
    if memory.Since? {
      var w := c.value.weight.value;
      assert Brings(h, d, k, w) && memory.run <= d;
      if i :| memory.run <= i && Brings(h, i, k, m) {
        assert EarliestOf(Brought(h, i, k), m).value in Brought(h, i, k);
        assert m <= w;
      }
      assert EarliestOf(Brought(h, d, k), w).value in Brought(h, d, k);
      assert w <= m;
    }
  }

  lemma {:induction false} MemoryWithoutNaN(h: History, k: Key)
    requires forall e :: e in AllOfKey(h, k) ==> e.weight.Num?
    ensures !MemoryOf(h, k).Blind?
    ensures MemoryOf(h, k).Unseen? ==> AllOfKey(h, k) == []
    ensures MemoryOf(h, k).Since? ==>
              MemoryOf(h, k).run < |h| && forall i :: 0 <= i < MemoryOf(h, k).run ==> Brought(h, i, k) == []
  {
    hide OfKey, FlatEdges, AllOfKey, Waiting;
    if h == [] {
      NoneHandedIn(k);
    } else {
      var n := |h| - 1;
      AllOfKeyMore(h, k);
      MemoryWithoutNaN(h[..n], k);
      forall i | 0 <= i < n && MemoryOf(h[..n], k).Unseen? ensures Brought(h, i, k) == [] {
        assert Brought(h[..n], i, k) == Brought(h, i, k);
        if Brought(h, i, k) != [] { AllFromRuns(h[..n], k, Brought(h, i, k)[0]); }
      }
      assert forall i :: 0 <= i < n ==> Brought(h[..n], i, k) == Brought(h, i, k);
    }
  }

  /** A key without NaN keeps the earliest edge of the greatest weight in the deciding run: the last run, up to the
      one with which both ends had arrived, that brought this weight, or else the first later one. */
  lemma KeptEdgeOfRuns(h: History, k: Key, m: real) returns (d: nat)
    requires Structural(k) && NaNFree(h, k) && Greatest(h, k, m)
    ensures Decides(h, k, m, 0, d) && EarliestOf(Brought(h, d, k), m).Some?
    ensures forall c :: KeyOf(c) == k ==> (Carries(After(h), c) <==> EarliestOf(Brought(h, d, k), m) == Some(c))
  {
    hide Carries, After, MemoryOf, Brought, Waiting, FlatEdges;
    OfKeyHas(FlatEdges(Everything(h)), k);
    MemoryWithoutNaN(h, k);
    GreatestCarriedExactly(h, k, m);
    GreatestByRuns(h, k, m);
    var c;
    c, d := CarriedEdge(h, k);
    var i :| Brings(h, i, k, m);
    assert EarliestOf(Brought(h, i, k), m).value in Brought(h, i, k);
    EarliestOfNone(m);
    assert MemoryOf(h, k).Since?;
    assert c.value.weight == Num(m);
    forall j | 0 <= j < MemoryOf(h, k).run ensures !Brings(h, j, k, m) {}
  }

  lemma EarliestOfNone(w: real)
    ensures EarliestOf([], w) == None
  {}

  /** One run over everything: a NaN read first blinds the key, and otherwise every weight counts. */
  lemma OneRunMemory(h: History, k: Key)
    ensures var all := AllOfKey(h, k);
            && Brought([Everything(h)], 0, k) == all
            && MemoryOf([Everything(h)], k) ==
               if all == [] then Unseen else if all[0].weight.NaN? then Blind(0) else Since(0)
  {
    hide OfKey, FlatEdges, Everything, Waiting;
    var once := [Everything(h)];
    assert once[..0] == [];
    assert MemoryOf([], k).Unseen?;
  }

  /** The edge that one run over everything carries for a key. */
  lemma OnceCarries(h: History, k: Key) returns (c: Option<Edge>, m: real)
    requires Structural(k)
    ensures forall e :: KeyOf(e) == k ==> (Carries(After([Everything(h)]), e) <==> c == Some(e))
    ensures c.Some? ==> KeyOf(c.value) == k
    ensures var all := AllOfKey(h, k);
            && (all == [] ==> c.None?)
            && (all != [] && all[0].weight.NaN? ==> c == Some(all[0]))
            && (all != [] && all[0].weight.Num? ==> Greatest(h, k, m) && c == EarliestOf(all, m))
  {
    hide Carries, After, Waiting, Everything, FlatEdges, OfKey, AllOfKey, MemoryOf, Brought;
    var d;
    c, d := CarriedEdge([Everything(h)], k);
    OneRunMemory(h, k);
    m := if c.Some? && c.value.weight.Num? then c.value.weight.value else 0.0;
  }

  /** When the runs and one run over everything carry the same edge of a key, whatever its weights. If the first edge
      ever read is a NaN: exactly when it is this one that still blinds the key. Otherwise, with `m` the greatest
      weight: exactly when the key can see, and the run that decides for `m` has the earliest edge of that weight. */
  lemma SameEdgeExactly(h: History, k: Key) returns (m: real)
    requires Structural(k)
    ensures var memory, all, once := MemoryOf(h, k), AllOfKey(h, k), After([Everything(h)]);
            var same := forall e :: KeyOf(e) == k ==> (Carries(After(h), e) <==> Carries(once, e));
            && (all == [] ==> same)
            && (all != [] && all[0].weight.NaN? ==> (same <==> memory.Blind? && Blinds(h, k, memory.run, all[0])))
            && (all != [] && all[0].weight.Num? ==>
                  && Greatest(h, k, m)
                  && (same <==> memory.Since? && exists d :: DecidesFor(h, k, m, memory.run, d, EarliestOf(all, m))))
  {
    hide Carries, After, Everything, FlatEdges, OfKey, AllOfKey, MemoryOf, Greatest;
    var c, d := CarriedEdge(h, k);
    var first;
    first, m := OnceCarries(h, k);
    var memory, all := MemoryOf(h, k), AllOfKey(h, k);
    if all == [] {
      NothingAtAll(h, k);
    } else if all[0].weight.Num? {
      GreatestSome(h, k, m);
      if memory.Since? { SameDecision(h, k, m, memory.run, c.value, d, first); }
    }
  }

  /** Run `d` decides for `m`, and `first` is its earliest edge of that weight. */
  predicate DecidesFor(h: History, k: Key, m: real, from: nat, d: nat, first: Option<Edge>) {
    Decides(h, k, m, from, d) && EarliestOf(Brought(h, d, k), m) == first
  }

  lemma GreatestSome(h: History, k: Key, m: real)
    requires Greatest(h, k, m)
    ensures EarliestOf(AllOfKey(h, k), m).Some?
  {}

  lemma NothingAtAll(h: History, k: Key)
    requires AllOfKey(h, k) == []
    ensures MemoryOf(h, k).Unseen?
  {
    hide OfKey, FlatEdges, AllOfKey, Waiting;
    MemoryWithoutNaN(h, k);
    if MemoryOf(h, k).Since? { SeenAtRun(h, k); }
  }

  lemma {:induction false} SeenAtRun(h: History, k: Key)
    requires MemoryOf(h, k).Since?
    ensures MemoryOf(h, k).run < |h| && Brought(h, MemoryOf(h, k).run, k) != []
    ensures AllOfKey(h, k) != []
  {
    hide OfKey, FlatEdges, AllOfKey, Waiting;
    AllOfKeyMore(h, k);
    var n := |h| - 1;
    if MemoryOf(h, k) == MemoryOf(h[..n], k) {
      SeenAtRun(h[..n], k);
      PrefixReads(h, MemoryOf(h, k).run, k);
    }
  }

  lemma SameDecision(h: History, k: Key, m: real, from: nat, c: Edge, d: nat, first: Option<Edge>)
    requires Greatest(h, k, m) && first == EarliestOf(AllOfKey(h, k), m) && Remembers(h, k, from, c, d)
    ensures first == Some(c) <==> exists e :: DecidesFor(h, k, m, from, e, first)
  {
    hide Waiting, AllOfKey, Greatest, Brought;
    if first == Some(c) {
      assert DecidesFor(h, k, m, from, d, first);
    }
    if e :| DecidesFor(h, k, m, from, e, first) {
      var w := c.weight.value;
      GreatestByRuns(h, k, m);
      assert EarliestOf(Brought(h, e, k), m).value in Brought(h, e, k);
      assert m <= w;
      assert EarliestOf(Brought(h, d, k), w).value in Brought(h, d, k);
      assert w <= m;
      DecidesOnce(h, k, m, from, d, e);
    }
  }
}
