// Deduplication by key with `weight > existing.weight`, as both graph mergers do it.
module EdgeTable {
  import opened Wrappers
  import opened TestedBy

  /** A Python dict of edges: keys in insertion order. */
  datatype Table<K, E> = Table(keys: seq<K>, byKey: map<K, E>)

  /** How a merger reads its edges. */
  datatype Reader<!K, !E> = Reader(key: E -> K, weight: E -> Weight)

  function Put<K(!new), E>(r: Reader<K, E>, t: Table<K, E>, e: E): Table<K, E> {
    var k := r.key(e);
    if k !in t.byKey then Table(t.keys + [k], t.byKey[k := e])
    else if Heavier(r.weight(e), r.weight(t.byKey[k])) then t.(byKey := t.byKey[k := e])
    else t
  }

  function Merged<K(!new), E>(r: Reader<K, E>, s: seq<E>): Table<K, E> {
    if s == [] then Table([], map[]) else Put(r, Merged(r, s[..|s| - 1]), s[|s| - 1])
  }

  lemma MergedMore<K(!new), E>(r: Reader<K, E>, s: seq<E>, e: E)
    ensures Merged(r, s + [e]) == Put(r, Merged(r, s), e)
  {
    assert (s + [e])[..|s|] == s;
  }

  ghost predicate Sound<K(!new), E>(r: Reader<K, E>, t: Table<K, E>) {
    && (forall i, j :: 0 <= i < j < |t.keys| ==> t.keys[i] != t.keys[j])
    && (forall k :: k in t.keys <==> k in t.byKey)
    && (forall k :: k in t.byKey ==> r.key(t.byKey[k]) == k)
  }

  /** The dict's values, in order. */
  function Values<K(!new), E>(r: Reader<K, E>, t: Table<K, E>): (edges: seq<E>)
    requires Sound(r, t)
    ensures |edges| == |t.keys|
    ensures forall i :: 0 <= i < |edges| ==> edges[i] == t.byKey[t.keys[i]] && r.key(edges[i]) == t.keys[i]
  {
    seq(|t.keys|, i requires 0 <= i < |t.keys| => assert t.keys[i] in t.keys; t.byKey[t.keys[i]])
  }

  ghost predicate HasKey<K(!new), E>(r: Reader<K, E>, s: seq<E>, k: K) {
    exists i :: 0 <= i < |s| && r.key(s[i]) == k
  }

  ghost predicate FirstWith<K(!new), E>(r: Reader<K, E>, s: seq<E>, k: K, i: nat) {
    i < |s| && r.key(s[i]) == k && forall m :: 0 <= m < i ==> r.key(s[m]) != k
  }

  /** The edge at `j` is the earliest of maximal weight among those with its key. A NaN neither
      outranks nor is outranked, so it wins exactly when it comes first. */
  ghost predicate Wins<K(!new), E>(r: Reader<K, E>, s: seq<E>, k: K, j: nat) {
    && j < |s| && r.key(s[j]) == k
    && (r.weight(s[j]).NaN? ==> FirstWith(r, s, k, j))
    && (r.weight(s[j]).Num? ==>
          && (forall i: nat :: FirstWith(r, s, k, i) ==> r.weight(s[i]).Num?)
          && (forall i :: 0 <= i < |s| && r.key(s[i]) == k && r.weight(s[i]).Num? ==>
                r.weight(s[i]).value <= r.weight(s[j]).value)
          && (forall i :: 0 <= i < j && r.key(s[i]) == k && r.weight(s[i]).Num? ==>
                r.weight(s[i]).value < r.weight(s[j]).value))
  }

  /** One entry for each key that occurs, and it is the winner. */
  lemma {:induction false} MergedSound<K(!new), E>(r: Reader<K, E>, s: seq<E>)
    ensures Sound(r, Merged(r, s))
    ensures forall k :: k in Merged(r, s).byKey <==> HasKey(r, s, k)
  {
    if s != [] {
      var t, e := s[..|s| - 1], s[|s| - 1];
      assert s == t + [e];
      MergedSound(r, t);
      HasKeyMore(r, t, e);
    }
  }

  lemma HasKeyMore<K(!new), E>(r: Reader<K, E>, t: seq<E>, e: E)
    ensures forall k :: HasKey(r, t + [e], k) <==> HasKey(r, t, k) || r.key(e) == k
  {
    forall k | HasKey(r, t, k) ensures HasKey(r, t + [e], k) {
      var i :| 0 <= i < |t| && r.key(t[i]) == k;
      assert (t + [e])[i] == t[i];
    }
    assert (t + [e])[|t|] == e;
  }

  lemma {:induction false} FirstExists<K(!new), E>(r: Reader<K, E>, s: seq<E>, k: K) returns (i: nat)
    requires HasKey(r, s, k)
    ensures FirstWith(r, s, k, i)
  {
    var t := s[..|s| - 1];
    if HasKey(r, t, k) {
      i := FirstExists(r, t, k);
      assert forall m :: 0 <= m <= i ==> s[m] == t[m];
    } else {
      i := |s| - 1;
      assert forall m :: 0 <= m < i ==> s[m] == t[m];
    }
  }

  lemma {:induction false} WinnerKept<K(!new), E>(r: Reader<K, E>, s: seq<E>, k: K) returns (j: nat)
    requires HasKey(r, s, k)
    ensures k in Merged(r, s).byKey
    ensures Wins(r, s, k, j) && Merged(r, s).byKey[k] == s[j]
  {
    var n := |s| - 1;
    var t, e := s[..n], s[n];
    assert s == t + [e];
    MergedSound(r, t);
    if HasKey(r, t, k) {
      j := WinnerKept(r, t, k);
      var f := FirstExists(r, t, k);
      assert forall m :: 0 <= m < n ==> s[m] == t[m];
      assert FirstWith(r, s, k, f);
      assert forall i: nat :: FirstWith(r, s, k, i) ==> i == f;
      assert forall i: nat :: FirstWith(r, t, k, i) ==> i == f;
      if r.key(e) == k && Heavier(r.weight(e), r.weight(t[j])) { j := n; }
    } else {
      j := n;
      assert forall m :: 0 <= m < n ==> s[m] == t[m];
    }
  }

  predicate Listed<K(==), E>(r: Reader<K, E>, s: seq<E>, first: seq<nat>, k: K) {
    exists q :: 0 <= q < |first| && first[q] < |s| && r.key(s[first[q]]) == k
  }

  /** The dict's values told from the list of edges: a value for every key, in the order in which the keys first
      appear, and it is the key's winner. */
  lemma ValuesAre<K(!new), E(!new)>(r: Reader<K, E>, s: seq<E>) returns (first: seq<nat>, best: seq<nat>)
    ensures Sound(r, Merged(r, s))
    ensures var edges := Values(r, Merged(r, s));
            && |first| == |best| == |edges| && Increasing(first)
            && (forall q :: 0 <= q < |edges| ==>
                  && first[q] < |s| && FirstWith(r, s, r.key(s[first[q]]), first[q])
                  && Wins(r, s, r.key(s[first[q]]), best[q]) && edges[q] == s[best[q]])
            && (forall i :: 0 <= i < |s| ==> Listed(r, s, first, r.key(s[i])))
  {
    hide Merged, FirstWith, Wins;
    MergedSound(r, s);
    var t := Merged(r, s);
    var edges := Values(r, t);
    first, best := [], [];
    for q := 0 to |edges|
      invariant |first| == |best| == q
      invariant forall p :: 0 <= p < q ==> FirstWith(r, s, t.keys[p], first[p])
      invariant forall p :: 0 <= p < q ==> Wins(r, s, t.keys[p], best[p]) && edges[p] == t.byKey[t.keys[p]]
      invariant forall p :: 0 <= p < q ==> best[p] < |s| && edges[p] == s[best[p]]
    {
      assert t.keys[q] in t.byKey;
      assert HasKey(r, s, t.keys[q]);
      var f := FirstExists(r, s, t.keys[q]);
      var j := WinnerKept(r, s, t.keys[q]);
      WinsWithin(r, s, t.keys[q], j);
      first, best := first + [f], best + [j];
    }
    forall p, q | 0 <= p < q < |first| ensures first[p] < first[q] { KeysInOrder(r, s, p, q, first[p], first[q]); }
    forall q | 0 <= q < |edges| ensures first[q] < |s| && r.key(s[first[q]]) == t.keys[q] {
      FirstWithin(r, s, t.keys[q], first[q]);
    }
    forall i | 0 <= i < |s| ensures Listed(r, s, first, r.key(s[i])) {
      assert HasKey(r, s, r.key(s[i]));
      assert r.key(s[i]) in t.byKey;
      var q :| 0 <= q < |t.keys| && t.keys[q] == r.key(s[i]);
      assert r.key(s[first[q]]) == r.key(s[i]);
    }
  }

  lemma WinsWithin<K(!new), E>(r: Reader<K, E>, s: seq<E>, k: K, j: nat)
    requires Wins(r, s, k, j)
    ensures j < |s|
  {}

  lemma FirstWithin<K(!new), E>(r: Reader<K, E>, s: seq<E>, k: K, i: nat)
    requires FirstWith(r, s, k, i)
    ensures i < |s| && r.key(s[i]) == k
  {}

  /** The edge kept for a key weighs at least as much as every edge of it exactly when the first is no NaN, or all
      are. */
  lemma GreatestKeptExactly<K(!new), E>(r: Reader<K, E>, s: seq<E>, k: K, f: nat)
    requires FirstWith(r, s, k, f)
    ensures k in Merged(r, s).byKey
    ensures var kept := r.weight(Merged(r, s).byKey[k]);
            (forall i :: 0 <= i < |s| && r.key(s[i]) == k && r.weight(s[i]).Num? ==>
               kept.Num? && kept.value >= r.weight(s[i]).value) <==>
            (r.weight(s[f]).Num? || forall i :: 0 <= i < |s| && r.key(s[i]) == k ==> r.weight(s[i]).NaN?)
  {
    hide Merged;
    assert HasKey(r, s, k);
    var j := WinnerKept(r, s, k);
    assert forall i: nat :: FirstWith(r, s, k, i) ==> i == f;
  }

  /** Nothing outranks what is kept. */
  lemma NotOutranked<K(!new), E>(r: Reader<K, E>, s: seq<E>, i: nat)
    requires i < |s|
    ensures var t := Merged(r, s);
            r.key(s[i]) in t.byKey && !Heavier(r.weight(s[i]), r.weight(t.byKey[r.key(s[i])]))
  {
    assert HasKey(r, s, r.key(s[i]));
    var j := WinnerKept(r, s, r.key(s[i]));
  }

  /** Entries keep the order in which their keys first appeared, whichever edge won. */
  lemma {:induction false} KeysInOrder<K(!new), E(!new)>(r: Reader<K, E>, s: seq<E>, i: nat, j: nat, a: nat, b: nat)
    requires i < j < |Merged(r, s).keys|
    requires FirstWith(r, s, Merged(r, s).keys[i], a) && FirstWith(r, s, Merged(r, s).keys[j], b)
    ensures a < b
  {
    var n := |s| - 1;
    var t, e := s[..n], s[n];
    var keys := Merged(r, t).keys;
    MergedSound(r, t);
    assert s == t + [e];
    assert keys[i] in keys;
    FirstBefore(r, t, e, keys[i], a);
    if j < |keys| {
      assert keys[j] in keys;
      FirstBefore(r, t, e, keys[j], b);
      KeysInOrder(r, t, i, j, a, b);
    } else {
      assert !HasKey(r, t, r.key(e));
      assert forall m :: 0 <= m < n ==> r.key(t[m]) != r.key(e);
      assert forall m :: 0 <= m < n ==> s[m] == t[m];
    }
  }

  lemma FirstBefore<K(!new), E(!new)>(r: Reader<K, E>, t: seq<E>, e: E, k: K, i: nat)
    requires HasKey(r, t, k) && FirstWith(r, t + [e], k, i)
    ensures FirstWith(r, t, k, i)
  {
    var f := FirstExists(r, t, k);
    assert (t + [e])[f] == t[f];
    assert forall m :: 0 <= m < |t| ==> (t + [e])[m] == t[m];
  }
}
