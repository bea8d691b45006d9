// A Python dict of nodes by id, as both graph mergers build it: a list of nodes whose ids are distinct.
module NodeLists {
  import opened Wrappers

  function IndexOf<N>(nodes: seq<N>, idOf: N -> string, id: string): (k: Option<nat>)
    ensures k.Some? ==> k.value < |nodes| && idOf(nodes[k.value]) == id
    ensures k.None? ==> forall i :: 0 <= i < |nodes| ==> idOf(nodes[i]) != id
  {
    if nodes == [] then None
    else if idOf(nodes[|nodes| - 1]) == id then Some(|nodes| - 1)
    else IndexOf(nodes[..|nodes| - 1], idOf, id)
  }

  predicate HasNode<N>(nodes: seq<N>, idOf: N -> string, id: string) {
    exists i :: 0 <= i < |nodes| && idOf(nodes[i]) == id
  }

  /** A later node takes the place of an earlier one with its id. */
  function PutNode<N>(nodes: seq<N>, idOf: N -> string, n: N): seq<N> {
    match IndexOf(nodes, idOf, idOf(n))
    case None => nodes + [n]
    case Some(k) => nodes[k := n]
  }

  // ---- what such a dict holds in the end --------------------------------------------------------------

  /** The entry at `i` gives a node with this id; `node` says which node an entry gives, if any. */
  predicate Gives<S, N>(all: seq<S>, node: S -> Option<N>, idOf: N -> string, i: nat, id: string) {
    i < |all| && node(all[i]).Some? && idOf(node(all[i]).value) == id
  }

  /** `n` is what the last entry with its id gives, and `first` is the first such entry. */
  predicate StandsFor<S, N(==)>(all: seq<S>, node: S -> Option<N>, idOf: N -> string, n: N, first: nat, last: nat) {
    && Gives(all, node, idOf, first, idOf(n)) && (forall i: nat :: i < first ==> !Gives(all, node, idOf, i, idOf(n)))
    && Gives(all, node, idOf, last, idOf(n)) && node(all[last]) == Some(n)
    && (forall i: nat :: last < i < |all| ==> !Gives(all, node, idOf, i, idOf(n)))
  }

  /** For every id one node, the last that was handed in with it, in the order in which the ids first appear. */
  ghost predicate Collected<S, N>(all: seq<S>, node: S -> Option<N>, idOf: N -> string, nodes: seq<N>,
                                  first: seq<nat>, last: seq<nat>)
  {
    && |first| == |last| == |nodes| && Increasing(first)
    && (forall q :: 0 <= q < |nodes| ==> StandsFor(all, node, idOf, nodes[q], first[q], last[q]))
    && (forall i: nat, id :: Gives(all, node, idOf, i, id) ==> HasNode(nodes, idOf, id))
  }

  lemma NothingCollected<S, N>(node: S -> Option<N>, idOf: N -> string)
    ensures Collected([], node, idOf, [], [], [])
  {}

  lemma GivesMore<S, N>(all: seq<S>, node: S -> Option<N>, idOf: N -> string, e: S, i: nat, id: string)
    ensures i < |all| ==> (Gives(all + [e], node, idOf, i, id) <==> Gives(all, node, idOf, i, id))
    ensures Gives(all + [e], node, idOf, |all|, id) <==> node(e).Some? && idOf(node(e).value) == id
  {
    if i < |all| { assert (all + [e])[i] == all[i]; }
    assert (all + [e])[|all|] == e;
  }

  lemma StandsWithin<S, N>(all: seq<S>, node: S -> Option<N>, idOf: N -> string, n: N, first: nat, last: nat)
    requires StandsFor(all, node, idOf, n, first, last)
    ensures first < |all| && last < |all|
  {}

  lemma StandsStill<S, N>(all: seq<S>, node: S -> Option<N>, idOf: N -> string, e: S, n: N, first: nat, last: nat)
    requires StandsFor(all, node, idOf, n, first, last)
    requires node(e).None? || idOf(node(e).value) != idOf(n)
    ensures StandsFor(all + [e], node, idOf, n, first, last)
  {
    StandsWithin(all, node, idOf, n, first, last);
    hide Gives;
    GivesMore(all, node, idOf, e, first, idOf(n));
    GivesMore(all, node, idOf, e, last, idOf(n));
    forall i: nat | i <= |all| ensures i < first || last < i ==> !Gives(all + [e], node, idOf, i, idOf(n)) {
      GivesMore(all, node, idOf, e, i, idOf(n));
    }
    assert (all + [e])[last] == all[last];
  }

  lemma StandsAnew<S, N>(all: seq<S>, node: S -> Option<N>, idOf: N -> string, e: S, n: N, first: nat, last: nat)
    requires StandsFor(all, node, idOf, n, first, last) && node(e).Some? && idOf(node(e).value) == idOf(n)
    ensures StandsFor(all + [e], node, idOf, node(e).value, first, |all|)
  {
    StandsWithin(all, node, idOf, n, first, last);
    hide Gives;
    GivesMore(all, node, idOf, e, first, idOf(n));
    GivesMore(all, node, idOf, e, |all|, idOf(n));
    forall i: nat | i < first ensures !Gives(all + [e], node, idOf, i, idOf(n)) {
      GivesMore(all, node, idOf, e, i, idOf(n));
    }
    assert (all + [e])[|all|] == e;
  }

  lemma StandsNew<S, N>(all: seq<S>, node: S -> Option<N>, idOf: N -> string, e: S)
    requires node(e).Some? && forall i: nat :: !Gives(all, node, idOf, i, idOf(node(e).value))
    ensures StandsFor(all + [e], node, idOf, node(e).value, |all|, |all|)
  {
    hide Gives;
    var id := idOf(node(e).value);
    forall i: nat | i < |all| ensures !Gives(all + [e], node, idOf, i, id) { GivesMore(all, node, idOf, e, i, id); }
    GivesMore(all, node, idOf, e, |all|, id);
    assert (all + [e])[|all|] == e;
  }

  lemma PutNodeHas<N>(nodes: seq<N>, idOf: N -> string, n: N, id: string)
    ensures HasNode(PutNode(nodes, idOf, n), idOf, id) <==> HasNode(nodes, idOf, id) || idOf(n) == id
  {
    var r := PutNode(nodes, idOf, n);
    assert forall i :: 0 <= i < |nodes| ==> idOf(r[i]) == idOf(nodes[i]);
    if idOf(n) == id {
      match IndexOf(nodes, idOf, id)
      case None => assert r[|nodes|] == n;
      case Some(k) => assert r[k] == n;
    }
  }

  lemma HasMore<S, N>(all: seq<S>, node: S -> Option<N>, idOf: N -> string, nodes: seq<N>, e: S)
    requires forall i: nat, id :: Gives(all, node, idOf, i, id) ==> HasNode(nodes, idOf, id)
    ensures var now := if node(e).None? then nodes else PutNode(nodes, idOf, node(e).value);
            forall i: nat, id :: Gives(all + [e], node, idOf, i, id) ==> HasNode(now, idOf, id)
  {
    hide HasNode, PutNode;
    var now := if node(e).None? then nodes else PutNode(nodes, idOf, node(e).value);
    forall i: nat, id ensures Gives(all + [e], node, idOf, i, id) ==> HasNode(now, idOf, id) {
      GivesMore(all, node, idOf, e, i, id);
      if node(e).Some? { PutNodeHas(nodes, idOf, node(e).value, id); }
    }
  }

  /** One more entry. */
  lemma CollectMore<S, N>(all: seq<S>, node: S -> Option<N>, idOf: N -> string, nodes: seq<N>,
                          first: seq<nat>, last: seq<nat>, e: S)
    returns (f: seq<nat>, l: seq<nat>)
    requires Collected(all, node, idOf, nodes, first, last)
    requires forall i, j :: 0 <= i < j < |nodes| ==> idOf(nodes[i]) != idOf(nodes[j])
    ensures Collected(all + [e], node, idOf, if node(e).None? then nodes else PutNode(nodes, idOf, node(e).value), f, l)
  {
    hide StandsFor, Gives, HasNode, Increasing;
    HasMore(all, node, idOf, nodes, e);
    forall q | 0 <= q < |nodes|
      ensures first[q] < |all|
      ensures node(e).None? || idOf(nodes[q]) != idOf(node(e).value) ==>
                StandsFor(all + [e], node, idOf, nodes[q], first[q], last[q])
      ensures node(e).Some? && idOf(nodes[q]) == idOf(node(e).value) ==>
                StandsFor(all + [e], node, idOf, node(e).value, first[q], |all|)
    {
      StandsWithin(all, node, idOf, nodes[q], first[q], last[q]);
      if node(e).Some? && idOf(nodes[q]) == idOf(node(e).value) {
        StandsAnew(all, node, idOf, e, nodes[q], first[q], last[q]);
      } else {
        StandsStill(all, node, idOf, e, nodes[q], first[q], last[q]);
      }
    }
    if node(e).None? {
      f, l := first, last;
    } else {
      var at := IndexOf(nodes, idOf, idOf(node(e).value));
      if at.Some? {
        f, l := first, last[at.value := |all|];
      } else {
        f, l := first + [|all|], last + [|all|];
        NoneHas(nodes, idOf, idOf(node(e).value));
        StandsNew(all, node, idOf, e);
        IncreasingMore(first, |all|);
      }
    }
  }

  lemma NoneHas<N>(nodes: seq<N>, idOf: N -> string, id: string)
    ensures IndexOf(nodes, idOf, id).None? ==> !HasNode(nodes, idOf, id)
  {}
}
