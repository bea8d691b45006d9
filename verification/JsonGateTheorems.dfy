// The gate in front of `canonicalJson`.
module JsonGateTheorems {
  import opened Wrappers
  import opened JsonValue
  import opened Canonical
  import opened CanonicalTheorems
  import opened JsonGate

  /** Whatever `asJsonValue` accepts, `canonicalJson` encodes: it never throws behind the gate. Its text reads back to
      the accepted tree, keys sorted, exactly when no array the value reaches has an empty slot. */
  lemma AcceptedIsCanonicalizable(h: Heap, v: Value)
    requires OneEntryPerKey(h) && Gate(h, v, {}).Some?
    ensures var j := Gate(h, v, {}).value;
            && WellFormed(j) && CanonicalJson(j).Some?
            && (ParseValue(CanonicalJson(j).value) == Done(Normalize(j), []) <==>
                forall depth: nat :: !ReachesHole(h, v, depth))
  {
    AcceptedIsEncodable(h, v);
    AcceptedIsJsonExactly(h, v);
    RoundTripExactlyWhenDense(Gate(h, v, {}).value);
  }
}
