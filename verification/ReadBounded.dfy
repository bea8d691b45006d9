// The bounded reader of the native supervisor: whatever the pieces in which a stream arrives, its first
// `limit` bytes are kept and the overflow is noticed.
module ReadBounded {
  import opened Wrappers

  type Byte = b: int | 0 <= b < 256

  type Bytes = seq<Byte>

  /** One answer of `stream.read`; no bytes means the end. */
  datatype Read = Got(bytes: Bytes) | ReadFailed

  /** What the stream hands over before it ends or fails. */
  function Delivered(answers: seq<Read>): Bytes {
    if answers == [] || answers[0].ReadFailed? || answers[0].bytes == [] then []
    else answers[0].bytes + Delivered(answers[1..])
  }

  function Min(a: nat, b: nat): nat { if a < b then a else b }

  method ReadUpTo(stream: Option<seq<Read>>, limit: nat) returns (buf: Bytes, over: bool)
    ensures stream.None? ==> buf == [] && !over
    ensures stream.Some? ==>
              var all := Delivered(stream.value);
              buf == all[..Min(limit, |all|)] && (over <==> |all| > limit)
  {
    buf := [];
    if stream.None? { return buf, false; }
    var answers := stream.value;
    var i := 0;
    while i < |answers|
      invariant 0 <= i <= |answers|
      invariant |buf| <= limit
      invariant Delivered(answers) == buf + Delivered(answers[i..])
    {
      match answers[i]
      case ReadFailed => return buf, false;
      case Got(chunk) =>
        if chunk == [] { return buf, false; }
        assert answers[i..][1..] == answers[i + 1..];
        var n := |chunk|;
        if |buf| + n > limit {
          var take := if limit > |buf| then limit - |buf| else 0;
          var kept := buf + chunk[..Min(take, n)];
          assert Delivered(answers) == kept + (chunk[Min(take, n)..] + Delivered(answers[i + 1..]));
          return kept, true;
        }
        assert Delivered(answers) == (buf + chunk) + Delivered(answers[i + 1..]);
        buf := buf + chunk;
        i := i + 1;
    }
    assert Delivered(answers) == buf;
    return buf, false;
  }

  function Pieces(chunks: seq<Bytes>): seq<Read> {
    seq(|chunks|, i requires 0 <= i < |chunks| => Got(chunks[i]))
  }

  function Joined(chunks: seq<Bytes>): Bytes {
    if chunks == [] then [] else chunks[0] + Joined(chunks[1..])
  }

  lemma {:induction false} PiecesDeliver(chunks: seq<Bytes>)
    requires forall c :: c in chunks ==> c != []
    ensures Delivered(Pieces(chunks)) == Joined(chunks)
  {
    if chunks != [] {
      assert chunks[0] in chunks && forall c :: c in chunks[1..] ==> c in chunks;
      assert Pieces(chunks)[1..] == Pieces(chunks[1..]);
      PiecesDeliver(chunks[1..]);
    }
  }

  /** Two ways to cut one error-free stream, without empty pieces, deliver the same bytes; so by its
      contract `ReadUpTo` answers the same for both. */
  lemma ChunkingDoesNotMatter(a: seq<Bytes>, b: seq<Bytes>)
    requires forall c :: c in a ==> c != []
    requires forall c :: c in b ==> c != []
    requires Joined(a) == Joined(b)
    ensures Delivered(Pieces(a)) == Delivered(Pieces(b)) == Joined(a)
  {
    PiecesDeliver(a);
    PiecesDeliver(b);
  }
}
