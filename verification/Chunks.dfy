/** A byte stream as it arrives: in chunks, cut anywhere. */
module Chunks {
  import opened Ints

  type Bytes = seq<u8>

  function Joined(chunks: seq<Bytes>): Bytes {
    if chunks == [] then [] else Joined(chunks[..|chunks| - 1]) + chunks[|chunks| - 1]
  }

  lemma {:induction false} JoinedAppend(a: seq<Bytes>, b: seq<Bytes>)
    ensures Joined(a + b) == Joined(a) + Joined(b)
  {
    if b == [] {
      assert a + b == a;
    } else {
      JoinedAppend(a, b[..|b| - 1]);
      assert (a + b)[..|a + b| - 1] == a + b[..|b| - 1];
    }
  }

  lemma JoinedFirst(chunks: seq<Bytes>)
    requires chunks != []
    ensures Joined(chunks) == chunks[0] + Joined(chunks[1..])
  {
    assert chunks == [chunks[0]] + chunks[1..];
    JoinedAppend([chunks[0]], chunks[1..]);
    assert [chunks[0]][..0] == [] && [] + chunks[0] == chunks[0];
  }
}
