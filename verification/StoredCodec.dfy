/**
  The codec of data that is not compressed: what goes in comes out.

  It shows that the contract the reader, the indexer and the chain build on
  can be kept, and by every stream of this kind.
 */
module StoredCodec {
  import opened Arithmetic
  import opened Bytes
  import opened Decompressors
  import opened Wrappers

  /** Stored data may end anywhere, so no input is the end. */
  function Pass(state: State, input: seq<byte>, room: nat): Step {
    if input == [] then Stepped(state, 0, [], StreamEnd)
    else Stepped(state, Min(|input|, room), input[..Min(|input|, room)], Continue)
  }

  function SaveAnywhere(state: State): Result<Option<Saved>, Error> {
    Ok(Some(Saved(state, 0)))
  }

  function StoredStream(data: seq<byte>): Stream {
    Stream(Codec(Plain([]), Pass, SaveAnywhere, _ => true), data, data,
           (state: State, inPos: nat, outPos: nat) => inPos == outPos <= |data|)
  }

  lemma StoredIsLawful(data: seq<byte>)
    ensures var s := StoredStream(data);
            Lawful(s) && Lively(s) && SavesAnywhere(s) && SavesExactly(s) && Unfailing(s)
  {
    var s := StoredStream(data);
    forall state: State, i: nat, o: nat, input: seq<byte>, room: nat | Stands(s, state, i, o) && Feeds(data, i, input)
      ensures Sound(s, i, o, input, room, Apply(s, state, input, room))
    {
      assert Apply(s, state, input, room) == Pass(state, input, room);
    }
    assert forall state: State :: s.codec.save(state) == SaveAnywhere(state);
  }
}
