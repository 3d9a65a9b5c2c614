/**
  The contract every decompressor keeps with its caller.

  A codec is its decoding function on saved states, so it is any codec at
  all. What it owes its caller is stated against the stream it is fed: the
  packed bytes, the bytes they unpack to, and the relation `at` that says
  which states stand at which pair of offsets. How many bytes a call takes in
  or gives out is up to the codec.
 */
module Decompressors {
  import opened Bytes
  import opened Wrappers
  import LzmaMachine

  datatype Error = TruncatedInput | DecompressionError | InvalidState | CheckpointError | IndexError

  datatype Status = Continue | StreamEnd

  /** Bytes into and out of a stage of a chain. */
  datatype Totals = Totals(taken: nat, given: nat)

  /** What is on the links of a chain, how much of it is spent, what has passed
      through its stages, and which of them have ended. */
  datatype Flow = Flow(bufs: seq<seq<byte>>, read: seq<nat>, totals: seq<Totals>, ended: seq<bool>)

  /** A decoder's state. Of LZMA's decoder it is the machine that the decoder
      runs, reckoned from where it stands: what that has written is what is
      still pending. Of a chain it is its stages' states and what is between
      them, and of others it is their bytes. */
  datatype State =
    | Plain(bytes: seq<byte>)
    | OfLzma(machine: LzmaMachine.Machine)
    | OfChain(states: seq<State>, flow: Flow)
  {
    /** About as many bytes as it is stored in. */
    function Size(): nat {
      match this
      case Plain(bytes) => |bytes|
      case OfLzma(m) => |m.core.win.past| + 2 * |m.core.probs| + |m.core.out|
      case OfChain(states, flow) => SizeOf(states) + Held(flow.bufs) + |flow.ended|
    }
  }

  function SizeOf(states: seq<State>): nat {
    if states == [] then 0 else 17 + states[0].Size() + SizeOf(states[1..])
  }

  function Held(bufs: seq<seq<byte>>): nat {
    if bufs == [] then 0 else |bufs[0]| + 8 + Held(bufs[1..])
  }

  datatype Step =
    | Failed(error: Error)
    | Stepped(next: State, consumed: nat, bytes: seq<byte>, status: Status)

  /** A saved state, standing `back` packed bytes behind the one it was taken
      from: a format with blocks that start mid-byte resumes a little early. */
  datatype Saved = Saved(state: State, back: nat)

  /** `decode` is given a state, the input and the room for output; `loads`
      says which states can be restored. */
  datatype Codec = Codec(
    start: State,
    decode: (State, seq<byte>, nat) -> Step,
    save: State -> Result<Option<Saved>, Error>,
    loads: State -> bool)

  datatype Stream = Stream(
    codec: Codec,
    packed: seq<byte>,
    data: seq<byte>,
    at: (State, nat, nat) -> bool)

  predicate Stands(s: Stream, state: State, inPos: nat, outPos: nat) {
    s.at(state, inPos, outPos)
  }

  function Apply(s: Stream, state: State, input: seq<byte>, room: nat): Step {
    s.codec.decode(state, input, room)
  }

  /** `input` is what comes next of `packed`; it is empty only at the end. */
  ghost predicate Feeds(packed: seq<byte>, inPos: nat, input: seq<byte>) {
    && inPos + |input| <= |packed|
    && input == packed[inPos..inPos + |input|]
    && (input == [] ==> inPos == |packed|)
  }

  /** What a decoding step at the given offsets must give back: the next
      bytes of the data, and the end only where the data ends. */
  ghost predicate Sound(s: Stream, inPos: nat, outPos: nat, input: seq<byte>, room: nat, step: Step) {
    step.Stepped? ==>
      && step.consumed <= |input| && |step.bytes| <= room
      && outPos + |step.bytes| <= |s.data|
      && step.bytes == s.data[outPos..outPos + |step.bytes|]
      && Stands(s, step.next, inPos + step.consumed, outPos + |step.bytes|)
      && (step.status.StreamEnd? ==> outPos + |step.bytes| == |s.data|)
  }

  /** The contract. No bytes at all are an empty stream. */
  ghost predicate Lawful(s: Stream) {
    && Stands(s, s.codec.start, 0, 0)
    && (s.packed == [] ==> s.data == [])
    && (forall state: State, i: nat, o: nat :: Stands(s, state, i, o) ==> i <= |s.packed| && o <= |s.data|)
    && (forall state: State, i: nat, o: nat, input: seq<byte>, room: nat ::
          Stands(s, state, i, o) && Feeds(s.packed, i, input) ==>
          Sound(s, i, o, input, room, Apply(s, state, input, room)))
    && (forall state: State, i: nat, o: nat :: Stands(s, state, i, o) ==> SavedSound(s, i, o, s.codec.save(state)))
  }

  ghost predicate SavedSound(s: Stream, inPos: nat, outPos: nat, saved: Result<Option<Saved>, Error>) {
    match saved
    case Ok(Some(Saved(state, back))) => back <= inPos && Stands(s, state, inPos - back, outPos)
    case _ => true
  }

  lemma LawfulStep(s: Stream, state: State, inPos: nat, outPos: nat, input: seq<byte>, room: nat)
    requires Lawful(s) && Stands(s, state, inPos, outPos) && Feeds(s.packed, inPos, input)
    ensures Sound(s, inPos, outPos, input, room, Apply(s, state, input, room))
  {
  }

  /** The codec can save any state it reaches. */
  ghost predicate SavesAnywhere(s: Stream) {
    forall state: State, i: nat, o: nat :: Stands(s, state, i, o) ==>
      s.codec.save(state).Ok? && s.codec.save(state).value.Some?
  }

  /** The codec does not fail on the stream, and given room it moves or ends:
      the packed bytes are a whole stream of its kind. */
  ghost predicate Lively(s: Stream) {
    forall state: State, i: nat, o: nat, input: seq<byte>, room: nat ::
      Stands(s, state, i, o) && Feeds(s.packed, i, input) && room > 0 ==> Moves(Apply(s, state, input, room))
  }

  ghost predicate Moves(step: Step) {
    step.Stepped? && (step.consumed > 0 || step.bytes != [] || step.status.StreamEnd?)
  }

  /** Asked for a state, the codec may have none to give, but does not fail. */
  ghost predicate SavesOrSkips(s: Stream) {
    forall state: State, i: nat, o: nat :: Stands(s, state, i, o) ==> s.codec.save(state).Ok?
  }

  /** The codec saves its states where they stand. */
  ghost predicate SavesExactly(s: Stream) {
    forall state: State, i: nat, o: nat :: Stands(s, state, i, o) ==> ExactlySaved(s.codec.save(state))
  }

  ghost predicate ExactlySaved(saved: Result<Option<Saved>, Error>) {
    match saved
    case Ok(Some(Saved(_, back))) => back == 0
    case _ => true
  }

  /** What can be reached can be restored. */
  ghost predicate Reloads(s: Stream) {
    forall state: State, i: nat, o: nat :: Stands(s, state, i, o) ==> s.codec.loads(state)
  }

  /** Nothing in the codec stands in the way of a reader. */
  ghost predicate Dependable(s: Stream) {
    Lively(s) && Reloads(s)
  }

  /** Nothing in the codec stands in the way of an engine. */
  ghost predicate Unfailing(s: Stream) {
    Dependable(s) && SavesOrSkips(s)
  }

  lemma LivelyStep(s: Stream, state: State, inPos: nat, outPos: nat, input: seq<byte>, room: nat)
    requires Stands(s, state, inPos, outPos) && Feeds(s.packed, inPos, input)
    ensures Lively(s) && room > 0 ==> Moves(Apply(s, state, input, room))
  {
  }

  /** Without a state, the start of the stream. */
  datatype Checkpoint = Checkpoint(compressed: nat, unpacked: nat, state: Option<State>)

  const START := Checkpoint(0, 0, None)

  function EstimatedSize(cp: Checkpoint): (n: nat)
    ensures n >= 17
  {
    17 + match cp.state case None => 0 case Some(state) => state.Size()
  }

  /** Restoring the checkpoint puts a decoder at the offsets it carries. */
  ghost predicate Genuine(s: Stream, cp: Checkpoint) {
    match cp.state
    case None => cp == START
    case Some(state) => Stands(s, state, cp.compressed, cp.unpacked)
  }

  predicate Loads(s: Stream, cp: Checkpoint) {
    cp.state.None? || s.codec.loads(cp.state.value)
  }

  lemma GenuineLoads(s: Stream, cp: Checkpoint)
    requires Genuine(s, cp)
    ensures Reloads(s) ==> Loads(s, cp)
  {
  }

  lemma GenuineBounds(s: Stream, cp: Checkpoint)
    requires Lawful(s) && Genuine(s, cp)
    ensures cp.compressed <= |s.packed| && cp.unpacked <= |s.data|
  {
  }

  datatype Decoded = Decoded(consumed: nat, produced: nat, status: Status) {
    predicate Moved() {
      consumed + produced > 0 || status.StreamEnd?
    }
  }

  class Decompressor {
    const stream: Stream
    var state: State
    ghost var inPos: nat
    ghost var outPos: nat

    ghost predicate Valid()
      reads this
      ensures Valid() ==> Lawful(stream) && inPos <= |stream.packed| && outPos <= |stream.data|
    {
      Lawful(stream) && Stands(stream, state, inPos, outPos)
    }

    constructor (stream: Stream)
      requires Lawful(stream)
      ensures Valid() && this.stream == stream && inPos == 0 && outPos == 0
      ensures state == stream.codec.start
    {
      this.stream := stream;
      state, inPos, outPos := stream.codec.start, 0, 0;
    }

    /** Decodes from `input` into the first `room` bytes of `output`. */
    method Decompress(input: seq<byte>, output: array<byte>, room: nat) returns (r: Result<Decoded, Error>)
      requires Valid() && Feeds(stream.packed, inPos, input) && room <= output.Length
      modifies this`state, this`inPos, this`outPos, output
      ensures Valid()
      ensures Lively(stream) && room > 0 ==> r.Ok?
      ensures match Apply(stream, old(state), input, room)
              case Failed(error) => r == Err(error)
              case Stepped(next, consumed, bytes, status) =>
                && r == Ok(Decoded(consumed, |bytes|, status)) && state == next
                && |bytes| <= output.Length && output[..|bytes|] == bytes
      ensures r.Ok? ==>
                && r.value.consumed <= |input| && inPos == old(inPos) + r.value.consumed
                && r.value.produced <= room && outPos == old(outPos) + r.value.produced
                && output[..r.value.produced] == stream.data[old(outPos)..outPos]
                && (r.value.status.StreamEnd? ==> outPos == |stream.data|)
                && (Lively(stream) && room > 0 ==> r.value.Moved())
    {
      var step := Apply(stream, state, input, room);
      LawfulStep(stream, state, inPos, outPos, input, room);
      LivelyStep(stream, state, inPos, outPos, input, room);
      hide Lawful, Lively, Feeds, Stands, Apply;
      match step {
        case Failed(error) => return Err(error);
        case Stepped(next, consumed, bytes, status) =>
          CopyFront(bytes, output);
          state := next;
          inPos, outPos := inPos + consumed, outPos + |bytes|;
          return Ok(Decoded(consumed, |bytes|, status));
      }
    }

    /** Snapshots the decoder; the offsets are the caller's own counts. */
    method Save(compressed: nat, unpacked: nat) returns (r: Result<Option<Checkpoint>, Error>)
      requires Valid() && compressed == inPos && unpacked == outPos
      ensures match stream.codec.save(state)
              case Err(error) => r == Err(error)
              case Ok(None) => r == Ok(None)
              case Ok(Some(Saved(saved, back))) =>
                back <= compressed && r == Ok(Some(Checkpoint(compressed - back, unpacked, Some(saved))))
      ensures r.Ok? && r.value.Some? ==>
                && Genuine(stream, r.value.value) && r.value.value.state.Some?
                && r.value.value.compressed <= compressed && r.value.value.unpacked == unpacked
      ensures SavesAnywhere(stream) ==> r.Ok? && r.value.Some?
      ensures SavesOrSkips(stream) ==> r.Ok?
      ensures SavesExactly(stream) && r.Ok? && r.value.Some? ==> r.value.value.compressed == compressed
    {
      var saved := stream.codec.save(state);
      assert SavesExactly(stream) ==> ExactlySaved(saved);
      assert SavedSound(stream, inPos, outPos, saved);
      match saved {
        case Err(error) => return Err(error);
        case Ok(None) => return Ok(None);
        case Ok(Some(Saved(state, back))) => return Ok(Some(Checkpoint(compressed - back, unpacked, Some(state))));
      }
    }

    /** Goes back to a checkpoint; one that cannot be loaded leaves the decoder
        as it was. */
    method Restore(cp: Checkpoint) returns (r: Result<(), Error>)
      requires Lawful(stream) && Genuine(stream, cp)
      modifies this`state, this`inPos, this`outPos
      ensures r.Ok? <==> Loads(stream, cp)
      ensures r.Err? ==> unchanged(this)
      ensures r.Ok? ==> Valid() && inPos == cp.compressed && outPos == cp.unpacked
      ensures r.Ok? ==> state == match cp.state case None => stream.codec.start case Some(saved) => saved
    {
      if !Loads(stream, cp) {
        return Err(CheckpointError);
      }
      state := match cp.state case None => stream.codec.start case Some(saved) => saved;
      inPos, outPos := cp.compressed, cp.unpacked;
      return Ok(());
    }
  }
}
