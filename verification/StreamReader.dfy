/**
  Reads at any offset of the unpacked data.

  A reader restores the nearest checkpoint, decodes and drops what comes
  before the range, and serves the range. It stays live: a later range reuses
  what is already decoded. Whatever the decoder and the caller's buffers do,
  the bytes served must be that slice of the stream and nothing else.
 */
module StreamReaders {
  import opened Arithmetic
  import opened Bytes
  import opened Sequences
  import opened Wrappers
  import opened Decompressors
  import opened StreamIndexing

  datatype ReaderState =
    | SeekToCheckpoint
    | Skipping(remaining: nat)
    | Emitting(remaining: nat)
    | NeedInputSkipping(remaining: nat)
    | NeedInputEmitting(remaining: nat)
    | Idle

  /** What is left of a range's length when the data ends where it is said to. */
  function ClampLen(unpackedLen: Option<nat>, offset: nat, len: nat): nat {
    match unpackedLen
    case None => len
    case Some(total) => if offset >= total then 0 else Min(len, total - offset)
  }

  /** The part of `data` in `offset..offset + len`. */
  function Slice(data: seq<byte>, offset: nat, len: nat): seq<byte> {
    data[Min(offset, |data|)..Min(offset + len, |data|)]
  }

  /** The data ends inside the range or before it. */
  predicate ShortOf(data: seq<byte>, offset: nat, len: nat) {
    len > 0 && |data| < offset + len
  }

  lemma SliceShort(data: seq<byte>, offset: nat, len: nat)
    ensures ShortOf(data, offset, len) <==> |Slice(data, offset, len)| < len
  {
  }

  lemma SliceGrows(data: seq<byte>, offset: nat, len: nat, n: nat)
    requires offset + len + n <= |data|
    ensures Slice(data, offset, len + n) == Slice(data, offset, len) + data[offset + len..offset + len + n]
  {
    Joined(data, offset, offset + len, offset + len + n);
  }

  lemma SliceEmpty(data: seq<byte>, offset: nat)
    ensures Slice(data, offset, 0) == []
  {
  }

  class StreamReader {
    const stream: Stream
    const decompressor: Decompressor
    const checkpoint: Checkpoint
    var targetOffset: nat
    var targetLen: nat
    var state: ReaderState
    /** Cells `outputRead..outputLen` are held: served first, and perhaps more
        than the range asks for. */
    const outputBuf: array<byte>
    const skipBuf: array<byte>
    var outputLen: nat
    var outputRead: nat
    var rangeLeft: nat
    var inputBuf: seq<byte>
    var inputPos: nat
    /** How much of the packed stream has been provided. */
    var compressedPos: nat
    /** How far decoding has come, what is held included. */
    var unpackedPos: nat
    var eof: bool
    var streamEnded: bool
    var started: bool
    const unpackedLen: Option<nat>
    var requireFull: bool
    /** What the current range has been served. */
    ghost var served: seq<byte>

    ghost predicate Plumbed()
      reads this`started, this`unpackedPos, this`compressedPos, this`inputBuf, this`inputPos, this`eof, decompressor
      ensures Plumbed() ==> inputPos <= |inputBuf| && compressedPos <= |stream.packed|
      ensures Plumbed() && started ==> unpackedPos <= |stream.data| && Work() >= 0
    {
      && decompressor.stream == stream && Lawful(stream)
      && inputPos <= |inputBuf| && compressedPos <= |stream.packed|
      && (eof ==> compressedPos == |stream.packed|)
      && if started then
           && decompressor.Valid() && unpackedPos == decompressor.outPos
           && decompressor.inPos + |inputBuf| - inputPos == compressedPos
           && inputBuf[inputPos..] == stream.packed[decompressor.inPos..compressedPos]
         else
           Genuine(stream, checkpoint) && inputBuf == [] && compressedPos == checkpoint.compressed
    }

    ghost predicate Buffered()
      reads this`outputRead, this`outputLen, this`unpackedPos, this`started, outputBuf
      ensures Buffered() ==> outputRead <= outputLen <= outputBuf.Length == skipBuf.Length == BUF_SIZE
      ensures Buffered() ==> outputBuf != skipBuf && (outputRead == outputLen ==> outputLen == 0)
      ensures Buffered() && !started ==> outputLen == 0
    {
      && (outputRead < outputLen || (outputRead == 0 && outputLen == 0))
      && outputLen <= outputBuf.Length == skipBuf.Length == BUF_SIZE && outputBuf != skipBuf
      && (!started ==> outputLen == 0)
      && outputLen - outputRead <= unpackedPos <= |stream.data|
      && outputBuf[outputRead..outputLen] == stream.data[unpackedPos - (outputLen - outputRead)..unpackedPos]
    }

    /** The next byte decoded for the caller is the next byte of the range. */
    ghost predicate AtCursor()
      reads this`started, this`unpackedPos, this`outputLen, this`outputRead, this`targetOffset, this`served
    {
      started && unpackedPos - (outputLen - outputRead) == targetOffset + |served|
    }

    /** What each state says about the range. */
    ghost predicate Ranged()
      reads this`targetOffset, this`targetLen, this`state, this`outputLen, this`outputRead, this`rangeLeft
      reads this`inputBuf, this`inputPos, this`unpackedPos, this`streamEnded, this`started, this`served
    {
      var buffered := outputLen - outputRead;
      && rangeLeft <= targetLen && |served| == targetLen - rangeLeft
      && served == Slice(stream.data, targetOffset, |served|)
      && (streamEnded ==> started && unpackedPos == |stream.data|)
      && match state
         case SeekToCheckpoint =>
           !started && rangeLeft == targetLen > 0 && checkpoint.unpacked <= targetOffset
         case Skipping(r) =>
           && started && !streamEnded && buffered == 0 && r > 0 && unpackedPos + r == targetOffset
           && rangeLeft == targetLen > 0
         case NeedInputSkipping(r) =>
           && started && !streamEnded && buffered == 0 && r > 0 && unpackedPos + r == targetOffset
           && rangeLeft == targetLen > 0 && inputPos == |inputBuf|
         case Emitting(r) => !streamEnded && r > 0 && AtCursor() && rangeLeft == buffered + r
         case NeedInputEmitting(r) =>
           !streamEnded && r > 0 && AtCursor() && rangeLeft == buffered + r && inputPos == |inputBuf|
         case Idle =>
           || (rangeLeft == 0 &&
               if started then unpackedPos - buffered <= targetOffset else checkpoint.unpacked <= targetOffset)
           || (AtCursor() && (rangeLeft <= buffered || streamEnded))
           || (streamEnded && buffered == 0 && served == [] && unpackedPos <= targetOffset)
    }

    ghost predicate Valid()
      reads this, decompressor, outputBuf
    {
      Plumbed() && Buffered() && Ranged()
    }

    ghost function Work(): int
      reads decompressor
    {
      |stream.packed| - decompressor.inPos + |stream.data| - decompressor.outPos
    }

    /** Reads `len` unpacked bytes from `offset`, cut to the length the index
        declares. */
    constructor (stream: Stream, index: StreamIndex, offset: nat, len: nat)
      requires Lawful(stream) && ReadableAt(stream, index.checkpoints, offset)
      ensures Valid() && this.stream == stream && fresh(decompressor) && fresh(outputBuf) && fresh(skipBuf)
      ensures targetOffset == offset && targetLen == ClampLen(index.unpackedLen, offset, len) && served == []
      ensures unpackedLen == index.unpackedLen && requireFull == index.unpackedLen.Some?
      ensures !started && !eof && checkpoint in index.checkpoints && checkpoint.unpacked <= offset
      ensures forall cp :: cp in index.checkpoints && cp.unpacked <= offset ==> cp.unpacked <= checkpoint.unpacked
    {
      hide Lawful, Slice, Genuine, Sorted, Plumbed, Buffered, Ranged, ClampLen, BestCheckpoint, Decompressor.Valid;
      this.stream := stream;
      BestIsNearest(index.checkpoints, offset);
      var cp := index.checkpoints[BestCheckpoint(index.checkpoints, offset)];
      var cut := ClampLen(index.unpackedLen, offset, len);
      decompressor := new Decompressor(stream);
      checkpoint := cp;
      targetOffset, targetLen, rangeLeft := offset, cut, cut;
      state := if cut == 0 then Idle else SeekToCheckpoint;
      outputBuf := new byte[BUF_SIZE](_ => 0);
      skipBuf := new byte[BUF_SIZE](_ => 0);
      outputLen, outputRead, inputBuf, inputPos := 0, 0, [], 0;
      compressedPos, unpackedPos, eof, streamEnded, started := cp.compressed, 0, false, false, false;
      unpackedLen, requireFull := index.unpackedLen, index.unpackedLen.Some?;
      served := [];
      new;
      Primed();
    }

    /** With nothing restored and nothing buffered, all is in order. */
    lemma Primed()
      requires Lawful(stream) && Genuine(stream, checkpoint) && checkpoint.unpacked <= targetOffset
      requires decompressor.stream == stream && inputBuf == [] && inputPos == 0
      requires outputLen == 0 && outputRead == 0 && outputBuf != skipBuf
      requires outputBuf.Length == skipBuf.Length == BUF_SIZE
      requires compressedPos == checkpoint.compressed && unpackedPos == 0 && !started && !eof && !streamEnded
      requires rangeLeft == targetLen && served == []
      requires state == if targetLen == 0 then Idle else SeekToCheckpoint
      ensures Plumbed() && Buffered() && Ranged()
    {
      GenuineBounds(stream, checkpoint);
      SliceEmpty(stream.data, targetOffset);
      assert outputBuf[0..0] == stream.data[0..0];
    }

    /** From here on, falling short is an error. */
    method RequireFullRange()
      requires Valid()
      modifies this`requireFull
      ensures Valid() && requireFull
    {
      requireFull := true;
    }

    function Serveable(): nat
      reads this`outputLen, this`outputRead, this`rangeLeft
      requires outputRead <= outputLen
    {
      Min(outputLen - outputRead, rangeLeft)
    }

    /** Where the next byte served lies in the data. */
    function Position(): nat
      reads this, outputBuf
      requires Buffered()
    {
      if !started then targetOffset else unpackedPos - (outputLen - outputRead)
    }

    /** Hands out held bytes of the range, as far as `buf` goes. */
    method ReadOutput(buf: array<byte>) returns (n: nat)
      requires Valid() && buf != outputBuf && buf != skipBuf
      modifies this`outputLen, this`outputRead, this`rangeLeft, this`served, buf
      ensures Valid() && n == Min(old(Serveable()), buf.Length)
      ensures served == old(served) + buf[..n] && rangeLeft == old(rangeLeft) - n
      ensures old(Position()) + n <= |stream.data| || n == 0
      ensures n > 0 ==> buf[..n] == stream.data[old(Position())..old(Position()) + n]
      ensures Position() == old(Position()) + n
    {
      hide Plumbed, Buffered, Ranged;
      n := Min(Serveable(), buf.Length);
      if n == 0 {
        assert served == served + buf[..0];
        return;
      }
      NextInRange(n);
      CopyFront(outputBuf[outputRead..outputRead + n], buf);
      Serve(n);
    }

    /** Held bytes that may be served are the next ones of the range. */
    lemma NextInRange(n: nat)
      requires Valid() && 0 < n <= Serveable()
      ensures AtCursor() && Position() + n <= |stream.data|
      ensures outputBuf[outputRead..outputRead + n] == stream.data[Position()..Position() + n]
    {
      var all := outputBuf[..];
      Halves(stream.data, Position(), n, unpackedPos);
      Halves(all, outputRead, n, outputLen);
      assert outputBuf[outputRead..outputLen] == all[outputRead..outputLen];
      assert outputBuf[outputRead..outputRead + n] == all[outputRead..outputRead + n];
    }

    method Serve(n: nat)
      requires Buffered() && Ranged() && AtCursor() && 0 < n <= Serveable() && Position() + n <= |stream.data|
      modifies this`outputLen, this`outputRead, this`rangeLeft, this`served
      ensures Buffered() && Ranged() && rangeLeft == old(rangeLeft) - n
      ensures outputLen - outputRead == old(outputLen - outputRead) - n
      ensures served == old(served + stream.data[Position()..Position() + n])
    {
      hide Buffered, Slice;
      SliceGrows(stream.data, targetOffset, |served|, n);
      served := served + stream.data[Position()..Position() + n];
      rangeLeft := rangeLeft - n;
      Drop(n);
    }

    /** Moves past held bytes. */
    method Drop(n: nat)
      requires Buffered() && n <= outputLen - outputRead
      modifies this`outputLen, this`outputRead
      ensures Buffered() && outputLen - outputRead == old(outputLen - outputRead) - n
    {
      StillHeld(n);
      outputRead := outputRead + n;
      if outputRead >= outputLen {
        outputLen, outputRead := 0, 0;
        NothingHeld();
      }
    }

    lemma StillHeld(n: nat)
      requires Buffered() && n <= outputLen - outputRead
      ensures outputBuf[outputRead + n..outputLen]
           == stream.data[unpackedPos - (outputLen - outputRead - n)..unpackedPos]
    {
      var all := outputBuf[..];
      Halves(stream.data, unpackedPos - (outputLen - outputRead), n, unpackedPos);
      Halves(all, outputRead, n, outputLen);
      assert outputBuf[outputRead..outputLen] == all[outputRead..outputLen];
      assert outputBuf[outputRead + n..outputLen] == all[outputRead + n..outputLen];
    }

    /** Turns to a range that does not start before the cursor. */
    method SeekForward(offset: nat, len: nat) returns (r: Result<(), Error>)
      requires Valid()
      modifies this`targetOffset, this`targetLen, this`rangeLeft, this`state, this`outputLen, this`outputRead,
          this`served
      ensures Valid() && (r.Ok? <==> offset >= old(Position()))
      ensures r.Ok? ==> targetOffset == offset && targetLen == ClampLen(unpackedLen, offset, len) && served == []
      ensures r.Err? ==> unchanged(this)
    {
      hide Plumbed, Slice, Ranged;
      if !started {
        if offset < targetOffset {
          return Err(InvalidState);
        }
        Aim(offset, ClampLen(unpackedLen, offset, len));
        return Ok(());
      }
      EndedAtEnd();
      var position := Position();
      if offset < position {
        return Err(InvalidState);
      }
      var buffered := outputLen - outputRead;
      var drop := Min(offset - position, buffered);
      Drop(drop);
      Retarget(offset, ClampLen(unpackedLen, offset, len), offset - position - drop);
      return Ok(());
    }

    lemma EndedAtEnd()
      requires Ranged()
      ensures streamEnded ==> unpackedPos == |stream.data|
    {
    }

    /** Aims at a range before anything has been decoded. */
    method Aim(offset: nat, len: nat)
      requires Ranged() && Buffered() && !started && offset >= targetOffset
      modifies this`targetOffset, this`targetLen, this`rangeLeft, this`state, this`served
      ensures Ranged() && targetOffset == offset && targetLen == len && served == []
    {
      hide Slice;
      SliceEmpty(stream.data, offset);
      targetOffset, targetLen, rangeLeft, served := offset, len, len, [];
      state := if len == 0 then Idle else SeekToCheckpoint;
    }

    /** Aims at a range that starts `beyond` bytes past what is held. */
    method Retarget(offset: nat, len: nat, beyond: nat)
      requires started && Buffered() && (streamEnded ==> unpackedPos == |stream.data|)
      requires offset == Position() + beyond && (beyond > 0 ==> outputRead == outputLen)
      modifies this`targetOffset, this`targetLen, this`rangeLeft, this`state, this`served
      ensures Ranged() && targetOffset == offset && targetLen == len && served == []
    {
      hide Slice;
      SliceEmpty(stream.data, offset);
      targetOffset, targetLen, rangeLeft, served := offset, len, len, [];
      var remaining := len - Serveable();
      state :=
        if remaining == 0 || streamEnded then Idle
        else if beyond > 0 then Skipping(beyond)
        else Emitting(remaining);
    }

    /** Provides what comes next of the packed stream. */
    method ProvideData(data: seq<byte>)
      requires Valid() && started && inputPos == |inputBuf|
      requires compressedPos + |data| <= |stream.packed|
      requires data == stream.packed[compressedPos..compressedPos + |data|]
      modifies this`inputBuf, this`inputPos, this`compressedPos, this`state
      ensures Valid() && compressedPos == old(compressedPos) + |data|
    {
      hide Plumbed, Buffered, Ranged;
      TakeUp();
      Refill(data);
    }

    /** Goes back to decoding where input had run out. */
    method TakeUp()
      requires Ranged()
      modifies this`state
      ensures Ranged() && !state.NeedInputSkipping? && !state.NeedInputEmitting?
    {
      hide Slice;
      match state {
        case NeedInputSkipping(remaining) => state := Skipping(remaining);
        case NeedInputEmitting(remaining) => state := Emitting(remaining);
        case _ =>
      }
    }

    method Refill(data: seq<byte>)
      requires Plumbed() && Ranged() && !state.NeedInputSkipping? && !state.NeedInputEmitting?
      requires started && inputPos == |inputBuf| && compressedPos + |data| <= |stream.packed|
      requires data == stream.packed[compressedPos..compressedPos + |data|]
      modifies this`inputBuf, this`inputPos, this`compressedPos
      ensures Plumbed() && Ranged() && compressedPos == old(compressedPos) + |data|
    {
      hide Lawful, Decompressor.Valid, Slice;
      inputBuf, inputPos, compressedPos := data, 0, compressedPos + |data|;
    }

    /** Everything was provided. */
    method SignalEof()
      requires Valid() && compressedPos == |stream.packed|
      modifies this`eof
      ensures Valid() && eof
    {
      hide Buffered, Ranged;
      eof := true;
    }

    /** What `r` means to the caller; `work` is from before the step. */
    ghost predicate Answers(r: Request, work: int)
      reads this, decompressor, outputBuf
      requires Buffered()
    {
      match r
      case NeedInput => started && inputPos == |inputBuf| && Serveable() == 0 && (eof ==> Work() < work)
      case SeekAndRead(offset, _) => started && offset == compressedPos && inputPos == |inputBuf|
      case OutputReady => Serveable() > 0
      case Done => state.Idle? && Serveable() == 0
      case Failure(_) => true
    }

    /** Drives the reader to its next request. */
    method Step() returns (r: Request)
      requires Valid()
      modifies this`state, this`inputPos, this`compressedPos, this`unpackedPos, this`outputLen, this`outputRead
      modifies this`streamEnded, this`started, decompressor, outputBuf, skipBuf
      ensures !r.Failure? ==> Valid() && Answers(r, old(Work()))
      ensures !r.Failure? && old(started) ==>
                started && compressedPos == old(compressedPos) && Work() <= old(Work())
      ensures r.SeekAndRead? ==> !old(started)
      ensures !old(started) ==> r.SeekAndRead? || r.Done? || r.Failure?
      ensures r.Done? && requireFull ==> rangeLeft == 0
      ensures Dependable(stream) && r.Failure? ==>
                r.error == TruncatedInput && requireFull && ShortOf(stream.data, targetOffset, targetLen)
    {
      hide Plumbed, Ranged, Buffered, Dependable;
      while true
        invariant Valid()
        invariant old(started) ==> started && compressedPos == old(compressedPos) && Work() <= old(Work())
        invariant !old(started) && started ==> false
        decreases started, Work()
      {
        var answer := StepOnce();
        if answer.Some? {
          if answer.value.Done? && rangeLeft > 0 && requireFull {
            RangeServed();
            return Failure(TruncatedInput);
          }
          return answer.value;
        }
      }
    }

    /** One pass of the step loop; `None` goes round again. */
    method StepOnce() returns (r: Option<Request>)
      requires Valid()
      modifies this`state, this`inputPos, this`compressedPos, this`unpackedPos, this`outputLen, this`outputRead
      modifies this`streamEnded, this`started, decompressor, outputBuf, skipBuf
      ensures r == None || !r.value.Failure? ==> Valid()
      ensures r.Some? && !r.value.Failure? ==> Answers(r.value, old(Work()))
      ensures r == None ==> old(started) && Work() < old(Work())
      ensures (r == None || !r.value.Failure?) && old(started) ==>
                started && compressedPos == old(compressedPos) && Work() <= old(Work())
      ensures r.Some? && r.value.SeekAndRead? ==> !old(started)
      ensures !old(started) ==> r.Some? && (r.value.SeekAndRead? || r.value.Done? || r.value.Failure?)
      ensures Dependable(stream) ==> r == None || !r.value.Failure?
    {
      hide Plumbed, Buffered, Slice, Lively, Reloads;
      if Serveable() > 0 {
        return Some(OutputReady);
      }
      match state {
        case Idle => return Some(Done);
        case SeekToCheckpoint =>
          var error := RestoreCheckpoint();
          if error.Some? {
            return Some(Failure(error.value));
          }
          return Some(SeekAndRead(compressedPos, BUF_SIZE));
        case NeedInputSkipping(remaining) =>
          if !eof {
            return Some(NeedInput);
          }
          state := Skipping(remaining);
          r := Skip(remaining);
        case NeedInputEmitting(remaining) =>
          if !eof {
            return Some(NeedInput);
          }
          state := Emitting(remaining);
          r := Emit(remaining);
        case Skipping(remaining) => r := Skip(remaining);
        case Emitting(remaining) => r := Emit(remaining);
      }
    }

    method RestoreCheckpoint() returns (error: Option<Error>)
      requires Valid() && state.SeekToCheckpoint?
      modifies this`state, this`compressedPos, this`unpackedPos, this`started, decompressor
      ensures error.None? <==> Loads(stream, checkpoint)
      ensures Reloads(stream) ==> error.None?
      ensures error.None? ==> Valid() && started && (state.NeedInputSkipping? || state.NeedInputEmitting?)
      ensures error.None? ==> inputPos == |inputBuf|
    {
      hide Slice, Lawful, Genuine, Loads, Reloads, Buffered, Decompressor.Valid;
      GenuineBounds(stream, checkpoint);
      GenuineLoads(stream, checkpoint);
      var restored := decompressor.Restore(checkpoint);
      if restored.Err? {
        return Some(restored.error);
      }
      started := true;
      compressedPos, unpackedPos := checkpoint.compressed, checkpoint.unpacked;
      var skip := if targetOffset > unpackedPos then targetOffset - unpackedPos else 0;
      state := if skip > 0 then NeedInputSkipping(skip) else NeedInputEmitting(targetLen);
      SliceEmpty(stream.data, targetOffset);
      NothingHeld();
      assert stream.packed[compressedPos..compressedPos] == [];
      return None;
    }

    /** Runs the decoder on what input there is, into `buf`. */
    method Decode(buf: array<byte>, room: nat) returns (r: Result<Decoded, Error>)
      requires Plumbed() && started && (inputPos < |inputBuf| || eof) && room <= buf.Length
      modifies this`inputPos, this`unpackedPos, decompressor, buf
      ensures Lively(stream) && room > 0 ==> r.Ok? && r.value.Moved()
      ensures r.Ok? ==>
                && Plumbed() && r.value.produced <= room
                && inputPos == old(inputPos) + r.value.consumed
                && unpackedPos == old(unpackedPos) + r.value.produced
                && Work() == old(Work()) - r.value.consumed - r.value.produced
                && buf[..r.value.produced] == stream.data[old(unpackedPos)..unpackedPos]
                && (r.value.status.StreamEnd? ==> unpackedPos == |stream.data|)
    {
      hide Lawful, Lively;
      var input := inputBuf[inputPos..];
      r := decompressor.Decompress(input, buf, room);
      if r.Ok? {
        inputPos := inputPos + r.value.consumed;
        unpackedPos := unpackedPos + r.value.produced;
        assert inputBuf[inputPos..] == input[r.value.consumed..];
      }
    }

    /** Nothing is held, and decoding stands `remaining` bytes before the
        range. */
    ghost predicate Before(from: int, remaining: nat)
      reads this`targetOffset, this`targetLen, this`rangeLeft, this`started, this`streamEnded, this`served
    {
      && started && !streamEnded && remaining > 0 && from + remaining == targetOffset
      && rangeLeft == targetLen > 0 && served == []
    }

    /** Nothing is held, and decoding stands at the next byte of the range,
        with `remaining` to come. */
    ghost predicate Within(from: int, remaining: nat)
      reads this`targetOffset, this`targetLen, this`rangeLeft, this`started, this`streamEnded, this`served
    {
      && started && !streamEnded && remaining > 0 && from == targetOffset + |served|
      && rangeLeft == remaining <= targetLen && |served| == targetLen - rangeLeft
      && served == Slice(stream.data, targetOffset, |served|)
    }

    lemma Standing()
      requires Ranged() && outputRead == outputLen == 0
      ensures state.Skipping? ==> Before(unpackedPos, state.remaining)
      ensures state.Emitting? ==> Within(unpackedPos, state.remaining)
    {
    }

    /** Stops until there is input. */
    method Wait(next: ReaderState)
      requires outputRead == outputLen == 0 && inputPos == |inputBuf|
      requires next.NeedInputSkipping? || next.NeedInputEmitting?
      requires if next.NeedInputSkipping? then Before(unpackedPos, next.remaining)
          else Within(unpackedPos, next.remaining)
      modifies this`state
      ensures Ranged() && state == next
    {
      hide Slice;
      SliceEmpty(stream.data, targetOffset);
      state := next;
    }

    /** Takes up decoding where it stands. */
    method Proceed(next: ReaderState)
      requires outputRead == outputLen == 0 && (next.Skipping? || next.Emitting?)
      requires if next.Skipping? then Before(unpackedPos, next.remaining) else Within(unpackedPos, next.remaining)
      modifies this`state
      ensures Ranged() && state == next
    {
      hide Slice;
      SliceEmpty(stream.data, targetOffset);
      state := next;
    }

    ghost predicate HoldsNothing()
      reads this`outputRead, this`outputLen
    {
      && outputRead == outputLen == 0
      && outputBuf.Length == skipBuf.Length == BUF_SIZE && outputBuf != skipBuf
    }

    /** Decodes and drops. */
    method Skip(remaining: nat) returns (r: Option<Request>)
      requires Valid() && state == Skipping(remaining)
      modifies this`state, this`inputPos, this`unpackedPos, this`outputLen, this`outputRead, this`streamEnded
      modifies decompressor, outputBuf, skipBuf
      ensures r == None || !r.value.Failure? ==> Valid() && Work() <= old(Work())
      ensures r.Some? && !r.value.Failure? ==> !r.value.SeekAndRead? && Answers(r.value, old(Work()))
      ensures r == None ==> Work() < old(Work())
      ensures Lively(stream) ==> r == None || !r.value.Failure?
    {
      SkipsEmpty();
      Standing();
      hide Plumbed, Buffered, Ranged, Before, Lively, Lawful, Decompressor.Valid, Slice;
      var hadInput := inputPos < |inputBuf|;
      if !hadInput && !eof {
        Wait(NeedInputSkipping(remaining));
        return Some(NeedInput);
      }
      var result := Decode(skipBuf, skipBuf.Length);
      if result.Err? {
        return Some(Failure(result.error));
      }
      r := Skipped(remaining, result.value, hadInput);
    }

    lemma SkipsEmpty()
      requires Buffered() && Ranged() && state.Skipping?
      ensures HoldsNothing()
    {
    }

    method Skipped(remaining: nat, d: Decoded, hadInput: bool) returns (r: Option<Request>)
      requires Plumbed() && HoldsNothing() && d.produced <= unpackedPos && d.produced <= skipBuf.Length
      requires Before(unpackedPos - d.produced, remaining)
      requires skipBuf[..d.produced] == stream.data[unpackedPos - d.produced..unpackedPos]
      requires d.status.StreamEnd? ==> unpackedPos == |stream.data|
      requires hadInput && inputPos == |inputBuf| ==> d.consumed > 0
      requires !hadInput ==> inputPos == |inputBuf|
      modifies this`state, this`outputLen, this`outputRead, this`streamEnded, outputBuf
      ensures d.Moved() ==> r == None || !r.value.Failure?
      ensures r == None || !r.value.Failure? ==> Valid()
      ensures r.Some? && !r.value.Failure? ==>
                !r.value.SeekAndRead? && Answers(r.value, Work() + d.consumed + d.produced)
      ensures r == None ==> d.consumed + d.produced > 0
    {
      hide Plumbed, Buffered, Ranged, Slice;
      SliceEmpty(stream.data, targetOffset);
      if d.produced > remaining {
        // The last step went into the range.
        var take := d.produced - remaining;
        KeepOvershoot(remaining, d.produced);
        Deliver(if targetLen <= take then 0 else targetLen - take, d.status.StreamEnd?);
        return Some(OutputReady);
      }
      Proceed(if d.produced == remaining then Emitting(targetLen) else Skipping(remaining - d.produced));
      NothingHeld();
      r := AfterDecode(d, hadInput);
    }

    /** Goes on after decoding bytes of the range, with `left` of it to come. */
    method Deliver(left: nat, ended: bool)
      requires AtCursor() && |served| == targetLen - rangeLeft && rangeLeft <= targetLen
      requires served == Slice(stream.data, targetOffset, |served|) && !streamEnded
      requires ended ==> unpackedPos == |stream.data|
      requires outputRead <= outputLen
        && if left == 0 then rangeLeft <= outputLen - outputRead else rangeLeft == outputLen - outputRead + left
      modifies this`state, this`streamEnded
      ensures Ranged()
    {
      state := if left == 0 then Idle else Emitting(left);
      if ended {
        streamEnded, state := true, Idle;
      }
    }

    /** Keeps the part of the dropped bytes from `start` on. */
    method KeepOvershoot(start: nat, produced: nat)
      requires start < produced <= skipBuf.Length == outputBuf.Length == BUF_SIZE && outputBuf != skipBuf && started
      requires produced <= unpackedPos <= |stream.data|
      requires skipBuf[..produced] == stream.data[unpackedPos - produced..unpackedPos]
      modifies this`outputLen, this`outputRead, outputBuf
      ensures Buffered() && outputRead == 0 && outputLen == produced - start
    {
      ghost var all := skipBuf[..];
      Halves(stream.data, unpackedPos - produced, start, unpackedPos);
      Halves(all, 0, start, produced);
      assert skipBuf[..produced] == all[0..produced] && skipBuf[start..produced] == all[start..produced];
      CopyFront(skipBuf[start..produced], outputBuf);
      outputLen, outputRead := produced - start, 0;
      assert outputBuf[0..outputLen] == outputBuf[..outputLen];
    }

    lemma NothingHeld()
      requires outputRead == 0 && outputLen == 0 && outputBuf.Length == skipBuf.Length == BUF_SIZE
      requires outputBuf != skipBuf && unpackedPos <= |stream.data|
      ensures Buffered()
    {
      assert outputBuf[0..0] == stream.data[unpackedPos..unpackedPos];
    }

    lemma Holds(produced: nat)
      requires 0 < produced <= outputBuf.Length == skipBuf.Length == BUF_SIZE && outputBuf != skipBuf && started
      requires produced <= unpackedPos <= |stream.data| && outputRead == 0 && outputLen == produced
      requires outputBuf[..produced] == stream.data[unpackedPos - produced..unpackedPos]
      ensures Buffered()
    {
      assert outputBuf[0..produced] == outputBuf[..produced];
    }

    /** Decodes for the caller. */
    method Emit(remaining: nat) returns (r: Option<Request>)
      requires Valid() && state == Emitting(remaining) && outputRead == outputLen
      modifies this`state, this`inputPos, this`unpackedPos, this`outputLen, this`outputRead, this`streamEnded
      modifies decompressor, outputBuf
      ensures r == None || !r.value.Failure? ==> Valid() && Work() <= old(Work())
      ensures r.Some? && !r.value.Failure? ==> !r.value.SeekAndRead? && Answers(r.value, old(Work()))
      ensures r == None ==> Work() < old(Work())
      ensures Lively(stream) ==> r == None || !r.value.Failure?
    {
      EmptyBuffer();
      Standing();
      hide Plumbed, Buffered, Ranged, Within, Lively, Lawful, Decompressor.Valid, Slice;
      var hadInput := inputPos < |inputBuf|;
      if !hadInput && !eof {
        Wait(NeedInputEmitting(remaining));
        return Some(NeedInput);
      }
      var result := Decode(outputBuf, Min(remaining, outputBuf.Length));
      if result.Err? {
        return Some(Failure(result.error));
      }
      r := Emitted(remaining, result.value, hadInput);
    }

    lemma EmptyBuffer()
      requires Buffered() && outputRead == outputLen
      ensures HoldsNothing()
    {
    }

    method Emitted(remaining: nat, d: Decoded, hadInput: bool) returns (r: Option<Request>)
      requires Plumbed() && HoldsNothing() && d.produced <= unpackedPos && d.produced <= outputBuf.Length
      requires Within(unpackedPos - d.produced, remaining) && d.produced <= remaining
      requires outputBuf[..d.produced] == stream.data[unpackedPos - d.produced..unpackedPos]
      requires d.status.StreamEnd? ==> unpackedPos == |stream.data|
      requires hadInput && inputPos == |inputBuf| ==> d.consumed > 0
      requires !hadInput ==> inputPos == |inputBuf|
      modifies this`state, this`outputLen, this`outputRead, this`streamEnded
      ensures d.Moved() ==> r == None || !r.value.Failure?
      ensures r == None || !r.value.Failure? ==> Valid()
      ensures r.Some? && !r.value.Failure? ==>
                !r.value.SeekAndRead? && Answers(r.value, Work() + d.consumed + d.produced)
      ensures r == None ==> d.consumed + d.produced > 0
    {
      hide Plumbed, Buffered, Ranged, Slice;
      if d.produced > 0 {
        outputLen, outputRead := d.produced, 0;
        Holds(d.produced);
        Deliver(remaining - d.produced, d.status.StreamEnd?);
        return Some(OutputReady);
      }
      Proceed(Emitting(remaining));
      NothingHeld();
      r := AfterDecode(d, hadInput);
    }

    lemma NothingPacked()
      requires Plumbed() && started && eof && compressedPos == 0
      ensures |stream.data| == 0
    {
    }

    /** After a decoding step that gave the caller nothing. */
    method AfterDecode(result: Decoded, hadInput: bool) returns (r: Option<Request>)
      requires Valid() && outputRead == outputLen && (state.Skipping? || state.Emitting?)
      requires result.status.StreamEnd? ==> unpackedPos == |stream.data|
      requires hadInput && inputPos == |inputBuf| ==> result.consumed > 0
      requires !hadInput ==> inputPos == |inputBuf|
      modifies this`state, this`streamEnded
      ensures result.Moved() ==> r == None || !r.value.Failure?
      ensures r == None || !r.value.Failure? ==> Valid()
      ensures r.Some? && !r.value.Failure? ==>
                !r.value.SeekAndRead? && Answers(r.value, Work() + result.consumed + result.produced)
      ensures r == None ==> result.consumed + result.produced > 0
    {
      hide Plumbed, Buffered, Slice;
      if result.status.StreamEnd? && hadInput {
        streamEnded, state := true, Idle;
        return Some(Done);
      }
      if inputPos >= |inputBuf| {
        if eof {
          if result.consumed == 0 && result.produced == 0 {
            // With nothing packed there is nothing to miss.
            if compressedPos > 0 && !result.status.StreamEnd? {
              return Some(Failure(TruncatedInput));
            }
            if !result.status.StreamEnd? {
              NothingPacked();
            }
            streamEnded, state := true, Idle;
            return Some(Done);
          }
          return Some(NeedInput);
        }
        state := if state.Skipping? then NeedInputSkipping(state.remaining) else NeedInputEmitting(state.remaining);
        return Some(NeedInput);
      }
      if result.consumed == 0 && result.produced == 0 {
        return Some(Failure(DecompressionError));
      }
      return None;
    }

    /** Idle with nothing to serve, the reader has served all of the range that
        the stream holds; it is short only if the stream is. */
    lemma RangeServed()
      requires Valid() && state.Idle? && Serveable() == 0
      ensures served == Slice(stream.data, targetOffset, targetLen)
      ensures |served| == targetLen - rangeLeft
      ensures rangeLeft > 0 ==> ShortOf(stream.data, targetOffset, targetLen)
      ensures Buffered() && Position() <= targetOffset + targetLen
    {
    }

    lemma Progressing()
      requires Valid()
      ensures outputRead <= outputLen && compressedPos <= |stream.packed| && (started ==> Work() >= 0)
    {
    }
  }

  /** Takes all that may be served now. */
  method TakeAll(reader: StreamReader, buf: array<byte>) returns (out: seq<byte>)
    requires reader.Valid() && buf != reader.outputBuf && buf != reader.skipBuf && buf.Length > 0
    modifies reader`outputLen, reader`outputRead, reader`rangeLeft, reader`served, buf
    ensures reader.Valid() && reader.served == old(reader.served) + out
    ensures reader.rangeLeft == old(reader.rangeLeft) - |out|
    ensures old(reader.Serveable()) > 0 ==> out != []
  {
    hide StreamReader.Plumbed, StreamReader.Buffered, StreamReader.Ranged;
    out := [];
    while true
      invariant reader.Valid() && reader.served == old(reader.served) + out
      invariant reader.rangeLeft == old(reader.rangeLeft) - |out|
      invariant out == [] ==> unchanged(reader)
      decreases reader.rangeLeft
    {
      var n := reader.ReadOutput(buf);
      if n == 0 {
        return;
      }
      out := out + buf[..n];
    }
  }

  /** Gives the reader some more of the packed stream, or its end. */
  method Supply(reader: StreamReader, take: nat)
    requires reader.Valid() && reader.started && reader.inputPos == |reader.inputBuf| && take > 0
    modifies reader`inputBuf, reader`inputPos, reader`compressedPos, reader`state, reader`eof
    ensures reader.Valid()
    ensures if old(reader.compressedPos) < |reader.stream.packed| then
              reader.eof == old(reader.eof) && reader.compressedPos > old(reader.compressedPos)
            else
              reader.eof && reader.compressedPos == old(reader.compressedPos)
  {
    hide StreamReader.Plumbed, StreamReader.Buffered, StreamReader.Ranged;
    var packed, at := reader.stream.packed, reader.compressedPos;
    if at < |packed| {
      var n := Min(take, |packed| - at);
      reader.ProvideData(packed[at..at + n]);
    } else {
      reader.SignalEof();
    }
  }

  /** One request, answered: output is taken, input or its end supplied. */
  method Answer(reader: StreamReader, buf: array<byte>, take: nat) returns (r: Request, chunk: seq<byte>)
    requires reader.Valid() && buf != reader.outputBuf && buf != reader.skipBuf && buf.Length > 0 && take > 0
    modifies reader, reader.decompressor, reader.outputBuf, reader.skipBuf, buf
    ensures !r.Failure? ==> reader.Valid() && reader.served == old(reader.served) + chunk
    ensures reader.targetOffset == old(reader.targetOffset) && reader.targetLen == old(reader.targetLen)
    ensures reader.requireFull == old(reader.requireFull)
    ensures Dependable(reader.stream) && r.Failure? ==>
              && r.error == TruncatedInput
              && reader.requireFull && ShortOf(reader.stream.data, reader.targetOffset, reader.targetLen)
    ensures r.Done? ==> chunk == [] && reader.state.Idle? && reader.Serveable() == 0
    ensures r.Done? && reader.requireFull ==> reader.rangeLeft == 0
    ensures !r.Done? && !r.Failure? ==>
              && reader.started && reader.compressedPos <= |reader.stream.packed| && reader.Work() >= 0
              && (old(reader.started) ==>
                    || reader.compressedPos > old(reader.compressedPos)
                    || (reader.compressedPos == old(reader.compressedPos)
                        && ((reader.eof && !old(reader.eof))
                            || (reader.eof == old(reader.eof)
                                && (reader.Work() < old(reader.Work())
                                    || (reader.Work() == old(reader.Work())
                                        && reader.rangeLeft < old(reader.rangeLeft)))))))
  {
    hide StreamReader.Plumbed, StreamReader.Buffered, StreamReader.Ranged, StreamReader.Valid, Dependable, ShortOf;
    chunk := [];
    assert reader.served + [] == reader.served;
    r := reader.Step();
    match r {
      case OutputReady => chunk := TakeAll(reader, buf);
      case NeedInput | SeekAndRead(_, _) => Supply(reader, take);
      case _ =>
    }
    if !r.Failure? {
      reader.Progressing();
    }
  }

  /** Drives a reader through its range: what it serves is the part of the
      range the stream holds, all of it if the range is known to exist. */
  method ReadRange(reader: StreamReader, takes: nat -> nat, room: nat) returns (out: seq<byte>, error: Option<Error>)
    requires reader.Valid() && reader.served == [] && room > 0
    requires forall k :: takes(k) > 0
    modifies reader, reader.decompressor, reader.outputBuf, reader.skipBuf
    ensures error.None? ==> reader.Valid() && out == Slice(reader.stream.data, reader.targetOffset, reader.targetLen)
    ensures error.None? && reader.requireFull ==> |out| == reader.targetLen
    ensures reader.requireFull && ShortOf(reader.stream.data, reader.targetOffset, reader.targetLen) ==> error.Some?
    ensures Dependable(reader.stream) && error.Some? ==>
              && error == Some(TruncatedInput)
              && reader.requireFull && ShortOf(reader.stream.data, reader.targetOffset, reader.targetLen)
    ensures error.None? ==> reader.Buffered() && reader.Position() <= reader.targetOffset + reader.targetLen
    ensures reader.targetOffset == old(reader.targetOffset) && reader.targetLen == old(reader.targetLen)
    ensures reader.requireFull == old(reader.requireFull)
  {
    hide StreamReader.Plumbed, StreamReader.Buffered, StreamReader.Ranged, StreamReader.Valid, Slice, ShortOf,
         Dependable;
    SliceShort(reader.stream.data, reader.targetOffset, reader.targetLen);
    out := [];
    var k: nat := 0;
    var buf := new byte[room](_ => 0);
    reader.Progressing();
    while true
      invariant reader.Valid() && reader.served == out
      invariant reader.targetOffset == old(reader.targetOffset) && reader.targetLen == old(reader.targetLen)
      invariant reader.requireFull == old(reader.requireFull)
      invariant reader.compressedPos <= |reader.stream.packed| && (reader.started ==> reader.Work() >= 0)
      decreases !reader.started, |reader.stream.packed| - reader.compressedPos, !reader.eof,
        if reader.started then reader.Work() else 0, reader.rangeLeft
    {
      var r, chunk := Answer(reader, buf, takes(k));
      if r.Failure? {
        return out, Some(r.error);
      }
      if r.Done? {
        reader.RangeServed();
        return out, None;
      }
      out := out + chunk;
      k := k + 1;
    }
  }

  datatype Entry = Entry(offset: nat, size: nat)

  /** None starts before one listed earlier ends. */
  predicate InOrder(entries: seq<Entry>) {
    forall i :: 0 < i < |entries| ==> entries[i - 1].offset + entries[i - 1].size <= entries[i].offset
  }

  /** A length the index declares is not more than there is. */
  predicate Declared(unpackedLen: Option<nat>, data: seq<byte>) {
    unpackedLen.Some? ==> unpackedLen.value <= |data|
  }

  /** Ranges that were cut to the declared length do not fall short. */
  lemma CutIsThere(unpackedLen: Option<nat>, data: seq<byte>, offset: nat, len: nat)
    requires Declared(unpackedLen, data) && unpackedLen.Some?
    ensures !ShortOf(data, offset, ClampLen(unpackedLen, offset, len))
  {
  }

  lemma CutIsShorter(unpackedLen: Option<nat>, offset: nat, len: nat)
    ensures ClampLen(unpackedLen, offset, len) <= len
  {
  }

  /** Extracts entries with one live reader: a single decoding pass. Each
      comes out as the part of it the stream holds, whatever index the reads
      start from. */
  method ExtractAll(stream: Stream, index: StreamIndex, entries: seq<Entry>, takes: nat -> nat, room: nat)
    returns (files: seq<seq<byte>>, error: Option<Error>)
    requires Lawful(stream) && (entries != [] ==> ReadableAt(stream, index.checkpoints, entries[0].offset)) && room > 0
    requires forall k :: takes(k) > 0
    ensures error.None? ==> |files| == |entries|
    ensures forall k :: 0 <= k < |files| && k < |entries| ==>
              files[k] ==
                 Slice(stream.data, entries[k].offset, ClampLen(index.unpackedLen, entries[k].offset, entries[k].size))
    ensures error.None? && index.unpackedLen.Some? ==>
              forall k :: 0 <= k < |entries| ==>
                |files[k]| == ClampLen(index.unpackedLen, entries[k].offset, entries[k].size)
    ensures Dependable(stream) && InOrder(entries) && Declared(index.unpackedLen, stream.data) ==> error.None?
  {
    hide StreamReader.Valid, StreamReader.Plumbed, StreamReader.Buffered, StreamReader.Ranged, StreamReader.Position;
    hide ClampLen, Slice, Lawful, ReadableAt, Dependable, Declared, ShortOf;
    ghost var easy := Dependable(stream) && InOrder(entries) && Declared(index.unpackedLen, stream.data);
    files, error := [], None;
    if entries == [] {
      return;
    }
    var reader := new StreamReader(stream, index, entries[0].offset, entries[0].size);
    for k := 0 to |entries|
      invariant error.None? && |files| == k && reader.Valid() && reader.stream == stream
      invariant fresh(reader) && fresh(reader.decompressor) && fresh(reader.outputBuf) && fresh(reader.skipBuf)
      invariant reader.unpackedLen == index.unpackedLen && reader.requireFull == index.unpackedLen.Some?
      invariant k == 0 ==> reader.served == [] && reader.targetOffset == entries[0].offset
      invariant k == 0 ==> reader.targetLen == ClampLen(index.unpackedLen, entries[0].offset, entries[0].size)
      invariant forall i :: 0 <= i < k ==>
                  files[i] ==
                     Slice(stream.data, entries[i].offset,
                           ClampLen(index.unpackedLen, entries[i].offset, entries[i].size))
      invariant index.unpackedLen.Some? ==>
                  forall i :: 0 <= i < k ==>
                      |files[i]| == ClampLen(index.unpackedLen, entries[i].offset, entries[i].size)
      invariant k > 0 ==> reader.Buffered()
      invariant k > 0 && easy ==> reader.Position() <= entries[k - 1].offset + entries[k - 1].size
    {
      if easy && index.unpackedLen.Some? {
        CutIsThere(index.unpackedLen, stream.data, entries[k].offset, entries[k].size);
      }
      CutIsShorter(index.unpackedLen, entries[k].offset, entries[k].size);
      if k > 0 {
        var sought := reader.SeekForward(entries[k].offset, entries[k].size);
        if sought.Err? {
          return files, Some(sought.error);
        }
      }
      var file;
      file, error := ReadRange(reader, takes, room);
      if error.Some? {
        return;
      }
      files := files + [file];
    }
  }

  /** Over a complete index the cut made up front is the stream's own end. */
  lemma ClampIsExact(data: seq<byte>, offset: nat, len: nat)
    ensures Slice(data, offset, ClampLen(Some(|data|), offset, len)) == Slice(data, offset, len)
    ensures |Slice(data, offset, len)| == ClampLen(Some(|data|), offset, len)
  {
  }
}
