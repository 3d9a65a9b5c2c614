/**
  The chain itself: decoders in a row, with a buffer on every link.

  Its methods run the stages in place and are proved against the codec of the
  chain, turn by turn; so the chain keeps the contract of a decompressor, and
  a restored chain takes the place of the one that was saved.
 */
module ChainDecompressors {
  import opened Bytes
  import opened ChainCodecs
  import opened Decompressors
  import opened Sequences
  import opened Wrappers

  /** A snapshot: where each stage stands, and what each link holds. */
  datatype ChainState =
    | NoState
    | Chained(stages: seq<Checkpoint>, pending: seq<seq<byte>>, ended: seq<bool>)
    | OtherState

  datatype ChainCheckpoint = ChainCheckpoint(compressed: nat, unpacked: nat, state: ChainState)

  /** The counts the stages' checkpoints carry. */
  function CountsOf(cps: seq<Checkpoint>): (totals: seq<Totals>)
    ensures |totals| == |cps|
    ensures forall i :: 0 <= i < |cps| ==> totals[i] == Totals(cps[i].compressed, cps[i].unpacked)
  {
    seq(|cps|, i requires 0 <= i < |cps| => Totals(cps[i].compressed, cps[i].unpacked))
  }

  predicate Fits(cp: ChainCheckpoint, n: nat) {
    match cp.state
    case NoState => true
    case Chained(stages, pending, ended) => |stages| == n && |pending| + 1 == n && |ended| == n
    case OtherState => false
  }

  function StateOf(s: Stream, cp: Checkpoint): State {
    match cp.state case None => s.codec.start case Some(saved) => saved
  }

  /** The state of the chain that a checkpoint is of. */
  function ChainAt(streams: seq<Stream>, cps: seq<Checkpoint>, pending: seq<seq<byte>>, ended: seq<bool>): State
    requires |cps| == |streams|
  {
    OfChain(seq(|cps|, i requires 0 <= i < |cps| => StateOf(streams[i], cps[i])),
            Flow(pending, Zeros(|pending|), CountsOf(cps), ended))
  }

  /** The checkpoint is of a chain over these streams. */
  ghost predicate GenuineChain(streams: seq<Stream>, cp: ChainCheckpoint)
    requires |streams| >= 2 && Fits(cp, |streams|)
  {
    match cp.state
    case Chained(stages, pending, ended) =>
      && (forall i :: 0 <= i < |stages| ==> Genuine(streams[i], stages[i]))
      && Flowing(streams, pending, Zeros(|pending|), CountsOf(stages), ended)
      && cp.compressed == stages[0].compressed && cp.unpacked == stages[|stages| - 1].unpacked
    case _ => cp.compressed == 0 && cp.unpacked == 0
  }

  class ChainDecompressor {
    const stages: seq<Decompressor>
    /** A link buffer and how much of it is spent. */
    var bufs: seq<seq<byte>>
    var read: seq<nat>
    var totals: seq<Totals>
    var ended: seq<bool>
    ghost const streams: seq<Stream>

    ghost predicate Wired()
      ensures Wired() ==> 2 <= |stages| == |streams|
    {
      && 2 <= |stages| == |streams| && Linked(streams)
      && (forall i :: 0 <= i < |stages| ==> stages[i].stream == streams[i])
      && (forall i, j :: 0 <= i < j < |stages| ==> stages[i] != stages[j])
    }

    /** The counts are the stages' own. */
    ghost predicate Counted(i: nat)
      reads this`totals, stages
      requires i < |stages| == |totals|
    {
      totals[i] == Totals(stages[i].inPos, stages[i].outPos)
    }

    /** What the chain's codec has for a state here. */
    ghost function Now(): (c: State)
      reads this, stages
      ensures c.OfChain? && c.flow == Flow(bufs, read, totals, ended)
    {
      OfChain(seq(|stages|, i requires 0 <= i < |stages| reads this, stages => stages[i].state),
              Flow(bufs, read, totals, ended))
    }

    ghost predicate Valid()
      reads this, stages
      ensures Valid() ==> 2 <= |stages| == |streams| == |totals| == |ended| && Shaped(|stages|, Now())
      ensures Valid() ==> totals[0].taken <= |streams[0].packed|
      ensures Valid() ==> totals[|stages| - 1].given <= |streams[|stages| - 1].data|
      ensures Valid() && ended[|stages| - 1] ==> totals[|stages| - 1].given == |streams[|stages| - 1].data|
    {
      && Wired() && Standing(streams, Now())
      && forall i :: 0 <= i < |stages| ==> Counted(i)
    }

    ghost function InPos(): nat
      reads this`totals
      requires totals != []
    {
      totals[0].taken
    }

    ghost function OutPos(): nat
      reads this`totals
      requires totals != []
    {
      totals[|totals| - 1].given
    }

    function Finished(): bool
      reads this`ended
      requires ended != []
    {
      ended[|ended| - 1]
    }

    /** Neighbouring stages must agree on the stream between them. */
    constructor (stages: seq<Decompressor>, ghost streams: seq<Stream>)
      requires 2 <= |stages| == |streams|
      requires forall i :: 0 <= i < |stages| ==>
                 stages[i].Valid() && stages[i].stream == streams[i] && stages[i].inPos == stages[i].outPos == 0
      requires forall i, j :: 0 <= i < j < |stages| ==> stages[i] != stages[j]
      requires forall i :: 0 <= i < |stages| - 1 ==> streams[i].data == streams[i + 1].packed
      ensures Valid() && this.stages == stages && this.streams == streams
      ensures InPos() == 0 && OutPos() == 0 && !Finished()
      ensures (forall i :: 0 <= i < |stages| ==> stages[i].state == streams[i].codec.start) ==>
                Now() == StartOf(streams)
    {
      hide Flowing, Moved, Lawful;
      var n := |stages|;
      this.stages, this.streams := stages, streams;
      bufs, read := seq(n - 1, _ => []), Zeros(n - 1);
      totals, ended := seq(n, _ => Totals(0, 0)), seq(n, _ => false);
      new;
      StartFlows(streams);
      forall i | 0 <= i < n
        ensures StandsAt(streams, Now(), i)
      {
        assert stages[i].Valid();
      }
      if forall i :: 0 <= i < n ==> stages[i].state == streams[i].codec.start {
        assert Now().states == StartOf(streams).states;
      }
    }

    /** Runs stage `i` on `src` with room for `room` bytes. */
    method RunStage(i: nat, src: seq<byte>, room: nat) returns (r: Result<Ran, Error>)
      requires Valid() && i < |stages| && !ended[i] && Feeds(streams[i].packed, totals[i].taken, src)
      requires i > 0 ==> read[i - 1] + |src| <= |bufs[i - 1]|
      requires i + 1 < |stages| ==> |bufs[i]| + room <= STAGE_BUF
      modifies this, stages[i]
      ensures match ChainCodecs.RunStage(streams, old(Now()), i, src, room)
              case Err(error) => r == Err(error)
              case Ok((c, run)) => r == Ok(run) && Valid() && Now() == c
    {
      hide Linked, Flowing, Standing, Booked, Feeds, Lively, Allowed, Told;
      ghost var c := Now();
      RunSound(streams, c, i, src, room);
      StageStands(i);
      var tmp := new byte[room](_ => 0);
      var run := stages[i].Decompress(src, tmp, room);
      if run.Err? {
        return Err(run.error);
      }
      var Decoded(consumed, produced, status) := run.value;
      r := Ok(Ran(consumed, tmp[..produced], status));
      ghost var mid := Now();
      assert mid == c.(states := c.states[i := stages[i].state]);
      Book(i, r.value);
      ghost var d := ChainCodecs.RunStage(streams, c, i, src, room).value.0;
      assert Now() == mid.(flow := Now().flow) == d;
      forall k | 0 <= k < |stages|
        ensures Counted(k)
      {
        assert k != i ==> old(Counted(k)) && stages[k] != stages[i];
      }
    }

    lemma StageStands(i: nat)
      requires Valid() && i < |stages|
      ensures stages[i].Valid() && totals[i] == Totals(stages[i].inPos, stages[i].outPos)
    {
      assert Counted(i) && StandsAt(streams, Now(), i);
    }

    /** Books what stage `i` has done. */
    method Book(i: nat, run: Ran)
      requires 2 <= |stages| == |totals| == |ended| && |bufs| == |read| == |stages| - 1 && i < |stages|
      modifies this
      ensures Flow(bufs, read, totals, ended) == Booked(|stages|, old(Flow(bufs, read, totals, ended)), i, run)
      ensures totals
           == old(totals)[i := Totals(old(totals)[i].taken + run.consumed, old(totals)[i].given + |run.bytes|)]
    {
      if i + 1 < |stages| {
        bufs := bufs[i := bufs[i] + run.bytes];
      }
      if i > 0 {
        read := read[i - 1 := read[i - 1] + run.consumed];
        if read[i - 1] == |bufs[i - 1]| {
          bufs, read := bufs[i - 1 := []], read[i - 1 := 0];
        }
      }
      totals := totals[i := Totals(totals[i].taken + run.consumed, totals[i].given + |run.bytes|)];
      if run.status.StreamEnd? {
        ended := ended[i := true];
      }
    }

    /** The turn of the stage that the caller feeds, end of input included. */
    method FirstStage(input: seq<byte>, inPos: nat) returns (r: Result<(nat, bool), Error>)
      requires Valid() && inPos <= |input| && Comes(streams, Now(), input[inPos..], input == [])
      modifies this, stages
      ensures match First(streams, old(Now()), input[inPos..], input == [])
              case Err(error) => r == Err(error)
              case Ok(t) => r == Ok((inPos + t.consumed, t.moved)) && Valid() && Now() == t.chain
    {
      hide Linked, Flowing, Standing, ChainCodecs.RunStage;
      if ended[0] || |bufs[0]| >= STAGE_BUF {
        return Ok((inPos, false));
      }
      var avail := input[inPos..];
      if avail == [] && input != [] {
        return Ok((inPos, false));
      }
      ComesFeeds(streams, Now(), avail, input == []);
      var run := RunStage(0, avail, STAGE_BUF - |bufs[0]|);
      if run.Err? {
        return Err(run.error);
      }
      return Ok((inPos + run.value.consumed, run.value.consumed > 0 || run.value.bytes != []));
    }

    /** The turn of a stage that reads what the one before left; only the last
        has a use for `room`. */
    method LaterStage(i: nat, room: nat) returns (r: Result<(seq<byte>, bool), Error>)
      requires Valid() && 0 < i < |stages|
      modifies this, stages
      ensures match Later(streams, old(Now()), i, room)
              case Err(error) => r == Err(error)
              case Ok(t) => r == Ok((t.bytes, t.moved)) && Valid() && Now() == t.chain
    {
      LinksFit(i);
      hide Linked, Flowing, Standing, ChainCodecs.RunStage;
      var last := i + 1 == |stages|;
      r := Ok(([], false));
      if ended[i] {
        return;
      }
      if |bufs[i - 1]| - read[i - 1] == 0 && !ended[i - 1] {
        return;
      }
      if if last then room == 0 else |bufs[i]| >= STAGE_BUF {
        return;
      }
      LinkFeeds(i);
      var run := RunStage(i, bufs[i - 1][read[i - 1]..], if last then room else STAGE_BUF - |bufs[i]|);
      if run.Err? {
        return Err(run.error);
      }
      return Ok((if last then run.value.bytes else [], run.value.consumed > 0 || run.value.bytes != []));
    }

    lemma LinksFit(i: nat)
      requires Valid() && 0 < i < |stages|
      ensures read[i - 1] <= |bufs[i - 1]| && (i + 1 < |stages| ==> |bufs[i]| <= STAGE_BUF)
    {
      LinkFits(streams, Now().flow, i - 1);
      if i + 1 < |stages| {
        LinkFits(streams, Now().flow, i);
      }
    }

    lemma LinkFeeds(i: nat)
      requires Valid() && 0 < i < |stages| && (read[i - 1] == |bufs[i - 1]| ==> ended[i - 1])
      ensures read[i - 1] <= |bufs[i - 1]| && Feeds(streams[i].packed, totals[i].taken, bufs[i - 1][read[i - 1]..])
    {
      SourceFeeds(streams, Now().flow, i);
    }

    /** Gives stage `i` its turn; the last stage writes to the caller. */
    method Turn(i: nat, output: array<byte>, outPos: nat) returns (r: Result<(nat, bool), Error>)
      requires Valid() && 0 < i < |stages| && outPos <= output.Length
      modifies this, stages, output
      ensures match Later(streams, old(Now()), i, output.Length - outPos)
              case Err(error) => r == Err(error)
              case Ok(t) =>
                && r == Ok((outPos + |t.bytes|, t.moved)) && Valid() && Now() == t.chain
                && outPos + |t.bytes| <= output.Length
                && output[..outPos + |t.bytes|] == old(output[..outPos]) + t.bytes
    {
      hide Linked, Flowing, Standing, Later, Gives, Told;
      ghost var c := Now();
      var later := LaterStage(i, output.Length - outPos);
      if later.Err? {
        return Err(later.error);
      }
      LaterSound(streams, c, i, output.Length - outPos);
      CopyInto(later.value.0, output, outPos);
      return Ok((outPos + |later.value.0|, later.value.1));
    }

    lemma OnlyLastGives(i: nat, room: nat)
      requires Valid() && 0 < i < |stages|
      ensures var r := Later(streams, Now(), i, room);
              r.Ok? ==> r.value.consumed == 0 && (i + 1 < |stages| ==> r.value.bytes == [])
    {
      hide Linked, Standing, Later;
      LaterSound(streams, Now(), i, room);
    }

    /** Gives the stages after the first a turn each. */
    method LaterStages(output: array<byte>, outPos: nat) returns (r: Result<(nat, bool), Error>)
      requires Valid() && outPos <= output.Length
      modifies this, stages, output
      ensures match Turns(streams, old(Now()), 1, output.Length - outPos)
              case Err(error) => r == Err(error)
              case Ok(t) =>
                && r == Ok((outPos + |t.bytes|, t.moved)) && Valid() && Now() == t.chain && t.consumed == 0
                && outPos + |t.bytes| <= output.Length
                && output[..outPos + |t.bytes|] == old(output[..outPos]) + t.bytes
    {
      hide ChainDecompressor.Valid, Later, ChainDecompressor.Now, Shaped;
      ghost var c, room, acc := Now(), output.Length - outPos, Idle(Now());
      ThenIdle(acc, Turns(streams, c, 1, room));
      var n, outNext, moved := |stages|, outPos, false;
      for i := 1 to n
        invariant Valid() && acc.chain == Now() && acc.consumed == 0 && moved == acc.moved
        invariant outNext == outPos + |acc.bytes| <= output.Length
        invariant output[..outNext] == old(output[..outPos]) + acc.bytes && (i < n ==> acc.bytes == [])
        invariant Turns(streams, c, 1, room) == Then(acc, Turns(streams, Now(), i, room))
      {
        ghost var d := Now();
        OnlyLastGives(i, room);
        var turn := Turn(i, output, outNext);
        if turn.Err? {
          return Err(turn.error);
        }
        ghost var t := Later(streams, d, i, room).value;
        ThenTwice(acc, t, Turns(streams, Now(), i + 1, room));
        acc := After(acc, t);
        outNext, moved := turn.value.0, moved || turn.value.1;
      }
      ThenIdle(acc, Ok(acc));
      return Ok((outNext, moved));
    }

    /** Gives every stage one turn. */
    method Pass(input: seq<byte>, inPos: nat, output: array<byte>, outPos: nat) returns (r: Result<Passed, Error>)
      requires Valid() && inPos <= |input| && outPos <= output.Length
      requires Comes(streams, Now(), input[inPos..], input == [])
      modifies this, stages, output
      ensures match ChainCodecs.Pass(streams, old(Now()), input[inPos..], input == [], output.Length - outPos)
              case Err(error) => r == Err(error)
              case Ok(t) =>
                && r == Ok(Passed(inPos + t.consumed, outPos + |t.bytes|, t.moved)) && Valid() && Now() == t.chain
                && outPos + |t.bytes| <= output.Length
                && output[..outPos + |t.bytes|] == old(output[..outPos]) + t.bytes
    {
      hide Linked, Standing, First, Turns, ChainDecompressor.Now;
      ghost var c := Now();
      FirstGivesNone(c, input[inPos..], input == []);
      var first := FirstStage(input, inPos);
      if first.Err? {
        return Err(first.error);
      }
      var (next, moved) := first.value;
      var later := LaterStages(output, outPos);
      if later.Err? {
        return Err(later.error);
      }
      return Ok(Passed(next, later.value.0, moved || later.value.1));
    }

    lemma FirstGivesNone(c: State, avail: seq<byte>, fin: bool)
      requires Shaped(|streams|, c)
      ensures var r := First(streams, c, avail, fin); r.Ok? ==> r.value.bytes == []
    {
      hide ChainCodecs.RunStage;
    }

    /** One call of the chain: that of its codec, so it keeps the contract of a
        single decompressor; if the stages always move or end when they can, so
        does the chain, and it stops short of both only for want of input. */
    method Decompress(input: seq<byte>, output: array<byte>) returns (r: Result<Decoded, Error>)
      requires Valid() && Feeds(streams[0].packed, InPos(), input)
      modifies this, stages, output
      ensures match Decode(streams, old(Now()), input, output.Length)
              case Failed(error) => r == Err(error)
              case Stepped(next, consumed, bytes, status) =>
                && r == Ok(Decoded(consumed, |bytes|, status)) && Valid() && Now() == next
                && |bytes| <= output.Length && output[..|bytes|] == bytes
      ensures AllLively(streams) ==> r.Ok?
      ensures r.Ok? ==>
                && Valid()
                && r.value.consumed <= |input| && InPos() == old(InPos()) + r.value.consumed
                && r.value.produced <= output.Length && OutPos() == old(OutPos()) + r.value.produced
                && output[..r.value.produced] == streams[|streams| - 1].data[old(OutPos())..OutPos()]
                && (r.value.status.StreamEnd? ==> OutPos() == |streams[|streams| - 1].data|)
                && (AllLively(streams) ==>
                      || r.value.status.StreamEnd? || r.value.produced == output.Length
                      || (r.value.consumed == |input| && input != []))
    {
      hide Linked, Standing, Passes, Moved, ChainDecompressor.Now;
      ghost var c, fin := Now(), input == [];
      CallSound(input, output.Length);
      r := Run(input, output);
    }

    lemma CallSound(input: seq<byte>, room: nat)
      requires Valid() && Feeds(streams[0].packed, InPos(), input)
      ensures Comes(streams, Now(), input, input == [])
      ensures var r := Passes(streams, Now(), input, input == [], room);
              && (AllLively(streams) ==> r.Ok?)
              && (r.Ok? ==>
                    var t := r.value;
                    && Standing(streams, t.chain) && t.consumed <= |input| && |t.bytes| <= room
                    && ChainCodecs.InPos(t.chain) == InPos() + t.consumed && Gives(streams, Now(), t.chain, t.bytes)
                    && (ChainCodecs.Finished(t.chain) ==>
                          ChainCodecs.OutPos(t.chain) == |streams[|streams| - 1].data|)
                    && (AllLively(streams) ==>
                          ChainCodecs.Finished(t.chain) || |t.bytes| == room || (t.consumed == |input| && input != [])))
    {
      hide Linked, Passes;
      PassesSound(streams, Now(), input, input == [], room);
      var r := Passes(streams, Now(), input, input == [], room);
      if r.Ok? {
        InBounds(streams, r.value.chain);
      }
    }

    lemma InOrder()
      requires Valid()
      ensures Linked(streams) && Standing(streams, Now())
    {
    }

    /** Passes, until the chain has finished, the output is full or nothing
        moves. */
    method Run(input: seq<byte>, output: array<byte>) returns (r: Result<Decoded, Error>)
      requires Valid() && Comes(streams, Now(), input, input == [])
      modifies this, stages, output
      ensures match Passes(streams, old(Now()), input, input == [], output.Length)
              case Err(error) => r == Err(error)
              case Ok(t) =>
                && Valid() && Now() == t.chain
                && r == Ok(Decoded(t.consumed, |t.bytes|, if Finished() then StreamEnd else Continue))
                && |t.bytes| <= output.Length && output[..|t.bytes|] == t.bytes
    {
      hide ChainDecompressor.Now, ChainDecompressor.Valid, Passes, Comes, Moved, Bound, OnTrack, Shaped;
      var inPos, outPos: nat := 0, 0;
      ghost var acc, whole := Idle(Now()), Passes(streams, Now(), input, input == [], output.Length);
      TrackStarts(streams, Now(), input, output.Length);
      ghost var idle := false;
      while !Finished() && outPos < output.Length
        invariant Running(acc, output) && inPos == acc.consumed && outPos == |acc.bytes| && !idle
        invariant OnTrack(streams, whole, acc, input, output.Length)
        decreases Bound(streams) - Moved(totals)
      {
        var pass;
        pass, acc := PassOn(input, inPos, output, outPos, whole, acc);
        if pass.Err? {
          return Err(pass.error);
        }
        inPos, outPos := pass.value.inPos, pass.value.outPos;
        if !pass.value.progress {
          idle := true;
          break;
        }
      }
      if !idle {
        TrackOpens(streams, whole, acc, input, output.Length);
        TrackEnds(streams, whole, acc, input, output.Length);
      }
      return Ok(Decoded(inPos, outPos, if Finished() then StreamEnd else Continue));
    }

    /** The chain is where `acc` left it, and `output` begins with what that
        gave. */
    ghost predicate Running(acc: Turned, output: array<byte>)
      reads this, stages, output
      ensures Running(acc, output) ==> Valid() && acc.chain == Now() && |acc.bytes| <= output.Length
      ensures Running(acc, output) ==> output[..|acc.bytes|] == acc.bytes
    {
      Valid() && acc.chain == Now() && |acc.bytes| <= output.Length && output[..|acc.bytes|] == acc.bytes
    }

    /** One more pass after `acc`. */
    method PassOn(input: seq<byte>, inPos: nat, output: array<byte>, outPos: nat,
                  ghost whole: Result<Turned, Error>, ghost acc: Turned)
      returns (r: Result<Passed, Error>, ghost next: Turned)
      requires Running(acc, output) && inPos == acc.consumed && outPos == |acc.bytes| < output.Length && !Finished()
      requires OnTrack(streams, whole, acc, input, output.Length)
      modifies this, stages, output
      ensures r.Err? ==> whole == Err(r.error)
      ensures r.Ok? ==>
                && Running(next, output) && r.value.inPos == next.consumed && r.value.outPos == |next.bytes|
                && (!r.value.progress ==> whole == Ok(next))
                && (r.value.progress ==>
                      OnTrack(streams, whole, next, input, output.Length)
                      && old(Moved(totals)) < Moved(totals) <= Bound(streams))
    {
      hide ChainDecompressor.Now, ChainDecompressor.Valid, ChainCodecs.Pass, Linked, Standing, Passes, Comes, Moved,
           Bound, OnTrack, Shaped;
      InOrder();
      TrackOpens(streams, whole, acc, input, output.Length);
      TrackStep(streams, whole, acc, input, output.Length);
      ghost var turned := ChainCodecs.Pass(streams, Now(), input[inPos..], input == [], output.Length - outPos);
      r := Pass(input, inPos, output, outPos);
      next := if turned.Ok? then After(acc, turned.value) else acc;
    }

    /** Snapshots the chain, as its codec does: only stage 0 may resume behind
        its count, for it is fed from the packed stream itself. */
    method Save(compressed: nat, unpacked: nat) returns (r: Result<Option<ChainCheckpoint>, Error>)
      requires Valid() && compressed == InPos() && unpacked == OutPos()
      ensures match ChainCodecs.Save(streams, Now())
              case Err(error) => r == Err(error)
              case Ok(None) => r == Ok(None)
              case Ok(Some(saved)) => r.Ok? && r.value.Some? && Captures(streams, Now(), saved, r.value.value)
      ensures r.Ok? && r.value.Some? ==>
                var cp := r.value.value; cp.state.Chained? && Fits(cp, |streams|) && GenuineChain(streams, cp)
      ensures AllSave(streams) ==> r.Ok? && r.value.Some?
    {
      hide Linked, Standing, AllSave, ChainDecompressor.Now, ChainDecompressor.Valid, SaveStages, SavedBy, Captures,
           GenuineChain, Compacted;
      InOrder();
      SavesAll(streams, Now());
      var cps, saved := SaveEach();
      if cps.Err? {
        return Err(cps.error);
      }
      if cps.value.None? {
        return Ok(None);
      }
      Snapshots(streams, Now(), saved, cps.value.value);
      return Ok(Some(Snapshot(cps.value.value, Flow(bufs, read, totals, ended))));
    }

    /** Snapshots the stages one after the other. */
    method SaveEach() returns (r: Result<Option<seq<Checkpoint>>, Error>, ghost saved: seq<Saved>)
      requires Valid()
      ensures match SaveStages(streams, Now().states, |streams|)
              case Err(error) => r == Err(error)
              case Ok(None) => r == Ok(None)
              case Ok(Some(all)) => saved == all && r.Ok? && r.value.Some? && SavedBy(totals, all, r.value.value)
    {
      hide Linked, Standing, Genuine, ChainDecompressor.Now;
      var cps: seq<Checkpoint> := [];
      saved := [];
      for i := 0 to |stages|
        invariant SaveStages(streams, Now().states, i) == Ok(Some(saved)) && |saved| == i
        invariant SavedBy(totals, saved, cps)
      {
        hide SavedBy;
        StageStands(i);
        StateIs(i);
        SaveStops(streams, Now().states, i + 1, |stages|);
        ghost var one := streams[i].codec.save(stages[i].state);
        var s := stages[i].Save(totals[i].taken, totals[i].given);
        match s {
          case Err(e) => return Err(e), saved;
          case Ok(None) => return Ok(None), saved;
          case Ok(Some(cp)) =>
            if i > 0 && cp.compressed != totals[i].taken {
              return Ok(None), saved;
            }
            SavedNext(totals, saved, cps, one.value.value, cp);
            saved := saved + [one.value.value];
            cps := cps + [cp];
        }
      }
      return Ok(Some(cps)), saved;
    }

    lemma StateIs(i: nat)
      requires i < |stages|
      ensures i < |Now().states| && Now().states[i] == stages[i].state
    {
    }

    /** Restores the chain from a checkpoint of its own kind: then it is in the
        state that the checkpoint is of. */
    method Restore(cp: ChainCheckpoint) returns (r: Result<(), Error>)
      requires Valid() && (Fits(cp, |stages|) ==> GenuineChain(streams, cp))
      modifies this, stages
      ensures r.Ok? <==> Fits(cp, |stages|) && StagesLoad(cp)
      ensures r.Ok? ==> Valid() && InPos() == cp.compressed && OutPos() == cp.unpacked
      ensures !Fits(cp, |stages|) ==> Valid() && unchanged(this)
      ensures r.Ok? && cp.state.NoState? ==> Now() == StartOf(streams)
      ensures r.Ok? && cp.state.Chained? ==>
                |cp.state.stages| == |streams|
                && Now() == ChainAt(streams, cp.state.stages, cp.state.pending, cp.state.ended)
    {
      hide Linked, Standing, Genuine, Flowing, ChainDecompressor.Now;
      var n := |stages|;
      match cp.state {
        case OtherState => return Err(CheckpointError);
        case NoState =>
          StartIs(streams);
          r := Adopt(seq(n, _ => START), seq(n - 1, _ => []), seq(n, _ => false));
        case Chained(cps, pending, finished) =>
          if |cps| != n || |pending| != n - 1 || |finished| != n {
            return Err(CheckpointError);
          }
          r := Adopt(cps, pending, finished);
      }
    }

    /** Each stage can load what the checkpoint has for it. */
    ghost predicate StagesLoad(cp: ChainCheckpoint) {
      cp.state.Chained? && |cp.state.stages| == |streams| ==>
        forall i :: 0 <= i < |streams| ==> Loads(streams[i], cp.state.stages[i])
    }

    method Adopt(cps: seq<Checkpoint>, pending: seq<seq<byte>>, finished: seq<bool>) returns (r: Result<(), Error>)
      requires Valid() && |cps| == |stages| && forall i :: 0 <= i < |cps| ==> Genuine(streams[i], cps[i])
      requires Flowing(streams, pending, Zeros(|pending|), CountsOf(cps), finished)
      modifies this, stages
      ensures r.Ok? <==> forall i :: 0 <= i < |cps| ==> Loads(streams[i], cps[i])
      ensures r.Ok? ==> Valid() && Now() == ChainAt(streams, cps, pending, finished)
    {
      hide Flowing, Genuine, Decompressor.Valid, Loads, Standing, Linked;
      forall i | 0 <= i < |stages|
        ensures stages[i].Valid()
      {
        StageStands(i);
      }
      AdoptedStands(streams, cps, pending, finished);
      r := RestoreStages(cps);
      if r.Err? {
        return;
      }
      bufs, read, totals, ended := pending, Zeros(|pending|), CountsOf(cps), finished;
      assert Now().states == ChainAt(streams, cps, pending, finished).states;
    }

    method RestoreStages(cps: seq<Checkpoint>) returns (r: Result<(), Error>)
      requires Wired() && |cps| == |stages| && forall i :: 0 <= i < |stages| ==> stages[i].Valid()
      requires forall i :: 0 <= i < |cps| ==> Genuine(streams[i], cps[i])
      modifies stages
      ensures r.Ok? <==> forall i :: 0 <= i < |cps| ==> Loads(streams[i], cps[i])
      ensures r.Ok? ==>
                forall i :: 0 <= i < |stages| ==>
                  && stages[i].inPos == cps[i].compressed && stages[i].outPos == cps[i].unpacked
                  && stages[i].state == StateOf(streams[i], cps[i])
    {
      hide Lawful, Genuine, Decompressor.Valid, Loads, Linked;
      for i := 0 to |stages|
        invariant forall k :: 0 <= k < |stages| ==> stages[k].Valid()
        invariant forall k :: 0 <= k < i ==>
                    && stages[k].inPos == cps[k].compressed && stages[k].outPos == cps[k].unpacked
                    && stages[k].state == StateOf(streams[k], cps[k])
        invariant forall k :: 0 <= k < i ==> Loads(streams[k], cps[k])
      {
        assert stages[i].Valid();
        var restored := stages[i].Restore(cps[i]);
        if restored.Err? {
          return restored;
        }
      }
      return Ok(());
    }
  }

  datatype Passed = Passed(inPos: nat, outPos: nat, progress: bool)

  /** A stage that gives nothing ends the snapshot. */
  lemma {:induction false} SaveStops(streams: seq<Stream>, states: seq<State>, i: nat, n: nat)
    requires i <= n <= |streams| == |states|
    ensures var r := SaveStages(streams, states, i);
            r.Err? || r.value.None? ==> SaveStages(streams, states, n) == r
    decreases n
  {
    if i < n {
      SaveStops(streams, states, i, n - 1);
    }
  }

  /** The checkpoints carry what the stages' codecs gave, at the counts. */
  ghost predicate SavedBy(totals: seq<Totals>, saved: seq<Saved>, cps: seq<Checkpoint>)
    ensures SavedBy(totals, saved, cps) ==> |saved| == |cps|
  {
    && |saved| == |cps| <= |totals|
    && forall k :: 0 <= k < |saved| ==> saved[k].back <= totals[k].taken && cps[k] == CheckpointOf(totals[k], saved[k])
  }

  function CheckpointOf(t: Totals, saved: Saved): Checkpoint
    requires saved.back <= t.taken
  {
    Checkpoint(t.taken - saved.back, t.given, Some(saved.state))
  }

  lemma SavedNext(totals: seq<Totals>, saved: seq<Saved>, cps: seq<Checkpoint>, one: Saved, cp: Checkpoint)
    requires SavedBy(totals, saved, cps) && |saved| < |totals|
    requires one.back <= totals[|saved|].taken && cp == CheckpointOf(totals[|saved|], one)
    ensures SavedBy(totals, saved + [one], cps + [cp])
  {
  }

  lemma SavesAll(streams: seq<Stream>, c: State)
    requires Linked(streams) && Standing(streams, c)
    ensures AllSave(streams) ==> ChainCodecs.Save(streams, c).Ok? && ChainCodecs.Save(streams, c).value.Some?
    ensures Shaped(|streams|, c)
  {
    hide Linked, Standing, AllSave, ChainCodecs.Save;
    SaveSound(streams, c);
  }

  function Snapshot(cps: seq<Checkpoint>, f: Flow): ChainCheckpoint
    requires cps != [] && |f.bufs| == |f.read|
  {
    ChainCheckpoint(cps[0].compressed, cps[|cps| - 1].unpacked, Chained(cps, Unread(f), f.ended))
  }

  /** The checkpoint is that of the state that the codec saved of `c`. */
  ghost predicate Captures(streams: seq<Stream>, c: State, saved: Saved, cp: ChainCheckpoint)
    requires Shaped(|streams|, c)
  {
    && cp.state.Chained? && |cp.state.stages| == |streams|
    && ChainAt(streams, cp.state.stages, cp.state.pending, cp.state.ended) == saved.state
    && saved.back <= ChainCodecs.InPos(c) && cp.compressed == ChainCodecs.InPos(c) - saved.back
    && cp.unpacked == ChainCodecs.OutPos(c)
  }

  /** What the checkpoints of the stages make up is what the codec saves. */
  lemma Snapshots(streams: seq<Stream>, c: State, saved: seq<Saved>, cps: seq<Checkpoint>)
    requires Linked(streams) && Standing(streams, c) && SaveStages(streams, c.states, |streams|) == Ok(Some(saved))
    requires SavedBy(c.flow.totals, saved, cps)
    ensures var r := ChainCodecs.Save(streams, c);
            && |cps| == |streams| && r.Ok? && r.value.Some?
            && var cp := Snapshot(cps, c.flow);
               Captures(streams, c, r.value.value, cp) && Fits(cp, |streams|) && GenuineChain(streams, cp)
  {
    hide Linked, Standing, SaveStages, SavedAs, SavedBy, Flowing, Genuine;
    SavesStages(streams, c, |streams|);
    CheckpointIs(streams, c, saved, cps);
  }

  lemma CheckpointIs(streams: seq<Stream>, c: State, saved: seq<Saved>, cps: seq<Checkpoint>)
    requires Standing(streams, c) && SavedBy(c.flow.totals, saved, cps) && |cps| == |streams|
    requires SavedAs(streams, c, saved)
    ensures saved[0].back <= ChainCodecs.InPos(c) && cps[0].compressed == ChainCodecs.InPos(c) - saved[0].back
    ensures cps[|cps| - 1].unpacked == ChainCodecs.OutPos(c)
    ensures ChainAt(streams, cps, Unread(c.flow), c.flow.ended) == Compacted(c, StatesOf(saved), saved[0].back)
    ensures GenuineChain(streams, Snapshot(cps, c.flow))
  {
    hide Flowing, Stands;
    var d := Compacted(c, StatesOf(saved), saved[0].back);
    forall k | 0 <= k < |cps|
      ensures Genuine(streams[k], cps[k]) && CountsOf(cps)[k] == d.flow.totals[k]
      ensures StateOf(streams[k], cps[k]) == d.states[k]
    {
      assert StageSaved(streams[k], c.flow.totals[k], saved[k], k > 0);
    }
    assert CountsOf(cps) == d.flow.totals;
    assert ChainAt(streams, cps, Unread(c.flow), c.flow.ended).states == d.states;
    CompactedFlows(streams, c, StatesOf(saved), saved[0].back);
  }

  /** Stages that stand at their checkpoints, with the links between them, make
      up a chain. */
  lemma AdoptedStands(streams: seq<Stream>, cps: seq<Checkpoint>, pending: seq<seq<byte>>, ended: seq<bool>)
    requires Linked(streams) && |cps| == |streams| && forall i :: 0 <= i < |cps| ==> Genuine(streams[i], cps[i])
    requires Flowing(streams, pending, Zeros(|pending|), CountsOf(cps), ended)
    ensures Standing(streams, ChainAt(streams, cps, pending, ended))
  {
    hide Flowing;
    var c := ChainAt(streams, cps, pending, ended);
    forall k | 0 <= k < |streams|
      ensures StandsAt(streams, c, k)
    {
      assert Lawful(streams[k]) && Genuine(streams[k], cps[k]);
    }
  }

  /** Nothing in flight and nothing counted: the start of every stream. */
  lemma StartIs(streams: seq<Stream>)
    requires Linked(streams)
    ensures var n := |streams|;
            var starts := seq(n, _ => START);
            && (forall i :: 0 <= i < n ==> Genuine(streams[i], starts[i]) && Loads(streams[i], starts[i]))
            && Flowing(streams, seq(n - 1, _ => []), Zeros(n - 1), CountsOf(starts), seq(n, _ => false))
            && ChainAt(streams, starts, seq(n - 1, _ => []), seq(n, _ => false)) == StartOf(streams)
  {
    hide Flowing;
    StartStands(streams);
    var n := |streams|;
    var starts := seq(n, _ => START);
    assert CountsOf(starts) == seq(n, _ => Totals(0, 0));
    assert ChainAt(streams, starts, seq(n - 1, _ => []), seq(n, _ => false)).states == StartOf(streams).states;
  }

  /** A chain restored from a checkpoint of another over the same streams
      goes on from where that one stood: the same bytes are in flight, the same
      stages have ended, and it has given out as much; only what stage 0 has
      taken in may lie behind. */
  method SaveAndRestore(chain: ChainDecompressor, other: ChainDecompressor) returns (ok: bool)
    requires chain.Valid() && other.Valid() && chain.streams == other.streams
    requires forall i, j :: 0 <= i < |chain.stages| && 0 <= j < |other.stages| ==> chain.stages[i] != other.stages[j]
    requires chain != other
    modifies other, other.stages
    ensures AllSave(chain.streams) && AllReload(chain.streams) ==> ok
    ensures ok ==>
              && other.Valid() && other.OutPos() == chain.OutPos() && other.InPos() <= chain.InPos()
              && other.ended == chain.ended
              && (forall i :: 0 <= i < |chain.streams| - 1 ==> Rest(other.Now().flow, i) == Rest(chain.Now().flow, i))
              && (forall i :: 0 < i < |chain.streams| ==> other.totals[i] == chain.totals[i])
  {
    hide Linked, Standing, GenuineChain, AllSave, AllReload, ChainDecompressor.Now, ChainDecompressor.Valid, Captures,
         ChainCodecs.Save, Shaped;
    chain.InOrder();
    var saved := chain.Save(chain.totals[0].taken, chain.totals[|chain.totals| - 1].given);
    if saved.Err? || saved.value.None? {
      return false;
    }
    GenuineLoad(chain.streams, saved.value.value);
    CapturedAlike(chain.streams, chain.Now(), saved.value.value);
    var r := other.Restore(saved.value.value);
    return r.Ok?;
  }

  lemma GenuineLoad(streams: seq<Stream>, cp: ChainCheckpoint)
    requires |streams| >= 2 && Fits(cp, |streams|) && GenuineChain(streams, cp) && cp.state.Chained?
    ensures AllReload(streams) ==> forall i :: 0 <= i < |streams| ==> Loads(streams[i], cp.state.stages[i])
  {
    hide Flowing, Genuine, Reloads, Loads;
    forall i | 0 <= i < |streams|
      ensures Reloads(streams[i]) ==> Loads(streams[i], cp.state.stages[i])
    {
      GenuineLoads(streams[i], cp.state.stages[i]);
    }
  }

  /** The state saved is the one it was saved of, but that its links are
      compacted and its first stage may be behind. */
  lemma CapturedAlike(streams: seq<Stream>, c: State, cp: ChainCheckpoint)
    requires Standing(streams, c) && cp.state.Chained? && |cp.state.stages| == |streams|
    requires var r := ChainCodecs.Save(streams, c); r.Ok? && r.value.Some? && Captures(streams, c, r.value.value, cp)
    ensures var f := ChainAt(streams, cp.state.stages, cp.state.pending, cp.state.ended).flow;
            && |f.bufs| == |f.read| == |streams| - 1 && |f.totals| == |streams| && f.ended == c.flow.ended
            && (forall i :: 0 <= i < |streams| - 1 ==> Rest(f, i) == Rest(c.flow, i))
            && (forall i :: 0 < i < |streams| ==> f.totals[i] == c.flow.totals[i])
    ensures cp.compressed <= ChainCodecs.InPos(c) && cp.unpacked == ChainCodecs.OutPos(c)
  {
    hide SaveStages, ChainAt;
  }

  /** A chain needs at least two stages. */
  method NewChain(stages: seq<Decompressor>, ghost streams: seq<Stream>) returns (r: Result<ChainDecompressor, Error>)
    requires |streams| == |stages|
    requires forall i :: 0 <= i < |stages| ==>
               stages[i].Valid() && stages[i].stream == streams[i] && stages[i].inPos == stages[i].outPos == 0
    requires forall i, j :: 0 <= i < j < |stages| ==> stages[i] != stages[j]
    requires forall i :: 0 <= i < |stages| - 1 ==> streams[i].data == streams[i + 1].packed
    ensures r.Ok? <==> |stages| >= 2
    ensures r.Ok? ==> fresh(r.value) && r.value.Valid() && r.value.stages == stages && r.value.streams == streams
    ensures r.Ok? ==> r.value.InPos() == 0 && r.value.OutPos() == 0
    ensures r.Ok? && (forall i :: 0 <= i < |stages| ==> stages[i].state == streams[i].codec.start) ==>
              r.value.Now() == StartOf(streams)
  {
    if |stages| < 2 {
      return Err(InvalidState);
    }
    var chain := new ChainDecompressor(stages, streams);
    return Ok(chain);
  }

  /** Drives a chain of lively stages from where it stands, fresh or restored,
      over the rest of its packed stream, however that is cut: what comes out
      is the rest of the data of the last stage. */
  method DecodeChunked(chain: ChainDecompressor, packed: seq<byte>, from: nat, takes: nat -> nat, room: nat)
    returns (r: Result<seq<byte>, Error>)
    requires chain.Valid() && chain.InPos() == from && AllLively(chain.streams)
    requires packed == chain.streams[0].packed && room > 0
    requires forall k :: takes(k) > 0
    modifies chain, chain.stages
    ensures r == Ok(chain.streams[|chain.streams| - 1].data[old(chain.OutPos())..])
  {
    hide ChainDecompressor.Valid, ChainDecompressor.Now, AllLively, Decode;
    ghost var data, start := chain.streams[|chain.streams| - 1].data, chain.OutPos();
    var out: seq<byte>, pos: nat, k: nat := [], from, 0;
    var buf := new byte[room](_ => 0);
    assert data[start..start] == [];
    while true
      invariant chain.Valid() && chain.InPos() == pos
      invariant start <= chain.OutPos() && out == data[start..chain.OutPos()]
      decreases |packed| - pos + |data| - chain.OutPos()
    {
      var n := if takes(k) < |packed| - pos then takes(k) else |packed| - pos;
      ghost var at := chain.OutPos();
      var step := chain.Decompress(packed[pos..pos + n], buf);
      Joined(data, start, at, chain.OutPos());
      out := out + buf[..step.value.produced];
      pos, k := pos + step.value.consumed, k + 1;
      if step.value.status.StreamEnd? {
        assert data[start..|data|] == data[start..];
        return Ok(out);
      }
    }
  }
}
