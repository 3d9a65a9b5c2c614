/**
  Laying checkpoints over a stream while decoding it forward.

  The indexer decodes in as many pieces as its input comes in, may stop early
  and be resumed from the index it left. Every byte must come out once, and
  the table must stay one a reader can start from.
 */
module StreamIndexers {
  import opened Arithmetic
  import opened Bytes
  import opened Wrappers
  import opened Decompressors
  import opened StreamIndexing
  import opened CheckpointStrategies

  datatype IndexerState = NeedsInput | Seek(offset: nat) | Processing | Finished

  /** The widest gap between neighbours after `doublings` doublings. */
  function Gap(least: nat, doublings: nat): nat {
    Pow2(doublings) * (least + BUF_SIZE)
  }

  lemma GapFacts(least: nat, k: nat)
    ensures Gap(least, k + 1) == 2 * Gap(least, k)
    ensures Gap(least, k) == Pow2(k) * least + Pow2(k) * BUF_SIZE
    ensures Gap(least, k) >= least + BUF_SIZE && Pow2(k) * BUF_SIZE >= BUF_SIZE
  {
  }

  lemma AppendCharts(s: Stream, cps: seq<Checkpoint>, cp: Checkpoint, gap: nat)
    requires Charts(s, cps) && Genuine(s, cp) && cps[|cps| - 1].unpacked < cp.unpacked
    ensures Charts(s, cps + [cp])
    ensures Spaced(cps, gap) && cp.unpacked < cps[|cps| - 1].unpacked + gap ==> Spaced(cps + [cp], gap)
  {
    hide Genuine;
  }

  lemma NoneAfterLast(s: Stream, cps: seq<Checkpoint>)
    requires Charts(s, cps)
    ensures forall cp :: cp in cps ==> cp.unpacked <= cps[|cps| - 1].unpacked
  {
    hide Genuine;
  }

  /** From `base` on, checkpoints are less than `gap` apart. */
  ghost predicate SpacedFrom(cps: seq<Checkpoint>, base: nat, gap: nat) {
    forall i, j :: 0 <= i && j == i + 1 && j < |cps| ==> Follows(cps[i], cps[j], base, gap)
  }

  predicate Follows(before: Checkpoint, after: Checkpoint, base: nat, gap: nat) {
    after.unpacked > base ==> after.unpacked - Max(before.unpacked, base) < gap
  }

  function Max(a: nat, b: nat): nat {
    if a >= b then a else b
  }

  lemma AppendSpacedFrom(cps: seq<Checkpoint>, cp: Checkpoint, base: nat, gap: nat)
    requires SpacedFrom(cps, base, gap) && (cps != [] ==> Follows(cps[|cps| - 1], cp, base, gap))
    ensures SpacedFrom(cps + [cp], base, gap)
  {
  }

  lemma SpacedWider(cps: seq<Checkpoint>, gap: nat, wide: nat)
    requires Spaced(cps, gap) && gap <= wide
    ensures Spaced(cps, wide)
  {
  }

  lemma ChartsFacts(s: Stream, cps: seq<Checkpoint>)
    requires Charts(s, cps)
    ensures cps != [] && Thinned(cps) != []
    ensures |cps| == 1 ==> Thinned(cps) == cps
    ensures Genuine(s, cps[|cps| - 1])
  {
  }

  /** After thinning the neighbours, and the last checkpoint from where it
      was, are within twice the gap. */
  lemma ThinnedClose(s: Stream, cps: seq<Checkpoint>, gap: nat, wide: nat)
    requires Charts(s, cps) && gap <= wide
    ensures Spaced(cps, gap) ==> Spaced(cps, wide)
    ensures Spaced(cps, gap) && 2 * gap <= wide ==> Spaced(Thinned(cps), wide)
    ensures Spaced(cps, gap) && Thinned(cps) != [] ==>
              cps[|cps| - 1].unpacked <= Thinned(cps)[|Thinned(cps)| - 1].unpacked + gap
  {
    hide Genuine;
    ThinnedKeeps(s, cps);
    if Spaced(cps, gap) {
      ThinnedSpaced(cps, gap);
      SpacedWider(cps, gap, wide);
      if 2 * gap <= wide {
        SpacedWider(Thinned(cps), 2 * gap, wide);
      }
    }
  }

  class StreamIndexer {
    const stream: Stream
    const decompressor: Decompressor
    const index: StreamIndex
    const strategy: Strategy
    const emitOutput: bool
    var state: IndexerState
    var compressedPos: nat
    var unpackedPos: nat
    var lastCheckpointPos: nat
    var checkpointDataBytes: nat
    var stopAt: Option<nat>
    var inputBuf: seq<byte>
    var inputPos: nat
    var eof: bool
    const outBuf: array<byte>
    var outLen: nat
    var outRead: nat
    /** How far the index reached when this pass began, and all that
        `ReadOutput` has handed out since. */
    ghost const base: nat
    ghost var emitted: seq<byte>
    /** The table this pass began with, and every checkpoint it has laid. */
    ghost const had: seq<Checkpoint>
    ghost var laid: seq<Checkpoint>
    /** A fresh pass under a thinning budget. */
    ghost const steady: bool
    /** How often the strategy had been asked before. */
    ghost const heard: nat

    /** Packed offset the next input must come from. */
    ghost function Fed(): int
      reads this`inputBuf, this`inputPos, decompressor
    {
      decompressor.inPos + |inputBuf| - inputPos
    }

    ghost predicate Plumbed()
      reads this`compressedPos, this`unpackedPos, this`inputBuf, this`inputPos, this`eof, decompressor
      ensures Plumbed() ==> compressedPos <= |stream.packed| && unpackedPos <= |stream.data| && inputPos <= |inputBuf|
      ensures Plumbed() ==> Work() >= 0 && Fed() <= |stream.packed|
    {
      && decompressor.stream == stream && decompressor.Valid()
      && compressedPos == decompressor.inPos && unpackedPos == decompressor.outPos
      && inputPos <= |inputBuf| && Fed() <= |stream.packed|
      && inputBuf[inputPos..] == stream.packed[decompressor.inPos..Fed()]
      && (eof ==> Fed() == |stream.packed|)
    }

    ghost predicate Charted()
      reads this`unpackedPos, this`lastCheckpointPos, this`checkpointDataBytes, index`checkpoints
      ensures Charted() ==> lastCheckpointPos <= unpackedPos
    {
      && Charts(stream, index.checkpoints)
      && index.LastCheckpoint().unpacked == lastCheckpointPos <= unpackedPos
      && checkpointDataBytes == DataBytes(index.checkpoints)
    }

    /** Under a thinning budget, if every position can be saved, no gap is too
        wide. `slack` is how much further decoding may go before an attempt. */
    ghost predicate Close(slack: nat)
      reads this`unpackedPos, this`lastCheckpointPos, index`checkpoints, strategy
    {
      steady ==>
        && strategy.plan.ThinningBudget?
        && (SavesAnywhere(stream) ==>
              && Spaced(index.checkpoints, Gap(strategy.plan.least, strategy.doublings))
              && unpackedPos - lastCheckpointPos + slack < Gap(strategy.plan.least, strategy.doublings))
    }

    /** With a fixed interval, if every position can be saved, all new output is
        covered that often, in any pass. */
    ghost predicate Regular(slack: nat)
      reads this`unpackedPos, this`lastCheckpointPos, index`checkpoints
    {
      strategy.plan.FixedInterval? && SavesAnywhere(stream) ==>
        && SpacedFrom(index.checkpoints, base, Reach())
        && unpackedPos - Max(lastCheckpointPos, base) + slack < Reach()
    }

    /** The interval and one step more. */
    ghost function Reach(): nat {
      if strategy.plan.FixedInterval? then Max(strategy.plan.every, 1) + BUF_SIZE else 0
    }

    /** What is held fits the budget, or nothing is left to drop. */
    ghost predicate Within()
      reads this`checkpointDataBytes, index`checkpoints, strategy
    {
      steady ==>
        && strategy.plan.ThinningBudget?
        && (checkpointDataBytes <= strategy.plan.budget || |index.checkpoints| == 1)
    }

    /** The strategy has seen the index while it was still bare. */
    ghost predicate Begun(pos: nat)
      reads index`checkpoints, strategy
    {
      steady ==> strategy.started || (|index.checkpoints| == 1 && pos == 0)
    }

    ghost predicate Even(slack: nat)
      reads this`unpackedPos, this`lastCheckpointPos, this`checkpointDataBytes, index`checkpoints, strategy
    {
      Close(slack) && Within() && Begun(unpackedPos) && Regular(slack)
    }

    ghost predicate Drained()
      reads this
    {
      inputPos == |inputBuf| && outRead == outLen
    }

    ghost predicate Accounted()
      reads this`outRead, this`outLen, this`emitted, index`indexedTo, outBuf
      ensures Accounted() ==> (outRead < outLen || (outRead == 0 && outLen == 0)) && outLen <= outBuf.Length == BUF_SIZE
      ensures Accounted() ==> base <= index.indexedTo <= |stream.data|
    {
      && base <= index.indexedTo <= |stream.data|
      && (outRead < outLen || (outRead == 0 && outLen == 0))
      && outLen <= outBuf.Length == BUF_SIZE
      && if emitOutput then emitted + outBuf[outRead..outLen] == stream.data[base..index.indexedTo]
         else emitted == [] && outLen == 0
    }

    /** Where decoding stood when this pass began. */
    ghost function From(): nat {
      if had == [] then 0 else had[|had| - 1].unpacked
    }

    /** Where each checkpoint of the table comes from. */
    ghost predicate Sourced()
      reads this`laid, index`checkpoints
    {
      && (forall cp :: cp in index.checkpoints ==> cp in had || cp in laid)
      && (laid == [] ==> index.checkpoints == had)
    }

    /** What is laid on the way lies past what was indexed; where the pass ends
        it may lie before. */
    ghost predicate Placed()
      reads this`laid, this`state, this`unpackedPos
    {
      && From() <= base
      && forall cp :: cp in laid ==>
           && From() < cp.unpacked <= unpackedPos
           && (cp.unpacked > base || (state.Finished? && cp.unpacked == unpackedPos))
    }

    /** If the pass has ended short of what was indexed, it has laid one there,
        given that any position can be saved. */
    ghost predicate Marked()
      reads this`laid, this`state, this`unpackedPos
    {
      SavesAnywhere(stream) && state.Finished? && From() < unpackedPos < base ==>
        laid != [] && laid[|laid| - 1].unpacked == unpackedPos
    }

    /** A checkpoint was laid at `pos`. */
    ghost predicate LaidAt(pos: nat)
      reads this`laid
    {
      exists cp :: cp in laid && cp.unpacked == pos
    }

    /** In this pass the strategy said that one was due at `pos`. */
    ghost predicate DueAt(pos: nat)
      reads strategy`answers
    {
      exists k :: heard <= k < |strategy.answers| && strategy.answers[k] == Answer(pos, true)
    }

    /** Where the strategy said that one was due, one was laid, given that the
        position could be saved; and none was laid elsewhere but at the end. */
    ghost predicate Heeded()
      reads this`laid, this`state, this`unpackedPos, strategy`answers
    {
      && heard <= |strategy.answers|
      && (SavesAnywhere(stream) ==> forall pos: nat :: DueAt(pos) ==> LaidAt(pos))
      && forall cp :: cp in laid ==> DueAt(cp.unpacked) || (state.Finished? && cp.unpacked == unpackedPos)
    }

    /** The strategy was asked about all new output up to `to`, a step of it at
        a time. */
    ghost predicate Asked(to: nat)
      reads strategy`answers
    {
      var n := |strategy.answers|;
      && heard <= n
      && (if to > base then heard < n && strategy.answers[n - 1].pos == to else heard == n)
      && forall k :: heard <= k < n ==> AskedBefore(k) < strategy.answers[k].pos <= AskedBefore(k) + BUF_SIZE
    }

    ghost function AskedBefore(k: nat): nat
      reads strategy`answers
      requires heard <= k < |strategy.answers|
    {
      if k == heard then base else strategy.answers[k - 1].pos
    }

    ghost predicate Traced()
      reads this`laid, this`state, this`unpackedPos, index`checkpoints, strategy`answers
    {
      Sourced() && Placed() && Marked() && Heeded()
    }

    /** Something was laid where an earlier pass has been. */
    ghost predicate LaidBelow()
      reads this`laid
    {
      exists cp :: cp in laid && cp.unpacked < base
    }

    /** The pass is not to stop before what was indexed. */
    ghost predicate StopsAhead()
      reads this`stopAt
    {
      stopAt.Some? ==> stopAt.value >= base
    }

    /** It is to stop at least a step before that, and past where it began. */
    ghost predicate StopsShort()
      reads this`stopAt
    {
      stopAt.Some? && From() < stopAt.value && stopAt.value + BUF_SIZE <= base
    }

    /** The pass goes no further past its stop than one step reaches. */
    ghost predicate Nearing()
      reads this`stopAt, this`state, this`unpackedPos
    {
      stopAt.Some? ==> unpackedPos < stopAt.value + if state.Finished? then BUF_SIZE else 0
    }

    ghost predicate Valid()
      reads this, decompressor, index, strategy, outBuf
    {
      && Plumbed() && strategy.Valid() && Charted() && Even(BUF_SIZE) && Accounted() && Traced()
      && unpackedPos <= index.indexedTo && Asked(index.indexedTo)
      && (steady || index.indexedTo > base ==> unpackedPos == index.indexedTo)
      && (state.NeedsInput? || state.Seek? ==> Drained())
      && (state.Seek? ==> state.offset == Fed())
      && (index.complete ==>
            && state.Finished? && unpackedPos == index.indexedTo == |stream.data|
            && index.unpackedLen == Some(|stream.data|))
    }

    /** Nothing has been decoded yet. */
    ghost predicate AtStart()
      reads this, decompressor, index, strategy, outBuf
      ensures AtStart() ==> Valid()
    {
      && Valid() && Drained() && emitted == [] && index.indexedTo == base && !eof
      && laid == [] && index.checkpoints == had && unpackedPos == From() && heard == |strategy.answers|
      && (if state.Seek? then true else state.NeedsInput? && Fed() == 0)
    }

    constructor (stream: Stream, strategy: Strategy, emitOutput: bool)
      requires Lawful(stream) && strategy.Valid()
      ensures AtStart() && this.stream == stream && this.strategy == strategy && this.emitOutput == emitOutput
      ensures fresh(decompressor) && fresh(index) && fresh(outBuf)
      ensures base == index.indexedTo == 0 && state == NeedsInput && stopAt == None
      ensures steady == (strategy.plan.ThinningBudget? && !strategy.started)
    {
      hide Lawful, Charts, Plumbed, Charted, Accounted, Close, Within, Begun, Traced, Decompressor.Valid, AtStart, Fed;
      this.stream, this.strategy, this.emitOutput := stream, strategy, emitOutput;
      decompressor := new Decompressor(stream);
      index := new StreamIndex();
      outBuf := new byte[BUF_SIZE](_ => 0);
      state, compressedPos, unpackedPos, lastCheckpointPos := NeedsInput, 0, 0, 0;
      checkpointDataBytes := EstimatedSize(START);
      stopAt, inputBuf, inputPos, eof, outLen, outRead := None, [], 0, false, 0, 0;
      base, emitted, steady := 0, [], strategy.plan.ThinningBudget? && !strategy.started;
      had, laid, heard := [START], [], |strategy.answers|;
      new;
      assert [START] == [] + [START];
      DataBytesAppend([], START);
      Spread();
      Primed();
    }

    /** A bare index is within every bound. */
    lemma Spread()
      requires |index.checkpoints| == 1 && unpackedPos == lastCheckpointPos == 0
      requires steady ==> strategy.plan.ThinningBudget? && !strategy.started && strategy.plan.least >= 1
      ensures Even(BUF_SIZE)
    {
      if steady {
        GapFacts(strategy.plan.least, strategy.doublings);
      }
    }

    /** Continues an index some pass left, with the decoder at its last
        checkpoint. */
    constructor At(decompressor: Decompressor, index: StreamIndex, strategy: Strategy, emitOutput: bool)
      requires decompressor.Valid() && index.Of(decompressor.stream) && !index.complete && strategy.Valid()
      requires decompressor.inPos == index.LastCheckpoint().compressed
      requires decompressor.outPos == index.LastCheckpoint().unpacked
      ensures AtStart() && this.stream == decompressor.stream && this.decompressor == decompressor
      ensures this.index == index && this.strategy == strategy && this.emitOutput == emitOutput && fresh(outBuf)
      ensures base == index.indexedTo && stopAt == None && !steady
      ensures had == index.checkpoints && state == if Fed() == 0 then NeedsInput else Seek(Fed())
    {
      hide Lawful, Charts, DataBytes, Plumbed, Charted, Accounted, Close, Within, Begun, Strategy.Valid,
           Decompressor.Valid;
      hide AtStart, Fed, Traced;
      this.stream, this.decompressor, this.index := decompressor.stream, decompressor, index;
      this.strategy, this.emitOutput := strategy, emitOutput;
      ChartsFacts(decompressor.stream, index.checkpoints);
      var cp := index.LastCheckpoint();
      outBuf := new byte[BUF_SIZE](_ => 0);
      state := if cp.compressed == 0 then NeedsInput else Seek(cp.compressed);
      compressedPos, unpackedPos, lastCheckpointPos := cp.compressed, cp.unpacked, cp.unpacked;
      stopAt, inputBuf, inputPos, eof, outLen, outRead := None, [], 0, false, 0, 0;
      base, emitted, steady := index.indexedTo, [], false;
      had, laid, heard := index.checkpoints, [], |strategy.answers|;
      new;
      checkpointDataBytes := index.CheckpointDataBytes();
      NoneAfterLast(decompressor.stream, index.checkpoints);
      Unsteady();
      Primed();
    }

    lemma Unsteady()
      requires !steady && unpackedPos <= base
      requires forall cp :: cp in index.checkpoints ==> cp.unpacked <= base
      ensures Even(BUF_SIZE)
    {
    }

    /** With the decoder restored and nothing buffered, all is in order. */
    lemma Primed()
      requires Lawful(stream) && decompressor.stream == stream && decompressor.Valid() && strategy.Valid()
      requires compressedPos == decompressor.inPos && unpackedPos == decompressor.outPos
      requires inputBuf == [] && inputPos == 0 && !eof && outRead == 0 && outLen == 0 && outBuf.Length == BUF_SIZE
      requires index.Of(stream) && unpackedPos == lastCheckpointPos == index.LastCheckpoint().unpacked
      requires checkpointDataBytes == DataBytes(index.checkpoints)
      requires Even(BUF_SIZE) && (steady ==> unpackedPos == index.indexedTo)
      requires base == index.indexedTo && emitted == [] && !index.complete
      requires had == index.checkpoints && laid == [] && heard == |strategy.answers|
      requires state == if compressedPos == 0 then NeedsInput else Seek(compressedPos)
      ensures AtStart() && Fed() == compressedPos
    {
      assert stream.data[base..base] == [];
      assert emitted + outBuf[0..0] == [];
    }

    /** Ends the pass early: at the first step's end from `offset` on. */
    method StopAt(offset: nat)
      requires Valid()
      modifies this`stopAt
      ensures Valid() && stopAt == Some(offset) && (old(AtStart()) ==> AtStart())
    {
      stopAt := Some(offset);
    }

    function CurrentContext(): Context
      reads this, index
    {
      Context(unpackedPos, lastCheckpointPos, |index.checkpoints|, checkpointDataBytes)
    }

    /** A checkpoint here, unless the codec has none to give; and room made for
        it if a budget asks. */
    method TryCheckpoint() returns (error: Option<Error>)
      requires Plumbed() && strategy.Valid() && Charted() && Even(0)
      requires steady ==> strategy.started || unpackedPos == 0
      requires Sourced()
      modifies this`checkpointDataBytes, this`lastCheckpointPos, this`laid, index`checkpoints, strategy
      ensures Plumbed() && strategy.Valid() && Charted() && Sourced()
      ensures error.None? ==> Even(BUF_SIZE)
      ensures || laid == old(laid)
              || (|laid| == |old(laid)| + 1 && old(laid) <= laid && laid[|laid| - 1].unpacked == unpackedPos)
      ensures laid != old(laid) ==> old(lastCheckpointPos) < unpackedPos
      ensures SavesAnywhere(stream) && old(lastCheckpointPos) < unpackedPos ==> laid != old(laid)
      ensures SavesOrSkips(stream) ==> error.None?
      ensures strategy.answers == old(strategy.answers)
    {
      hide Decompressor.Valid, Lawful, Genuine, Spaced, Pow2, Charts, Regular,
           SavesAnywhere, SavesOrSkips, Gap, EstimatedSize, DataBytes;
      ChartsFacts(stream, index.checkpoints);
      if steady {
        GapFacts(strategy.plan.least, strategy.doublings);
      }
      RegularHere();
      if unpackedPos == lastCheckpointPos && index.LastCheckpoint().unpacked == unpackedPos {
        return None;
      }
      var saved := decompressor.Save(compressedPos, unpackedPos);
      match saved {
        case Err(e) => return Some(e);
        case Ok(None) => return None;
        case Ok(Some(cp)) =>
          if steady {
            AppendCharts(stream, index.checkpoints, cp, Gap(strategy.plan.least, strategy.doublings));
          } else {
            AppendCharts(stream, index.checkpoints, cp, 0);
          }
          DataBytesAppend(index.checkpoints, cp);
          checkpointDataBytes := checkpointDataBytes + EstimatedSize(cp);
          index.checkpoints := index.checkpoints + [cp];
          lastCheckpointPos := unpackedPos;
          laid := laid + [cp];
          RegularOn(cp);
          ThinAsAsked();
      }
      return None;
    }

    /** A checkpoint laid here starts the interval anew. */
    twostate lemma RegularOn(cp: Checkpoint)
      requires old(Regular(0)) && unchanged(`unpackedPos) && cp.unpacked == unpackedPos == lastCheckpointPos
      requires old(index.checkpoints) != [] && index.checkpoints == old(index.checkpoints) + [cp]
      requires old(index.LastCheckpoint().unpacked) == old(lastCheckpointPos)
      ensures Regular(BUF_SIZE)
    {
      if strategy.plan.FixedInterval? && SavesAnywhere(stream) {
        hide SavesAnywhere, SpacedFrom;
        AppendSpacedFrom(old(index.checkpoints), cp, base, Reach());
      }
    }

    /** So does one that is here already, and where none can be had nothing is
        promised. */
    lemma RegularHere()
      requires Regular(0)
      ensures unpackedPos == lastCheckpointPos || !SavesAnywhere(stream) ==> Regular(BUF_SIZE)
    {
      hide SavesAnywhere, SpacedFrom;
    }

    method ThinAsAsked()
      requires strategy.Valid() && Charted() && Close(BUF_SIZE) && (steady ==> strategy.started)
      requires Sourced() && laid != [] && Regular(BUF_SIZE)
      modifies this`checkpointDataBytes, this`lastCheckpointPos, index`checkpoints, strategy
      ensures strategy.Valid() && Charted() && Even(BUF_SIZE) && Sourced()
      ensures strategy.answers == old(strategy.answers)
    {
      hide Genuine, Spaced, Pow2, Charts, Thinned, Lawful, SpacedFrom;
      while true
        invariant strategy.Valid() && Charted() && Close(BUF_SIZE) && (steady ==> strategy.started)
        invariant Sourced() && Regular(BUF_SIZE) && strategy.answers == old(strategy.answers)
        decreases |index.checkpoints|
      {
        ghost var cps, k := index.checkpoints, strategy.doublings;
        var thin := strategy.ShouldThin(CurrentContext());
        ChartsFacts(stream, cps);
        var dropped := false;
        if thin {
          dropped := index.Thin();
        }
        ThinnedKeeps(stream, cps);
        ThinnedFrom(cps);
        if steady {
          GapFacts(strategy.plan.least, k);
          ThinnedClose(stream, cps, Gap(strategy.plan.least, k), Gap(strategy.plan.least, strategy.doublings));
        }
        if !dropped {
          return;
        }
        checkpointDataBytes := index.CheckpointDataBytes();
        lastCheckpointPos := index.LastCheckpoint().unpacked;
      }
    }

    /** Bytes still to be taken in or given out by the decoder. */
    ghost function Work(): int
      reads decompressor
    {
      |stream.packed| - decompressor.inPos + |stream.data| - decompressor.outPos
    }

    /** The stream has ended, or decoding has come as far as it was to. */
    ghost predicate Stopped()
      reads this`stopAt, this`unpackedPos, index`complete
    {
      index.complete || (stopAt.Some? && unpackedPos >= stopAt.value)
    }

    /** What `r` means to the caller; `work` and `pending` are from before the
        step. */
    ghost predicate Answers(r: Request, work: int, pending: seq<byte>)
      reads this, decompressor, index, outBuf
      requires outRead <= outLen <= outBuf.Length
    {
      match r
      case NeedInput => Drained() && !state.Seek? && !state.Finished? && (eof ==> Work() < work)
      case SeekAndRead(offset, _) => offset == Fed() && state.NeedsInput?
      case OutputReady => outRead < outLen && (Work() < work || outBuf[outRead..outLen] == pending)
      case Done => state.Finished? && (outRead == outLen || outBuf[outRead..outLen] == pending)
      case Failure(_) => true
    }

    /** One pass of the step loop; `None` goes round again. */
    method StepOnce() returns (r: Option<Request>)
      requires Valid()
      modifies this, decompressor, index, strategy, outBuf
      ensures r == None || !r.value.Failure? ==>
                Valid() && Work() <= old(Work()) && Fed() == old(Fed()) && index.indexedTo >= old(index.indexedTo)
      ensures r == None ==> Work() < old(Work()) && outRead == outLen && !state.Finished?
      ensures r.Some? && !r.value.Failure? ==> Answers(r.value, old(Work()), old(outBuf[outRead..outLen]))
      ensures Unfailing(stream) ==> r == None || !r.value.Failure?
      ensures (old(state.Finished?) ==> old(Stopped())) && state.Finished? ==> Stopped()
      ensures eof == old(eof) && emitted == old(emitted) && stopAt == old(stopAt)
      ensures !state.Seek? && (old(state.Seek?) <==> r.Some? && r.value.SeekAndRead?)
      ensures (r == None || !r.value.Failure?) && old(Nearing()) ==> Nearing()
    {
      hide Plumbed, Charted, Even, Accounted, Sourced, SavesAnywhere, Strategy.Valid, Unfailing, Asked, Traced;
      match state {
        case Finished => return Some(Done);
        case Seek(offset) =>
          state := NeedsInput;
          StillTraced();
          return Some(SeekAndRead(offset, BUF_SIZE));
        case NeedsInput =>
          if !eof {
            return Some(NeedInput);
          }
          state := Processing;
          StillTraced();
        case Processing =>
      }
      if outRead < outLen {
        return Some(OutputReady);
      }
      if inputPos == |inputBuf| && !eof {
        state := NeedsInput;
        StillTraced();
        return Some(NeedInput);
      }
      r := DecodeChunk();
    }

    method DecodeChunk() returns (r: Option<Request>)
      requires Valid() && state == Processing && outRead == outLen && (inputPos < |inputBuf| || eof)
      modifies this, decompressor, index, strategy, outBuf
      ensures r == None || !r.value.Failure? ==>
                Valid() && Work() <= old(Work()) && Fed() == old(Fed()) && index.indexedTo >= old(index.indexedTo)
      ensures r == None ==> Work() < old(Work()) && outRead == outLen && !state.Finished?
      ensures r.Some? && !r.value.Failure? ==> Answers(r.value, old(Work()), old(outBuf[outRead..outLen]))
      ensures Unfailing(stream) ==> r == None || !r.value.Failure?
      ensures !state.Seek? && (state.Finished? ==> Stopped()) && (r.Some? ==> !r.value.SeekAndRead?)
      ensures eof == old(eof) && emitted == old(emitted) && stopAt == old(stopAt)
      ensures (r == None || !r.value.Failure?) && old(Nearing()) ==> Nearing()
    {
      hide Plumbed, Charted, Accounted, Strategy.Valid, Spaced, SavesAnywhere, SavesOrSkips, Lively, Gap, Decoded.Moved;
      var hadInput := inputPos < |inputBuf|;
      var before := unpackedPos;
      var decoded := Decode();
      if decoded.Err? {
        return Some(Failure(decoded.error));
      }
      r := Digest(before, decoded.value, hadInput);
    }

    /** Checkpoints and offers what was just decoded, and decides what comes
        next. */
    method Digest(before: nat, d: Decoded, hadInput: bool) returns (r: Option<Request>)
      requires Plumbed() && strategy.Valid() && Charted() && Accounted() && outRead == outLen && state == Processing
      requires unpackedPos == before + d.produced && d.produced <= BUF_SIZE && before <= index.indexedTo
      requires outBuf[..d.produced] == stream.data[before..unpackedPos]
      requires Close(BUF_SIZE - d.produced) && Within() && Begun(before) && Regular(BUF_SIZE - d.produced)
      requires Asked(index.indexedTo) && (steady || index.indexedTo > base ==> before == index.indexedTo)
      requires lastCheckpointPos <= before
      requires !index.complete
      requires d.status.StreamEnd? ==> unpackedPos == |stream.data|
      requires !hadInput ==> eof && inputPos == |inputBuf|
      requires hadInput && inputPos == |inputBuf| ==> d.consumed > 0
      requires Traced()
      modifies this`state, this`checkpointDataBytes, this`lastCheckpointPos, this`laid, this`outLen, this`outRead
      modifies index, strategy
      ensures r == None || !r.value.Failure? ==> Valid() && index.indexedTo >= old(index.indexedTo)
      ensures r == None ==> d.consumed + d.produced > 0 && outRead == outLen && !state.Finished?
      ensures r.Some? && !r.value.Failure? ==> Answers(r.value, Work() + d.consumed + d.produced, [])
      ensures SavesOrSkips(stream) && d.Moved() ==> r == None || !r.value.Failure?
      ensures !state.Seek? && (state.Finished? ==> Stopped()) && (r.Some? ==> !r.value.SeekAndRead?)
      ensures (r == None || !r.value.Failure?) && !state.Finished? && stopAt.Some? ==> unpackedPos < stopAt.value
    {
      hide Plumbed, Charted, Accounted, Strategy.Valid, Close, Within, Begun, Regular, SavesOrSkips, Traced, Asked;
      var error := Lay(before, d.produced);
      if error.Some? {
        return Some(Failure(error.value));
      }
      Offer(before, d.produced);
      r := Conclude(hadInput, d.consumed, d.produced, d.status);
    }

    /** Runs the decoder on what input there is. */
    method Decode() returns (r: Result<Decoded, Error>)
      requires Plumbed() && (inputPos < |inputBuf| || eof) && outBuf.Length == BUF_SIZE && !state.Finished?
      modifies this`inputPos, this`compressedPos, this`unpackedPos, decompressor, outBuf
      ensures Lively(stream) ==> r.Ok? && r.value.Moved()
      ensures r.Ok? ==>
                && Plumbed() && Fed() == old(Fed())
                && inputPos == old(inputPos) + r.value.consumed
                && unpackedPos == old(unpackedPos) + r.value.produced && r.value.produced <= BUF_SIZE
                && Work() == old(Work()) - r.value.consumed - r.value.produced
                && (old(Accounted()) && outRead == outLen ==> Accounted())
                && (old(Charted()) ==> Charted())
                && (old(Traced()) ==> Traced())
                && outBuf[..r.value.produced] == stream.data[old(unpackedPos)..unpackedPos]
                && (r.value.status.StreamEnd? ==> unpackedPos == |stream.data|)
    {
      hide Decompressor.Valid, Charted, Accounted, Traced, Lively, Lawful;
      var input := inputBuf[inputPos..];
      r := decompressor.Decompress(input, outBuf, outBuf.Length);
      if r.Ok? {
        inputPos := inputPos + r.value.consumed;
        compressedPos := compressedPos + r.value.consumed;
        unpackedPos := unpackedPos + r.value.produced;
        Unread(input, r.value.consumed);
        StillCharted();
        StillAccounted();
        StillTraced();
      }
    }

    /** Decoding on does not touch the table, what is on offer, or the trace. */
    twostate lemma StillCharted()
      requires unchanged(`lastCheckpointPos, `checkpointDataBytes, index`checkpoints) && old(unpackedPos) <= unpackedPos
      ensures old(Charted()) ==> Charted()
    {
      hide Charts, DataBytes;
    }

    twostate lemma StillAccounted()
      requires unchanged(`outRead, `outLen, `emitted, index`indexedTo)
      ensures old(Accounted()) && outRead == outLen ==> Accounted()
    {
      if outRead == outLen <= outBuf.Length {
        assert outBuf[outRead..outLen] == old(outBuf[outRead..outLen]);
      }
    }

    twostate lemma StillTraced()
      requires unchanged(`laid, index`checkpoints, strategy`answers)
      requires old(unpackedPos) <= unpackedPos && !state.Finished? && !old(state.Finished?)
      ensures old(Traced()) ==> Traced()
    {
      hide Sourced, SavesAnywhere;
    }

    lemma Unread(input: seq<byte>, consumed: nat)
      requires consumed <= |input| && consumed <= inputPos <= |inputBuf| && input == inputBuf[inputPos - consumed..]
      requires consumed <= decompressor.inPos && Fed() <= |stream.packed|
      requires input == stream.packed[decompressor.inPos - consumed..Fed()]
      ensures inputBuf[inputPos..] == stream.packed[decompressor.inPos..Fed()]
    {
      assert inputBuf[inputPos..] == input[consumed..];
    }

    /** Asks the strategy about the bytes just decoded; those an earlier pass
        covered lay no checkpoint. */
    method Lay(before: nat, produced: nat) returns (error: Option<Error>)
      requires Plumbed() && strategy.Valid() && Charted()
      requires unpackedPos == before + produced && produced <= BUF_SIZE && before <= index.indexedTo
      requires Close(BUF_SIZE - produced) && Within() && Begun(before) && Regular(BUF_SIZE - produced)
      requires Asked(index.indexedTo) && (steady || index.indexedTo > base ==> before == index.indexedTo)
      requires lastCheckpointPos <= before
      requires Traced() && !state.Finished? && base <= index.indexedTo
      modifies this`checkpointDataBytes, this`lastCheckpointPos, this`laid, index`checkpoints, strategy
      ensures error.None? ==> Plumbed() && strategy.Valid() && Charted() && Even(BUF_SIZE) && Traced()
      ensures error.None? ==> Asked(Max(index.indexedTo, unpackedPos))
      ensures SavesOrSkips(stream) ==> error.None?
    {
      hide Plumbed, Charts, SavesAnywhere, SavesOrSkips, Spaced, Gap, Pow2, DataBytes, Sourced, Placed, Marked,
           Heeded, Asked, Regular;
      if produced > 0 && unpackedPos > index.indexedTo {
        var due := strategy.ShouldCheckpoint(CurrentContext());
        if steady {
          GapFacts(strategy.plan.least, strategy.doublings);
        }
        RegularLater(produced, due);
        if due {
          error := TryCheckpoint();
        } else {
          error := None;
        }
        AskedMore(due);
        TracedOn(due);
        return;
      }
      RegularIdle(before, produced);
      error := None;
    }

    /** An interval that has not passed yet. */
    lemma RegularLater(produced: nat, due: bool)
      requires produced <= BUF_SIZE && Regular(BUF_SIZE - produced)
      requires strategy.plan.FixedInterval? ==> (due <==> unpackedPos - lastCheckpointPos >= strategy.plan.every)
      ensures Regular(0) && (!due ==> Regular(BUF_SIZE))
    {
      hide SavesAnywhere, SpacedFrom;
    }

    lemma RegularIdle(before: nat, produced: nat)
      requires produced <= BUF_SIZE && Regular(BUF_SIZE - produced) && unpackedPos == before + produced
      requires base <= index.indexedTo && (index.indexedTo > base ==> before == index.indexedTo)
      ensures produced == 0 || unpackedPos <= index.indexedTo ==> Regular(BUF_SIZE)
    {
      hide SavesAnywhere, SpacedFrom;
    }

    /** One answer more, about the output of one step. */
    twostate lemma AskedMore(due: bool)
      requires old(Asked(index.indexedTo)) && old(index.indexedTo) < unpackedPos
      requires unpackedPos <= Max(old(index.indexedTo), base) + BUF_SIZE
      requires strategy.answers == old(strategy.answers) + [Answer(unpackedPos, due)] && old(index.indexedTo) >= base
      ensures Asked(unpackedPos)
    {
      var n := |old(strategy.answers)|;
      forall k | heard <= k <= n
        ensures AskedBefore(k) < strategy.answers[k].pos <= AskedBefore(k) + BUF_SIZE
      {
        assert k < n ==> old(AskedBefore(k)) == AskedBefore(k) && old(strategy.answers)[k] == strategy.answers[k];
      }
    }

    /** A checkpoint where one was due keeps the word, as does none where none
        was. */
    twostate lemma Heeds(due: bool)
      requires old(Heeded()) && unchanged(`unpackedPos, `state) && !state.Finished?
      requires strategy.answers == old(strategy.answers) + [Answer(unpackedPos, due)]
      requires || laid == old(laid)
               || (due && |laid| == |old(laid)| + 1 && old(laid) <= laid && laid[|laid| - 1].unpacked == unpackedPos)
      requires due && SavesAnywhere(stream) ==> laid != old(laid)
      ensures Heeded()
    {
      hide SavesAnywhere;
      var n, m := |old(laid)|, |old(strategy.answers)|;
      assert strategy.answers[m] == Answer(unpackedPos, due);
      forall cp | cp in laid
        ensures DueAt(cp.unpacked)
      {
        if cp in old(laid) {
          var k :| heard <= k < m && old(strategy.answers)[k] == Answer(cp.unpacked, true);
          assert strategy.answers[k] == Answer(cp.unpacked, true);
        } else {
          assert cp == laid[n] && due;
        }
      }
      forall pos: nat | DueAt(pos) && SavesAnywhere(stream)
        ensures LaidAt(pos)
      {
        var k :| heard <= k < |strategy.answers| && strategy.answers[k] == Answer(pos, true);
        if k < m {
          assert old(strategy.answers)[k] == Answer(pos, true) && old(LaidAt(pos));
          var cp :| cp in old(laid) && cp.unpacked == pos;
          assert cp in laid;
        } else {
          assert laid[n] in laid && laid[n].unpacked == pos;
        }
      }
    }

    /** With that, every checkpoint still lies where it may. */
    twostate lemma TracedOn(due: bool)
      requires old(Traced()) && Sourced() && unchanged(`unpackedPos, `state) && !state.Finished? && unpackedPos > base
      requires strategy.answers == old(strategy.answers) + [Answer(unpackedPos, due)]
      requires || laid == old(laid)
               || (due && |laid| == |old(laid)| + 1 && old(laid) <= laid && laid[|laid| - 1].unpacked == unpackedPos)
      requires due && SavesAnywhere(stream) ==> laid != old(laid)
      ensures Traced()
    {
      hide SavesAnywhere, Sourced;
      Heeds(due);
      hide Heeded;
      forall cp | cp in laid
        ensures cp in old(laid) || (laid != old(laid) && cp == laid[|old(laid)|])
      {
      }
    }

    twostate lemma TracedAtEnd()
      requires old(Traced()) && Sourced() && unchanged(`unpackedPos) && state.Finished? && !old(state.Finished?)
      requires strategy.answers == old(strategy.answers)
      requires || laid == old(laid)
               || (|laid| == |old(laid)| + 1 && old(laid) <= laid && laid[|laid| - 1].unpacked == unpackedPos)
      requires laid != old(laid) ==> From() < unpackedPos
      requires SavesAnywhere(stream) && From() < unpackedPos < base ==> laid != old(laid)
      ensures Traced()
    {
      hide SavesAnywhere, Sourced;
      HeedsAtEnd();
      hide Heeded;
      forall cp | cp in laid
        ensures cp in old(laid) || (laid != old(laid) && cp == laid[|old(laid)|])
      {
      }
    }

    /** The pass may end with one that was not asked for. */
    twostate lemma HeedsAtEnd()
      requires old(Heeded()) && unchanged(`unpackedPos) && state.Finished? && !old(state.Finished?)
      requires strategy.answers == old(strategy.answers)
      requires || laid == old(laid)
               || (|laid| == |old(laid)| + 1 && old(laid) <= laid && laid[|laid| - 1].unpacked == unpackedPos)
      ensures Heeded()
    {
      hide SavesAnywhere;
      forall cp | cp in laid
        ensures cp in old(laid) || (laid != old(laid) && cp == laid[|old(laid)|])
      {
      }
    }

    /** Puts the bytes just decoded up for reading, unless an earlier pass
        covered them. */
    method Offer(before: nat, produced: nat)
      requires Accounted() && outRead == outLen
      requires before <= index.indexedTo && before + produced <= |stream.data| && produced <= BUF_SIZE
      requires outBuf[..produced] == stream.data[before..before + produced]
      modifies this`outLen, this`outRead, index`indexedTo
      ensures Accounted() && (outRead < outLen ==> produced > 0)
      ensures index.indexedTo == if before + produced > old(index.indexedTo) then before + produced
          else old(index.indexedTo)
    {
      ghost var to := index.indexedTo;
      assert emitted + outBuf[outRead..outLen] == emitted;
      if before + produced > index.indexedTo {
        if emitOutput {
          outRead := index.indexedTo - before;
          outLen := produced;
          assert outBuf[outRead..outLen] == outBuf[..produced][outRead..];
          assert outBuf[outRead..outLen] == stream.data[to..before + produced];
        }
        index.indexedTo := before + produced;
        assert stream.data[base..to] + stream.data[to..index.indexedTo] == stream.data[base..index.indexedTo];
      }
    }

    lemma NothingPacked()
      requires Plumbed() && eof && inputPos == |inputBuf| && compressedPos == 0
      ensures |stream.data| == 0
    {
    }

    /** Short of what was indexed, nothing has been laid yet. */
    lemma Untouched()
      requires Charted() && Sourced() && Placed() && !state.Finished?
      ensures unpackedPos <= base ==> laid == [] && lastCheckpointPos == From()
      ensures From() <= base
    {
      assert laid != [] ==> laid[0] in laid;
    }

    lemma RegularBefore()
      requires Regular(BUF_SIZE)
      ensures Regular(0)
    {
      hide SavesAnywhere, SpacedFrom;
    }

    /** Ends the pass: with the stream, or with a checkpoint where it stops. */
    method Finish(ended: bool) returns (error: Option<Error>)
      requires Plumbed() && strategy.Valid() && Charted() && Even(BUF_SIZE) && Accounted() && state == Processing
      requires unpackedPos <= index.indexedTo && Asked(index.indexedTo)
      requires (steady || index.indexedTo > base ==> unpackedPos == index.indexedTo) && !index.complete
      requires Traced() && if ended then unpackedPos == |stream.data| else stopAt.Some? && unpackedPos >= stopAt.value
      modifies this`state, this`checkpointDataBytes, this`lastCheckpointPos, this`laid
      modifies index`checkpoints, index`complete, index`unpackedLen, strategy
      ensures error.None? ==> Valid() && state == Finished && Stopped()
      ensures SavesOrSkips(stream) ==> error.None?
      ensures !state.Seek? && (state.Finished? ==> error.None?)
    {
      hide Strategy.Valid, Spaced, SavesAnywhere, SavesOrSkips, Gap, Plumbed, Accounted, Charts, DataBytes, Regular,
           Sourced, Placed, Marked, Heeded, Asked;
      if ended {
        index.complete, index.unpackedLen := true, Some(unpackedPos);
      } else {
        Untouched();
        RegularBefore();
        error := TryCheckpoint();
        if error.Some? {
          return;
        }
      }
      state, error := Finished, None;
      TracedAtEnd();
    }

    /** Decides what comes next after a decoding step. */
    method Conclude(hadInput: bool, consumed: nat, produced: nat, status: Status) returns (r: Option<Request>)
      requires Plumbed() && strategy.Valid() && Charted() && Even(BUF_SIZE) && Accounted() && state == Processing
      requires unpackedPos <= index.indexedTo && Asked(index.indexedTo)
      requires (steady || index.indexedTo > base ==> unpackedPos == index.indexedTo) && !index.complete
      requires status.StreamEnd? ==> unpackedPos == |stream.data|
      requires !hadInput ==> eof && inputPos == |inputBuf|
      requires hadInput && inputPos == |inputBuf| ==> consumed > 0
      requires outRead < outLen ==> produced > 0
      requires Traced()
      modifies this`state, this`checkpointDataBytes, this`lastCheckpointPos, this`laid
      modifies index`checkpoints, index`complete, index`unpackedLen, strategy
      ensures r == None || !r.value.Failure? ==> Valid()
      ensures r == None ==> consumed + produced > 0 && outRead == outLen && !state.Finished?
      ensures r.Some? && !r.value.Failure? ==> Answers(r.value, Work() + consumed + produced, [])
      ensures SavesOrSkips(stream) && (consumed + produced > 0 || status.StreamEnd?) ==> r == None || !r.value.Failure?
      ensures !state.Seek? && (state.Finished? ==> Stopped()) && (r.Some? ==> !r.value.SeekAndRead?)
      ensures (r == None || !r.value.Failure?) && !state.Finished? && stopAt.Some? ==> unpackedPos < stopAt.value
    {
      hide Charted, Strategy.Valid, Spaced, SavesAnywhere, SavesOrSkips, Gap, Plumbed, Accounted;
      var stopped := stopAt.Some? && unpackedPos >= stopAt.value;
      var idleAtEof := !hadInput && consumed == 0 && produced == 0;
      if idleAtEof && !status.StreamEnd? && compressedPos > 0 {
        return Some(Failure(TruncatedInput));
      }
      var ended := status.StreamEnd? || idleAtEof;
      if ended || stopped {
        if !status.StreamEnd? && ended {
          NothingPacked();
        }
        var error := Finish(ended);
        if error.Some? {
          return Some(Failure(error.value));
        }
        return Some(if outRead < outLen then OutputReady else Done);
      }
      if outRead < outLen {
        return Some(OutputReady);
      }
      if inputPos == |inputBuf| {
        if !eof {
          state := NeedsInput;
        }
        return Some(NeedInput);
      }
      if consumed == 0 && produced == 0 {
        return Some(Failure(DecompressionError));
      }
      return None;
    }

    /** Drives the indexer to its next request. */
    method Step() returns (r: Request)
      requires Valid()
      modifies this, decompressor, index, strategy, outBuf
      ensures !r.Failure? ==>
                Valid() && Work() <= old(Work()) && Fed() == old(Fed()) && index.indexedTo >= old(index.indexedTo)
      ensures !r.Failure? ==> Answers(r, old(Work()), old(outBuf[outRead..outLen]))
      ensures Unfailing(stream) ==> !r.Failure?
      ensures (old(state.Finished?) ==> old(Stopped())) && state.Finished? ==> Stopped()
      ensures eof == old(eof) && emitted == old(emitted) && stopAt == old(stopAt)
      ensures !state.Seek? && (old(state.Seek?) <==> r.SeekAndRead?)
      ensures !r.Failure? && old(Nearing()) ==> Nearing()
    {
      hide Plumbed, Charted, Even, Accounted, Traced, Nearing, Stopped, Answers, Strategy.Valid, Unfailing, Drained;
      while true
        invariant Valid() && Work() <= old(Work()) && Fed() == old(Fed())
        invariant outRead <= outLen <= outBuf.Length && index.indexedTo >= old(index.indexedTo)
        invariant outRead == outLen || outBuf[outRead..outLen] == old(outBuf[outRead..outLen])
        invariant state.Seek? == old(state.Seek?)
        invariant state.Finished? ==> old(state.Finished?) && (old(Stopped()) ==> Stopped())
        invariant eof == old(eof) && emitted == old(emitted) && stopAt == old(stopAt)
        invariant old(Nearing()) ==> Nearing()
        decreases Work()
      {
        ghost var work, pending := Work(), outBuf[outRead..outLen];
        assert outRead == outLen ==> pending == [];
        var answer := StepOnce();
        if answer.Some? {
          if !answer.value.Failure? {
            AnswersEarlier(answer.value, work, pending, old(Work()), old(outBuf[outRead..outLen]));
          }
          return answer.value;
        }
      }
    }

    /** An answer to a step is one to the steps before it. */
    lemma AnswersEarlier(r: Request, work: int, pending: seq<byte>, before: int, held: seq<byte>)
      requires outRead <= outLen <= outBuf.Length && work <= before && (pending == held || pending == [])
      ensures !r.Failure? && Answers(r, work, pending) ==> Answers(r, before, held)
    {
    }

    /** Provides what comes next of the packed stream. */
    method ProvideData(data: seq<byte>)
      requires Valid() && Drained() && !state.Seek? && !state.Finished?
      requires Fed() + |data| <= |stream.packed| && data == stream.packed[Fed()..Fed() + |data|]
      modifies this`inputBuf, this`inputPos, this`state
      ensures Valid() && Fed() == old(Fed()) + |data| && state == Processing
    {
      hide Charted, Even, Accounted, Strategy.Valid, Decompressor.Valid;
      inputBuf, inputPos := data, 0;
      state := Processing;
    }

    /** Everything was provided. */
    method SignalEof()
      requires Valid() && !state.Seek? && !state.Finished? && Fed() == |stream.packed|
      modifies this`eof, this`state
      ensures Valid() && eof && state == Processing
    {
      hide Charted, Even, Accounted, Strategy.Valid, Decompressor.Valid;
      eof := true;
      state := Processing;
    }

    /** Hands out what is on offer, as far as `buf` goes. */
    method ReadOutput(buf: array<byte>) returns (n: nat)
      requires Valid() && buf != outBuf
      modifies this`outRead, this`outLen, this`emitted, buf
      ensures Valid() && n <= buf.Length && emitted == old(emitted) + buf[..n]
      ensures n == 0 <==> old(outRead) == old(outLen) || buf.Length == 0
      ensures outLen - outRead == old(outLen - outRead) - n
    {
      hide Plumbed, Charted, Even, Accounted, Traced, Strategy.Valid;
      var available := outLen - outRead;
      if available == 0 {
        assert emitted == emitted + buf[..0];
        return 0;
      }
      n := if available < buf.Length then available else buf.Length;
      CopyFront(outBuf[outRead..outRead + n], buf);
      HandOut(n);
    }

    /** Moves past what was handed out. */
    method HandOut(n: nat)
      requires Accounted() && outRead < outLen && n <= outLen - outRead
      modifies this`outRead, this`outLen, this`emitted
      ensures Accounted() && emitted == old(emitted) + outBuf[old(outRead)..old(outRead) + n]
      ensures outLen - outRead == old(outLen - outRead) - n
    {
      Offered(n);
      emitted := emitted + outBuf[outRead..outRead + n];
      outRead := outRead + n;
      if outRead == outLen {
        assert outBuf[outRead..outLen] == outBuf[0..0];
        outLen, outRead := 0, 0;
      }
    }

    lemma Offered(n: nat)
      requires outRead + n <= outLen <= outBuf.Length
      ensures emitted + outBuf[outRead..outLen]
           == (emitted + outBuf[outRead..outRead + n]) + outBuf[outRead + n..outLen]
    {
      assert outBuf[outRead..outLen] == outBuf[outRead..outRead + n] + outBuf[outRead + n..outLen];
    }
  }

  /** Takes an index up again from its last checkpoint, unless it is complete
      or the checkpoint cannot be loaded. */
  method Resume(stream: Stream, index: StreamIndex, strategy: Strategy, emitOutput: bool)
    returns (r: Result<StreamIndexer, Error>)
    requires Lawful(stream) && index.Of(stream) && strategy.Valid()
    ensures index.complete ==> r == Err(InvalidState)
    ensures !index.complete ==> (r.Ok? <==> Loads(stream, index.LastCheckpoint()))
    ensures Reloads(stream) ==> (r.Ok? <==> !index.complete)
    ensures r.Ok? ==>
              && fresh(r.value) && fresh(r.value.decompressor) && fresh(r.value.outBuf)
              && r.value.AtStart() && r.value.stream == stream && r.value.index == index
              && r.value.strategy == strategy && r.value.emitOutput == emitOutput
              && r.value.base == index.indexedTo && r.value.stopAt == None && !r.value.steady
              && r.value.had == index.checkpoints
              && r.value.state == (if r.value.Fed() == 0 then NeedsInput else Seek(r.value.Fed()))
  {
    hide Lawful, Charts, Genuine, Loads, Reloads, Decompressor.Valid, Strategy.Valid, StreamIndexer.AtStart;
    if index.complete {
      return Err(InvalidState);
    }
    ChartsFacts(stream, index.checkpoints);
    GenuineLoads(stream, index.LastCheckpoint());
    var decompressor := new Decompressor(stream);
    var restored := decompressor.Restore(index.LastCheckpoint());
    if restored.Err? {
      return Err(restored.error);
    }
    var ix := new StreamIndexer.At(decompressor, index, strategy, emitOutput);
    return Ok(ix);
  }

  /** What a thinning budget promises of an index: it fits, or only its
      start is left; and where every position can be saved, neighbours are
      closer than the interval plus one step allows. */
  ghost predicate WithinBounds(ix: StreamIndexer)
    reads ix.index, ix.strategy
  {
    var cps, plan, k := ix.index.checkpoints, ix.strategy.plan, ix.strategy.doublings;
    && plan.ThinningBudget?
    && (DataBytes(cps) <= plan.budget || |cps| == 1)
    && (SavesAnywhere(ix.stream) ==> Spaced(cps, Gap(plan.least, k)))
    && ix.strategy.interval == IntervalAfter(plan.least, k)
  }

  /** What a fixed interval promises of the output that a pass was first to see,
      where every position can be saved: each checkpoint follows the one before,
      or the start of that output, by less than the interval and one step, and
      so does the end of the output the last of them, without the step. */
  ghost predicate Every(ix: StreamIndexer)
    reads ix.index, ix.strategy
  {
    var cps := ix.index.checkpoints;
    ix.strategy.plan.FixedInterval? && SavesAnywhere(ix.stream) ==>
      var step := Max(ix.strategy.plan.every, 1);
      && SpacedFrom(cps, ix.base, step + BUF_SIZE)
      && (cps != [] && ix.index.indexedTo > ix.base ==>
            ix.index.indexedTo - Max(cps[|cps| - 1].unpacked, ix.base) < step)
  }

  /** Gives the indexer some more of the packed stream, or its end. */
  method Supply(ix: StreamIndexer, fed: nat, take: nat) returns (next: nat)
    requires ix.Valid() && ix.Drained() && !ix.state.Seek? && !ix.state.Finished? && fed == ix.Fed() && take > 0
    modifies ix`inputBuf, ix`inputPos, ix`state, ix`eof
    ensures ix.Valid() && ix.outRead == ix.outLen && ix.state == Processing && next == ix.Fed()
    ensures if fed < |ix.stream.packed| then next > fed && ix.eof == old(ix.eof) else next == fed && ix.eof
    ensures old(ix.Nearing()) ==> ix.Nearing()
  {
    hide StreamIndexer.Plumbed, StreamIndexer.Charted, StreamIndexer.Even, StreamIndexer.Accounted, Strategy.Valid;
    AccountedBounds(ix);
    var packed := ix.stream.packed;
    if fed < |packed| {
      var n := if take < |packed| - fed then take else |packed| - fed;
      ix.ProvideData(packed[fed..fed + n]);
      next := fed + n;
    } else {
      ix.SignalEof();
      next := fed;
    }
  }

  /** One request, answered: output is taken, input or its end supplied. */
  method Answer(ix: StreamIndexer, buf: array<byte>, fed: nat, take: nat)
    returns (r: Request, chunk: seq<byte>, next: nat)
    requires ix.Valid() && ix.outRead == ix.outLen && (ix.state.Seek? || fed == ix.Fed())
    requires ix.state.Finished? ==> ix.Stopped()
    requires buf != ix.outBuf && buf.Length > 0 && take > 0
    modifies ix, ix.decompressor, ix.index, ix.strategy, ix.outBuf, buf
    ensures ix.stopAt == old(ix.stopAt) && (Unfailing(ix.stream) ==> !r.Failure?)
    ensures !r.Failure? ==>
              && ix.Valid() && ix.emitted == old(ix.emitted) + chunk && ix.outRead == ix.outLen && !ix.state.Seek?
              && (ix.state.Finished? ==> ix.Stopped()) && (old(ix.Nearing()) ==> ix.Nearing())
    ensures r.Done? ==> chunk == [] && ix.state.Finished?
    ensures !r.Failure? && !r.Done? ==>
              && next == ix.Fed() <= |ix.stream.packed| && ix.Work() >= 0
              && (old(ix.state.Seek?) || ix.Fed() > old(ix.Fed())
                  || (ix.Fed() == old(ix.Fed())
                      && ((ix.eof && !old(ix.eof)) || (ix.eof == old(ix.eof) && ix.Work() < old(ix.Work())))))
  {
    hide StreamIndexer.Plumbed, StreamIndexer.Charted, StreamIndexer.Even, StreamIndexer.Accounted, Strategy.Valid;
    hide StreamIndexer.Stopped, Decompressor.Valid, StreamIndexer.Valid, StreamIndexer.AtStart, StreamIndexer.Fed;
    hide StreamIndexer.Nearing, Unfailing;
    AccountedBounds(ix);
    chunk, next := [], fed;
    assert ix.emitted + [] == ix.emitted;
    r := ix.Step();
    if r.Failure? {
      return;
    }
    AccountedBounds(ix);
    if r.SeekAndRead? {
      next := r.offset;
    }
    match r {
      case OutputReady => chunk := TakeAll(ix, buf);
      case NeedInput | SeekAndRead(_, _) => next := Supply(ix, next, take);
      case _ =>
    }
    AccountedBounds(ix);
  }

  /** Drives one pass to its end, handing over `takes(k)` bytes at a time. */
  method RunPass(ix: StreamIndexer, takes: nat -> nat, room: nat) returns (out: seq<byte>, error: Option<Error>)
    requires ix.AtStart() && ix.emitOutput
    requires forall k :: takes(k) > 0
    requires room > 0
    modifies ix, ix.decompressor, ix.index, ix.strategy, ix.outBuf
    ensures error.None? ==> ix.Valid() && ix.Stopped() && out == ix.stream.data[ix.base..ix.index.indexedTo]
    ensures error.None? ==> ix.index.Of(ix.stream) && ix.base <= ix.index.indexedTo
    ensures error.None? && ix.steady ==> WithinBounds(ix)
    ensures error.None? ==> ix.Asked(ix.index.indexedTo) && ix.Heeded() && Every(ix)
    ensures Unfailing(ix.stream) ==> error.None?
    ensures ix.stopAt == old(ix.stopAt)
    ensures error.None? && ix.LaidBelow() ==> ix.From() < ix.unpackedPos < ix.base
    ensures error.None? && SavesAnywhere(ix.stream) && ix.From() < ix.unpackedPos < ix.base ==> ix.LaidBelow()
    ensures error.None? && ix.StopsAhead() ==> !ix.LaidBelow()
    ensures error.None? && SavesAnywhere(ix.stream) && ix.StopsShort() ==> ix.LaidBelow()
    ensures error.None? && old(ix.Nearing()) ==> ix.Nearing()
  {
    hide StreamIndexer.Plumbed, StreamIndexer.Charted, StreamIndexer.Even, StreamIndexer.Accounted, Strategy.Valid;
    hide StreamIndexer.Stopped, Decompressor.Valid, WithinBounds, StreamIndex.Of;
    hide StreamIndexer.Valid, StreamIndexer.AtStart, StreamIndexer.Fed, Unfailing, SavesAnywhere;
    hide StreamIndexer.Nearing, StreamIndexer.StopsAhead, StreamIndexer.StopsShort, StreamIndexer.LaidBelow;
    hide StreamIndexer.From;
    AccountedBounds(ix);
    out := [];
    var fed: nat, k: nat := 0, 0;
    var buf := new byte[room](_ => 0);
    while true
      invariant ix.Valid() && ix.emitted == out && ix.outRead == ix.outLen
      invariant ix.state.Finished? ==> ix.Stopped()
      invariant ix.state.Seek? || fed == ix.Fed()
      invariant ix.Fed() <= |ix.stream.packed| && ix.Work() >= 0
      invariant ix.stopAt == old(ix.stopAt)
      invariant old(ix.Nearing()) ==> ix.Nearing()
      decreases ix.state.Seek?, |ix.stream.packed| - ix.Fed(), !ix.eof, ix.Work()
    {
      var r, chunk, next := Answer(ix, buf, fed, takes(k));
      if r.Failure? {
        return out, Some(r.error);
      }
      if r.Done? {
        Outcome(ix);
        Extent(ix);
        return out, None;
      }
      out, fed, k := out + chunk, next, k + 1;
    }
  }

  /** Where a pass that has ended has laid checkpoints. */
  lemma Extent(ix: StreamIndexer)
    requires ix.Valid() && ix.Stopped() && ix.state.Finished?
    ensures ix.LaidBelow() ==> ix.From() < ix.unpackedPos < ix.base
    ensures SavesAnywhere(ix.stream) && ix.From() < ix.unpackedPos < ix.base ==> ix.LaidBelow()
    ensures ix.StopsAhead() ==> !ix.LaidBelow()
    ensures SavesAnywhere(ix.stream) && ix.StopsShort() && ix.Nearing() ==> ix.LaidBelow()
  {
    hide Lawful, SavesAnywhere, StreamIndexer.Even, StreamIndexer.Charted, StreamIndexer.Plumbed, Strategy.Valid;
    hide StreamIndexer.Sourced;
    var laid := ix.laid;
    assert laid != [] ==> laid[|laid| - 1] in laid;
  }

  lemma Regularly(ix: StreamIndexer)
    requires ix.Valid()
    ensures Every(ix)
  {
    hide SpacedFrom, SavesAnywhere, StreamIndexer.Asked, StreamIndexer.Traced, StreamIndexer.Accounted, Lawful;
  }

  lemma Outcome(ix: StreamIndexer)
    requires ix.Valid()
    ensures ix.index.Of(ix.stream) && ix.base <= ix.index.indexedTo
    ensures ix.emitOutput && ix.outRead == ix.outLen ==> ix.emitted == ix.stream.data[ix.base..ix.index.indexedTo]
    ensures ix.steady ==> WithinBounds(ix)
    ensures ix.Asked(ix.index.indexedTo) && ix.Heeded() && Every(ix)
  {
    Regularly(ix);
    hide SpacedFrom, SavesAnywhere, StreamIndexer.Asked, StreamIndexer.Heeded, Every;
    if ix.outRead == ix.outLen {
      assert ix.emitted + ix.outBuf[ix.outRead..ix.outLen] == ix.emitted;
    }
  }

  /** Reads the output on offer to its end. */
  method TakeAll(ix: StreamIndexer, buf: array<byte>) returns (out: seq<byte>)
    requires ix.Valid() && buf != ix.outBuf && buf.Length > 0
    modifies ix`outRead, ix`outLen, ix`emitted, buf
    ensures ix.Valid() && ix.emitted == old(ix.emitted) + out && ix.outRead == ix.outLen
  {
    hide StreamIndexer.Plumbed, StreamIndexer.Charted, StreamIndexer.Even, StreamIndexer.Accounted, Strategy.Valid;
    out := [];
    while true
      invariant ix.Valid() && ix.emitted == old(ix.emitted) + out
      decreases ix.outLen - ix.outRead
    {
      AccountedBounds(ix);
      var n := ix.ReadOutput(buf);
      if n == 0 {
        return;
      }
      out := out + buf[..n];
    }
  }

  lemma AccountedBounds(ix: StreamIndexer)
    requires ix.Valid()
    ensures ix.outRead <= ix.outLen <= ix.outBuf.Length && ix.Fed() <= |ix.stream.packed| && ix.Work() >= 0
    ensures ix.AtStart() ==> ix.emitted == [] && ix.outRead == ix.outLen
    ensures ix.AtStart() ==> !ix.state.Finished? && (ix.state.Seek? || ix.Fed() == 0)
    ensures ix.AtStart() && ix.StopsShort() ==> ix.Nearing()
    ensures ix.state.NeedsInput? ==> ix.Drained()
  {
  }

  lemma Joined(data: seq<byte>, from: nat, to: nat)
    requires from <= to <= |data|
    ensures data[..from] + data[from..to] == data[..to] && (to == |data| ==> data[..to] == data)
  {
  }

  /** Indexes a stream in pieces: a pass to each of the stops, resuming where
      the one before it left off, then one to the end. The output of the
      passes, one after the other, is the unpacked stream. */
  method IndexInPieces(stream: Stream, stops: seq<nat>, takes: nat -> nat, room: nat)
    returns (index: StreamIndex, out: seq<byte>, error: Option<Error>)
    requires Lawful(stream) && room > 0
    requires forall k :: takes(k) > 0
    ensures error.None? ==> out == stream.data && index.complete && index.Of(stream)
    ensures Unfailing(stream) ==> error.None?
  {
    hide Lawful, Lively, SavesOrSkips, Reloads, Loads, SavesAnywhere;
    hide StreamIndexer.AtStart, StreamIndexer.Stopped, StreamIndexer.Valid;
    hide StreamIndexer.Nearing, StreamIndexer.StopsAhead, StreamIndexer.StopsShort, StreamIndexer.LaidBelow;
    var strategy := new Strategy.Other();
    var ix := new StreamIndexer(stream, strategy, true);
    index, out := ix.index, [];
    for k := 0 to |stops|
      invariant fresh(ix) && fresh(ix.decompressor) && fresh(ix.index) && fresh(ix.strategy) && fresh(ix.outBuf)
      invariant ix.stream == stream && ix.emitOutput && ix.index == index && ix.AtStart() && ix.stopAt == None
      invariant ix.base == index.indexedTo <= |stream.data| && out == stream.data[..index.indexedTo]
    {
      ghost var from := index.indexedTo;
      ix.StopAt(stops[k]);
      var piece;
      piece, error := RunPass(ix, takes, room);
      if error.Some? {
        return;
      }
      Joined(stream.data, from, index.indexedTo);
      out := out + piece;
      if index.complete {
        return;
      }
      strategy := new Strategy.Other();
      var resumed := Resume(stream, index, strategy, true);
      if resumed.Err? {
        error := Some(resumed.error);
        return;
      }
      ix := resumed.value;
    }
    ghost var from := index.indexedTo;
    var piece;
    piece, error := RunPass(ix, takes, room);
    if error.None? {
      NeverStopped(ix);
      Joined(stream.data, from, index.indexedTo);
      out := out + piece;
    }
  }

  lemma NeverStopped(ix: StreamIndexer)
    requires ix.Stopped() && ix.stopAt == None
    ensures ix.index.complete
  {
  }
}
