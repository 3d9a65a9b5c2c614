/** A resumed pass that is stopped before what was indexed lays a checkpoint
    there: the input at which it does. */
module StoppedEarly {
  import opened CheckpointStrategies
  import opened Decompressors
  import opened StreamIndexers
  import opened StreamIndexing
  import opened Wrappers
  import StoredCodec

  const SIZE := 4 * BUF_SIZE

  /** Indexes half of a stored stream of four steps under a budget that keeps
      only the first checkpoint. */
  method IndexHalf(stream: Stream, takes: nat -> nat, room: nat) returns (index: StreamIndex)
    requires stream == StoredCodec.StoredStream(seq(SIZE, _ => 0)) && Lawful(stream) && Unfailing(stream)
    requires room > 0 && forall k :: takes(k) > 0
    ensures fresh(index) && index.Of(stream) && !index.complete
    ensures |index.checkpoints| == 1 && 2 * BUF_SIZE <= index.indexedTo
  {
    hide Lawful, Unfailing, SavesAnywhere;
    var strategy := new Strategy.Thinning(0, 1);
    var ix := new StreamIndexer(stream, strategy, true);
    ix.StopAt(2 * BUF_SIZE);
    AheadOfStop(ix);
    var out, error := RunPass(ix, takes, room);
    index := ix.index;
    OnlyStart(index.checkpoints);
    HalfWay(ix);
  }

  lemma AheadOfStop(ix: StreamIndexer)
    requires ix.AtStart() && ix.base == 0 && ix.stopAt == Some(2 * BUF_SIZE) && ix.From() == 0
    ensures ix.Nearing()
  {
  }

  lemma OnlyStart(cps: seq<Checkpoint>)
    ensures cps != [] ==> DataBytes(cps) > 0
  {
  }

  lemma HalfWay(ix: StreamIndexer)
    requires ix.Valid() && ix.Stopped() && ix.Nearing() && ix.stopAt == Some(2 * BUF_SIZE) && ix.steady
    requires |ix.stream.data| == SIZE
    ensures !ix.index.complete && 2 * BUF_SIZE <= ix.index.indexedTo
  {
  }

  /** Resumed and stopped after its first byte, the pass lays a checkpoint below
      the point up to which the stream was indexed. */
  method StopBelow(takes: nat -> nat, room: nat) returns (ix: StreamIndexer)
    requires room > 0 && forall k :: takes(k) > 0
    ensures fresh(ix) && ix.stopAt == Some(1) && 2 * BUF_SIZE <= ix.base && ix.LaidBelow()
  {
    var stream := StoredCodec.StoredStream(seq(SIZE, _ => 0));
    StoredCodec.StoredIsLawful(stream.data);
    hide Lawful, Lively, SavesOrSkips, Reloads, SavesAnywhere;
    var index := IndexHalf(stream, takes, room);
    var strategy := new Strategy.Other();
    var resumed := Resume(stream, index, strategy, true);
    ix := resumed.value;
    StartOf(stream, index.checkpoints);
    ix.StopAt(1);
    var out, error := RunPass(ix, takes, room);
  }

  lemma StartOf(stream: Stream, cps: seq<Checkpoint>)
    requires Charts(stream, cps) && |cps| == 1
    ensures cps[0].unpacked == 0
  {
  }
}
