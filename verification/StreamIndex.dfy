/** Checkpoint tables: finding the one to start from, and thinning them out. */
module StreamIndexing {
  import opened Wrappers
  import opened Decompressors

  /** The most that one step decodes, and so the error of any spacing. */
  const BUF_SIZE := 0x1_0000

  /** What an engine wants from its caller. */
  datatype Request =
    | NeedInput
    | SeekAndRead(offset: nat, len: nat)
    | OutputReady
    | Done
    | Failure(error: Error)

  ghost predicate Ascending(cps: seq<Checkpoint>) {
    forall i, j :: 0 <= i < j < |cps| ==> cps[i].unpacked < cps[j].unpacked
  }

  /** Neighbours are less than `gap` apart. */
  ghost predicate Spaced(cps: seq<Checkpoint>, gap: nat) {
    forall i, j :: 0 <= i && j == i + 1 && j < |cps| ==> cps[j].unpacked < cps[i].unpacked + gap
  }

  ghost predicate Sorted(cps: seq<Checkpoint>) {
    forall i, j :: 0 <= i < j < |cps| ==> cps[i].unpacked <= cps[j].unpacked
  }

  /** What any table that is read from must be. */
  ghost predicate FromStart(cps: seq<Checkpoint>) {
    cps != [] && cps[0].unpacked == 0 && Sorted(cps)
  }

  /** A table of genuine checkpoints over the stream, from its very start. */
  ghost predicate Charts(s: Stream, cps: seq<Checkpoint>) {
    && FromStart(cps) && Ascending(cps)
    && forall i :: 0 <= i < |cps| ==> Genuine(s, cps[i])
  }

  // ─── Looking a checkpoint up ─────────────────────────────────────

  /** How many checkpoints lead the table at or before `offset`. */
  function PartitionPoint(cps: seq<Checkpoint>, offset: nat): (n: nat)
    ensures n <= |cps|
    ensures forall i :: 0 <= i < n ==> cps[i].unpacked <= offset
    ensures n < |cps| ==> cps[n].unpacked > offset
  {
    if cps == [] || cps[0].unpacked > offset then 0 else
    var n := 1 + PartitionPoint(cps[1..], offset);
    assert forall i :: 1 <= i < n ==> cps[i] == cps[1..][i - 1];
    n
  }

  function BestCheckpoint(cps: seq<Checkpoint>, offset: nat): (i: nat)
    requires cps != []
    ensures i < |cps|
  {
    var n := PartitionPoint(cps, offset);
    if n == 0 then 0 else n - 1
  }

  /** The choice does not pass the offset, and nothing that does not is
      nearer to it. */
  lemma BestIsNearest(cps: seq<Checkpoint>, offset: nat)
    requires FromStart(cps)
    ensures var best := cps[BestCheckpoint(cps, offset)].unpacked;
            && best <= offset
            && forall i :: 0 <= i < |cps| && cps[i].unpacked <= offset ==> cps[i].unpacked <= best
  {
    var n := PartitionPoint(cps, offset);
    assert n > 0;
    assert forall i :: n <= i < |cps| ==> cps[n].unpacked <= cps[i].unpacked;
  }

  // ─── Thinning ────────────────────────────────────────────────────

  /** What is left of a table after thinning it once. */
  function Thinned(cps: seq<Checkpoint>): (t: seq<Checkpoint>)
  {
    var n := |cps|;
    if n <= 1 then cps
    else if n == 2 then [cps[0]]
    else seq(n / 2 + 1, j requires 0 <= j < n / 2 + 1 => cps[if 2 * j < n then 2 * j else n - 1])
  }

  lemma ThinnedKeeps(s: Stream, cps: seq<Checkpoint>)
    requires Charts(s, cps)
    ensures Charts(s, Thinned(cps)) && Thinned(cps)[0] == cps[0]
    ensures |cps| >= 2 ==> |Thinned(cps)| < |cps|
    ensures |cps| >= 3 ==> Thinned(cps)[|Thinned(cps)| - 1] == cps[|cps| - 1]
    ensures Thinned(cps)[|Thinned(cps)| - 1].unpacked <= cps[|cps| - 1].unpacked
  {
    hide Genuine;
    var t := Thinned(cps);
    if |cps| >= 3 {
      assert forall i :: 0 <= i < |t| - 1 ==> t[i] == cps[2 * i];
    }
  }

  /** Thinning only takes away. */
  lemma ThinnedFrom(cps: seq<Checkpoint>)
    ensures forall cp :: cp in Thinned(cps) ==> cp in cps
  {
  }

  /** Thinning at most doubles the spacing. */
  lemma ThinnedSpaced(cps: seq<Checkpoint>, gap: nat)
    requires Spaced(cps, gap)
    ensures Spaced(Thinned(cps), 2 * gap)
  {
    var t, n := Thinned(cps), |cps|;
    forall i, j | 0 <= i && j == i + 1 && j < |t|
      ensures t[j].unpacked < t[i].unpacked + 2 * gap
    {
      assert t[i] == cps[2 * i];
      assert cps[2 * i + 1].unpacked < cps[2 * i].unpacked + gap;
      if 2 * j < n {
        assert t[j] == cps[2 * i + 2] && cps[2 * i + 2].unpacked < cps[2 * i + 1].unpacked + gap;
      }
    }
  }

  /** Estimated bytes of checkpoint state. */
  function DataBytes(cps: seq<Checkpoint>): nat {
    if cps == [] then 0 else DataBytes(cps[..|cps| - 1]) + EstimatedSize(cps[|cps| - 1])
  }

  lemma DataBytesAppend(cps: seq<Checkpoint>, cp: Checkpoint)
    ensures DataBytes(cps + [cp]) == DataBytes(cps) + EstimatedSize(cp)
  {
    assert (cps + [cp])[..|cps|] == cps;
  }

  /** What a read at `offset` needs of a table: the checkpoint it starts from
      must be the stream's. The rest may date from before the stream was cut. */
  ghost predicate ReadableAt(s: Stream, cps: seq<Checkpoint>, offset: nat) {
    FromStart(cps) && Genuine(s, cps[BestCheckpoint(cps, offset)])
  }

  lemma ChartsReadable(s: Stream, cps: seq<Checkpoint>, offset: nat)
    requires Charts(s, cps)
    ensures ReadableAt(s, cps, offset)
  {
  }

  class StreamIndex {
    var unpackedLen: Option<nat>
    var checkpoints: seq<Checkpoint>
    /** How much of the data the passes so far have been through. */
    var indexedTo: nat
    var complete: bool

    /** An index of the stream; a declared length need not be its length. */
    ghost predicate Of(s: Stream)
      reads this
    {
      && Charts(s, checkpoints)
      && checkpoints[|checkpoints| - 1].unpacked <= indexedTo <= |s.data|
      && (complete ==> indexedTo == |s.data| && unpackedLen == Some(|s.data|))
    }

    constructor ()
      ensures unpackedLen == None && checkpoints == [START] && indexedTo == 0 && !complete
      ensures forall s :: Of(s)
    {
      unpackedLen, checkpoints, indexedTo, complete := None, [START], 0, false;
    }

    function LastCheckpoint(): Checkpoint
      reads this`checkpoints
      requires checkpoints != []
    {
      checkpoints[|checkpoints| - 1]
    }

    /** Thins the table, and says whether there was anything to give up. */
    method Thin() returns (dropped: bool)
      modifies this`checkpoints
      ensures dropped == (old(|checkpoints|) >= 2)
      ensures checkpoints == Thinned(old(checkpoints))
    {
      var n := |checkpoints|;
      if n <= 1 {
        return false;
      }
      if n == 2 {
        checkpoints := checkpoints[..1];
        return true;
      }
      var kept := [];
      for i := 0 to n
        invariant |kept| == if i < n then (i + 1) / 2 else n / 2 + 1
        invariant forall j :: 0 <= j < |kept| ==> kept[j] == checkpoints[if 2 * j < n then 2 * j else n - 1]
      {
        if i % 2 == 0 || i == n - 1 {
          kept := kept + [checkpoints[i]];
        }
      }
      checkpoints := kept;
      return true;
    }

    /** Checks an index that was loaded: all that looking up a checkpoint
        needs of the table, and nothing more. */
    method Validate() returns (r: Result<(), Error>)
      ensures r.Ok? <==> FromStart(checkpoints)
    {
      if checkpoints == [] || checkpoints[0].unpacked != 0 {
        return Err(IndexError);
      }
      for k := 1 to |checkpoints|
        invariant Sorted(checkpoints[..k])
      {
        if checkpoints[k - 1].unpacked > checkpoints[k].unpacked {
          return Err(IndexError);
        }
        assert checkpoints[..k][k - 1].unpacked <= checkpoints[k].unpacked;
      }
      assert checkpoints[..|checkpoints|] == checkpoints;
      return Ok(());
    }

    /** The estimate, as a running sum. */
    method CheckpointDataBytes() returns (sum: nat)
      ensures sum == DataBytes(checkpoints)
    {
      sum := 0;
      for i := 0 to |checkpoints|
        invariant sum == DataBytes(checkpoints[..i])
      {
        assert checkpoints[..i + 1] == checkpoints[..i] + [checkpoints[i]];
        DataBytesAppend(checkpoints[..i], checkpoints[i]);
        sum := sum + EstimatedSize(checkpoints[i]);
      }
      assert checkpoints[..|checkpoints|] == checkpoints;
    }
  }
}
