/** Indexing a stream and then reading from it: what the engines are for. */
module RandomAccess {
  import opened Bytes
  import opened ChainCodecs
  import opened Decompressors
  import opened StreamIndexers
  import opened StreamIndexing
  import opened StreamReaders
  import opened Wrappers
  import LzmaCodec
  import LzmaDecoding
  import LzmaMachine
  import LzmaWindow
  import StoredCodec

  /** A stream indexed in passes that stop anywhere gives every entry as it is
      in the unpacked data, whichever checkpoints the reads start from. */
  method IndexAndExtract(stream: Stream, stops: seq<nat>, entries: seq<Entry>, takes: nat -> nat, room: nat)
    returns (files: seq<seq<byte>>, error: Option<Error>)
    requires Lawful(stream) && room > 0 && forall k :: takes(k) > 0
    ensures error.None? ==> |files| == |entries|
    ensures error.None? ==>
              forall k :: 0 <= k < |entries| ==> files[k] == Slice(stream.data, entries[k].offset, entries[k].size)
    ensures Unfailing(stream) && InOrder(entries) ==> error.None?
  {
    hide Lawful, Lively, SavesOrSkips, Reloads, Slice, ClampLen, ReadableAt;
    var index, unpacked;
    index, unpacked, error := IndexInPieces(stream, stops, takes, room);
    if error.Some? {
      return [], error;
    }
    if entries != [] {
      ChartsReadable(stream, index.checkpoints, entries[0].offset);
    }
    files, error := ExtractAll(stream, index, entries, takes, room);
    forall k | 0 <= k < |entries| {
      ClampIsExact(stream.data, entries[k].offset, entries[k].size);
    }
  }

  /** For instance, of an archive that is not compressed at all. */
  method ExtractStored(archive: seq<byte>, stops: seq<nat>, entries: seq<Entry>, takes: nat -> nat, room: nat)
    returns (files: seq<seq<byte>>, error: Option<Error>)
    requires room > 0 && forall k :: takes(k) > 0
    ensures InOrder(entries) ==> error.None?
    ensures error.None? ==> |files| == |entries|
    ensures error.None? ==>
              forall k :: 0 <= k < |entries| ==> files[k] == Slice(archive, entries[k].offset, entries[k].size)
  {
    StoredCodec.StoredIsLawful(archive);
    files, error := IndexAndExtract(StoredCodec.StoredStream(archive), stops, entries, takes, room);
  }

  /** And of an LZMA stream: what is extracted is what the unbroken decode
      writes there, at whatever pace its calls go, and nothing fails if the
      stream ends, its dictionary is one that checkpoints of can be restored,
      and the entries are in order. */
  method ExtractLzma(p: LzmaMachine.Params, dictSize: u32, packed: seq<byte>, pacer: LzmaCodec.Pacer,
                     stops: seq<nat>, entries: seq<Entry>, takes: nat -> nat, room: nat)
    returns (files: seq<seq<byte>>, error: Option<Error>)
    requires p.Fits() && room > 0 && forall k :: takes(k) > 0
    ensures LzmaMachine.Legal(p, LzmaDecoding.Fresh(p, LzmaDecoding.DictSize(dictSize)))
    ensures error.None? ==> |files| == |entries|
    ensures error.None? ==>
              var data := LzmaDecoding.Unbroken(p, dictSize, packed).out;
              forall k :: 0 <= k < |entries| ==> files[k] == Slice(data, entries[k].offset, entries[k].size)
    ensures var whole, size := LzmaDecoding.Unbroken(p, dictSize, packed), LzmaDecoding.DictSize(dictSize);
            whole.ended.Some? && size <= LzmaWindow.MAX_WINDOW && InOrder(entries) ==> error.None?
  {
    var size := LzmaDecoding.DictSize(dictSize);
    LzmaCodec.FreshLegal(p, size);
    LzmaCodec.LzmaIsLawful(p, size, packed, pacer);
    LzmaCodec.LivelyIfEnds(p, size, packed, pacer);
    LzmaCodec.ReloadsIfSmall(p, size, packed, pacer);
    hide LzmaMachine.Legal, LzmaMachine.Whole, Lawful, Lively, SavesOrSkips, Reloads, SavesAnywhere, SavesExactly,
         Slice;
    files, error := IndexAndExtract(LzmaCodec.LzmaStream(p, size, packed, pacer), stops, entries, takes, room);
  }

  /** And of what comes out of a chain of decoders: what is extracted is what
      the last of them unpacks to, and nothing fails if no stage does. */
  method ExtractFromChain(streams: seq<Stream>, stops: seq<nat>, entries: seq<Entry>, takes: nat -> nat, room: nat)
    returns (files: seq<seq<byte>>, error: Option<Error>)
    requires Linked(streams) && room > 0 && forall k :: takes(k) > 0
    ensures error.None? ==> |files| == |entries|
    ensures error.None? ==>
              var data := streams[|streams| - 1].data;
              forall k :: 0 <= k < |entries| ==> files[k] == Slice(data, entries[k].offset, entries[k].size)
    ensures AllLively(streams) && AllReload(streams) && AllSkip(streams) && InOrder(entries) ==> error.None?
  {
    ChainIsLawful(streams);
    ChainIsUnfailing(streams);
    hide Linked, Lawful, Lively, SavesOrSkips, Reloads, AllLively, AllReload, AllSkip, Slice;
    files, error := IndexAndExtract(ChainStream(streams), stops, entries, takes, room);
  }
}
