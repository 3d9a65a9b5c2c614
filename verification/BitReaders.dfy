/**
  Bit readers for zstd's backward bitstreams.

  Both readers are measured against the stream as a list of single bits, last
  bit first, going on with zeros: the plain one, which extracts every number
  anew, and the one that works from a cached word between refills.
 */
module BitReaders {
  import opened Bytes
  import opened Arithmetic
  import opened Powers
  import opened Wrappers

  datatype Error = EmptyBitstream | NoInitBit | NotEnoughBits

  /** A 64-bit left shift. */
  function Shl(x: nat, k: nat): nat {
    Low(Up(x, k), 64)
  }

  // ─── The data as a number, and as bits ───────────────────────────

  /** The number the data writes, least significant byte first. */
  function Number(data: seq<byte>): nat {
    if data == [] then 0 else data[0] + 0x100 * Number(data[1..])
  }

  /** Bit `i` of the data; past its end, zero. */
  function DataBit(data: seq<byte>, i: nat): nat {
    if i / 8 < |data| then Low(Shr(data[i / 8], i % 8), 1) else 0
  }

  /** Bit `k` of the stream of `total` bits: read from the last bit down. */
  function StreamBit(data: seq<byte>, total: nat, k: nat): nat {
    if k < total then DataBit(data, total - 1 - k) else 0
  }

  /** The next `n` bits of the stream from bit `k` on, most significant first. */
  function Fold(data: seq<byte>, total: nat, k: nat, n: nat): (v: nat)
    ensures v < Pow2(n)
  {
    if n > 0 then
      var v := Fold(data, total, k, n - 1);
      2 * v + StreamBit(data, total, k + n - 1)
    else 0
  }

  lemma {:induction false} BitOfNumber(data: seq<byte>, i: nat)
    ensures Low(Shr(Number(data), i), 1) == DataBit(data, i)
    decreases i
  {
    hide Low, Shr;
    if data == [] {
      NoBits(i);
      return;
    }
    LowByte(data);
    if i >= 8 {
      ShrShr(Number(data), 8, i - 8);
      BitOfNumber(data[1..], i - 8);
      assert i / 8 == (i - 8) / 8 + 1 && i % 8 == (i - 8) % 8;
    } else {
      LowShr(Number(data), i, 8 - i);
      LowShr(Shr(Number(data), i), 1, 7 - i);
    }
  }

  lemma NoBits(i: nat)
    ensures Low(Shr(Number([]), i), 1) == 0
  {
    LowBound(0, i);
    LowBound(0, 1);
  }

  lemma LowByte(data: seq<byte>)
    requires data != []
    ensures Low(Number(data), 8) == data[0] && Shr(Number(data), 8) == Number(data[1..])
  {
    ByEight(Number(data));
  }

  /** Bits `k` to `k + n` of the stream whose bits are the low `total` bits of
      `x`, from the top down, with zeros after them. */
  function Window(x: nat, total: nat, k: nat, n: nat): nat {
    if k + n <= total then Low(Shr(x, total - k - n), n)
    else if k <= total then Up(Low(x, total - k), k + n - total)
    else 0
  }

  lemma WindowStep(x: nat, total: nat, k: nat, n: nat)
    ensures Window(x, total, k, n + 1)
         == 2 * Window(x, total, k, n) + if k + n < total then Low(Shr(x, total - k - n - 1), 1) else 0
    ensures Window(x, total, k, 0) == 0
  {
    hide Up, Low, Shr;
    ByOne(Window(x, total, k, n));
    if k + n < total {
      var low := total - k - n - 1;
      ShrShr(x, low, 1);
      LowSplit(Shr(x, low), 1, n);
    } else if k <= total {
      ByOne(x);
      UpUp(Low(x, total - k), k + n - total, 1);
      ByOne(Low(x, total - k));
    }
    if k <= total {
      ByOne(Shr(x, total - k));
    }
  }

  /** The stream's bits, folded one by one, are a window of the number the
      data writes. */
  lemma {:induction false} FoldIsWindow(data: seq<byte>, total: nat, k: nat, n: nat)
    ensures Fold(data, total, k, n) == Window(Number(data), total, k, n)
    decreases n
  {
    hide Number, Window, Pow2, Low, Shr;
    WindowStep(Number(data), total, k, if n == 0 then 0 else n - 1);
    if n > 0 {
      FoldIsWindow(data, total, k, n - 1);
      if k + n <= total {
        BitOfNumber(data, total - k - n);
      }
    }
  }

  /** Reading on from where the first bits ended. */
  lemma {:induction false} FoldSplit(data: seq<byte>, total: nat, k: nat, m: nat, n: nat)
    ensures Fold(data, total, k, m + n) == Up(Fold(data, total, k, m), n) + Fold(data, total, k + m, n)
    decreases n
  {
    hide Up, Pow2, StreamBit;
    var a := Fold(data, total, k, m);
    ByOne(a);
    if n > 0 {
      FoldSplit(data, total, k, m, n - 1);
      UpUp(a, n - 1, 1);
      ByOne(Up(a, n - 1));
      assert k + m + n - 1 == k + (m + n) - 1;
    }
  }

  // ─── Loads ───────────────────────────────────────────────────────

  lemma NumberFirst(data: seq<byte>)
    requires data != []
    ensures Number(data) == data[0] + 0x100 * Number(data[1..])
  {
  }

  lemma {:induction false} NumberSplit(data: seq<byte>, n: nat)
    requires n <= |data|
    ensures Number(data) == Number(data[..n]) + Up(Number(data[n..]), 8 * n)
    ensures Number(data[..n]) < Pow2(8 * n)
    decreases n
  {
    if n == 0 {
      assert data[0..] == data;
      ByOne(Number(data));
    } else {
      NumberSplit(data[1..], n - 1);
      assert data[..n][1..] == data[1..][..n - 1] && data[n..] == data[1..][n - 1..];
      NumberFirst(data);
      NumberFirst(data[..n]);
      SplitStep(Number(data[1..][..n - 1]), Number(data[n..]), n, data[0]);
    }
  }

  lemma SplitStep(a: nat, b: nat, n: nat, first: byte)
    requires n > 0
    ensures first + 0x100 * (a + Up(b, 8 * (n - 1))) == first + 0x100 * a + Up(b, 8 * n)
    ensures a < Pow2(8 * (n - 1)) ==> first + 0x100 * a < Pow2(8 * n)
  {
    hide Pow2, Up;
    SmallPowers();
    Pow2Add(8 * (n - 1), 8);
    assert 8 * (n - 1) + 8 == 8 * n;
    UpUp(b, 8 * (n - 1), 8);
    ByEight(Up(b, 8 * (n - 1)));
  }

  /** The 64-bit word at `index`, as if zeros followed the data. */
  function Load(data: seq<byte>, index: nat): nat {
    if index + 8 <= |data| then Number(data[index..index + 8]) else LoadTail(data, index)
  }

  function LoadTail(data: seq<byte>, index: nat): nat {
    var tail := if index < |data| then data[index..] else [];
    Number(tail + seq(if |tail| <= 8 then 8 - |tail| else 0, _ => 0))
  }

  lemma {:induction false} TrailingZeros(data: seq<byte>, zeros: seq<byte>)
    requires forall i :: 0 <= i < |zeros| ==> zeros[i] == 0
    ensures Number(data + zeros) == Number(data)
    decreases |data| + |zeros|
  {
    if data != [] {
      TrailingZeros(data[1..], zeros);
      assert (data + zeros)[1..] == data[1..] + zeros;
    } else if zeros != [] {
      TrailingZeros([], zeros[1..]);
      assert [] + zeros == zeros && [] + zeros[1..] == zeros[1..];
    } else {
      assert data + zeros == data;
    }
  }

  lemma NumberFrom(data: seq<byte>, index: nat)
    ensures Shr(Number(data), 8 * index) == if index <= |data| then Number(data[index..]) else 0
  {
    hide Pow2, Number, Shr, Up;
    if index <= |data| {
      NumberSplit(data, index);
      UpParts(Number(data[index..]), Number(data[..index]), 8 * index);
    } else {
      NumberSmall(data);
      Pow2Mono(8 * |data|, 8 * index);
      LowBound(Number(data), 8 * index);
    }
  }

  lemma NumberSmall(data: seq<byte>)
    ensures Number(data) < Pow2(8 * |data|)
  {
    NumberSplit(data, |data|);
    assert data[..|data|] == data;
  }

  /** A load is a 64-bit stretch of the number. */
  lemma LoadIs(data: seq<byte>, index: nat)
    ensures Load(data, index) == Low(Shr(Number(data), 8 * index), 64)
  {
    hide Pow2, Number, Shr, Low, Up, LoadTail;
    NumberFrom(data, index);
    if index + 8 <= |data| {
      var tail := data[index..];
      NumberSplit(tail, 8);
      assert tail[..8] == data[index..index + 8];
      UpParts(Number(tail[8..]), Number(tail[..8]), 64);
    } else {
      TailLoad(data, index);
    }
  }

  lemma TailLoad(data: seq<byte>, index: nat)
    requires index + 8 > |data|
    ensures LoadTail(data, index) == Low(if index <= |data| then Number(data[index..]) else 0, 64)
  {
    hide Pow2, Number, Low;
    var tail := if index < |data| then data[index..] else [];
    EmptyNumber();
    assert index == |data| ==> data[index..] == [];
    TrailingZeros(tail, seq(8 - |tail|, _ => 0));
    NumberSmall(tail);
    Pow2Mono(8 * |tail|, 64);
    LowBound(Number(tail), 64);
  }

  lemma EmptyNumber()
    ensures Number([]) == 0
  {
  }

  /** `n` bits from bit `lo` on. */
  function ExtractBits(data: seq<byte>, lo: nat, n: nat): nat {
    if n == 0 then 0 else Low(Shr(Load(data, lo / 8), lo % 8), n)
  }

  /** Up to 56 bits fit in one load wherever they start. */
  lemma ExtractIs(data: seq<byte>, lo: nat, n: nat)
    requires n <= 56
    ensures ExtractBits(data, lo, n) == Low(Shr(Number(data), lo), n)
  {
    hide Pow2, Number, Load, Shr, Low;
    var q, r := lo / 8, lo % 8;
    var x := Shr(Number(data), 8 * q);
    LoadIs(data, q);
    LowShr(x, r, 64 - r);
    LowShr(Shr(x, r), n, 64 - r - n);
    ShrShr(Number(data), 8 * q, r);
    ByOne(Shr(Number(data), lo));
  }

  // ─── The plain reader ────────────────────────────────────────────

  function HighestBit(x: nat): (h: nat)
    requires x > 0
    ensures Pow2(h) <= x < Pow2(h + 1)
  {
    if x == 1 then 0 else 1 + HighestBit(x / 2)
  }

  /** The number of stream bits below the marker, the highest set bit of the
      last byte. */
  function TotalBits(data: seq<byte>): nat
    requires data != [] && data[|data| - 1] != 0
  {
    (|data| - 1) * 8 + HighestBit(data[|data| - 1])
  }

  /** The marker is the top bit of the number the data writes. */
  lemma MarkerOnTop(data: seq<byte>)
    requires data != [] && data[|data| - 1] != 0
    ensures Shr(Number(data), TotalBits(data)) == 1
  {
    var n, last := |data| - 1, data[|data| - 1];
    var h := HighestBit(last);
    NumberFrom(data, n);
    assert data[n..] == [last] && [last][1..] == [];
    assert Number(data[n..]) == last by {
      EmptyNumber();
    }
    ShrShr(Number(data), 8 * n, h);
    hide HighestBit;
    DivModUnique(last, Pow2(h), 1, last - Pow2(h));
  }

  class BackwardBitReader {
    const data: seq<byte>
    const totalBits: nat
    /** Bits consumed from the top. */
    var bitPos: nat

    constructor (data: seq<byte>, totalBits: nat)
      ensures this.data == data && this.totalBits == totalBits && bitPos == 0
    {
      this.data, this.totalBits, bitPos := data, totalBits, 0;
    }

    function BitsRemaining(): nat
      reads this
    {
      if totalBits > bitPos then totalBits - bitPos else 0
    }

    predicate IsOverflowed()
      reads this
    {
      bitPos > totalBits
    }

    /** The next bits, without consuming them; missing ones read as zero. */
    function PeekBitsPadded(n: nat): (v: nat)
      reads this
      requires n <= 56
      ensures v == Fold(data, totalBits, bitPos, n)
    {
      var remaining := BitsRemaining();
      PeekIsFold(data, totalBits, bitPos, n);
      if n == 0 then 0
      else if remaining >= n then
        var lo := remaining - n;
        Low(Shr(Load(data, lo / 8), lo % 8), n)
      else
        Up(Low(Load(data, 0), remaining), n - remaining)
    }

    method ReadBits(n: nat) returns (r: Result<nat, Error>)
      requires n <= 56
      modifies this
      ensures r.Ok? <==> n <= old(BitsRemaining())
      ensures r.Ok? ==> r.value == Fold(data, totalBits, old(bitPos), n) && bitPos == old(bitPos) + n
      ensures r.Err? ==> bitPos == old(bitPos)
    {
      if n > BitsRemaining() {
        return Err(NotEnoughBits);
      }
      var v := PeekBitsPadded(n);
      bitPos := bitPos + n;
      return Ok(v);
    }

    method ReadBitsPadded(n: nat) returns (v: nat)
      requires n <= 56
      modifies this
      ensures v == Fold(data, totalBits, old(bitPos), n) && bitPos == old(bitPos) + n
    {
      v := PeekBitsPadded(n);
      bitPos := bitPos + n;
    }
  }

  lemma PeekIsFold(data: seq<byte>, total: nat, k: nat, n: nat)
    requires n <= 56
    ensures var remaining := if total > k then total - k else 0;
            Fold(data, total, k, n) ==
              if n == 0 then 0
              else if remaining >= n then Low(Shr(Load(data, (remaining - n) / 8), (remaining - n) % 8), n)
              else Up(Low(Load(data, 0), remaining), n - remaining)
  {
    hide Fold, Number, Load, Low, Shr, Up, Pow2;
    var remaining := if total > k then total - k else 0;
    FoldIsWindow(data, total, k, n);
    ExtractIs(data, if remaining >= n then remaining - n else 0, if remaining >= n then n else remaining);
    ByOne(Number(data));
    ByOne(Load(data, 0));
    UpZero(n - remaining);
    if n == 0 {
      WindowStep(Number(data), total, k, 0);
    }
  }

  lemma UpZero(k: int)
    ensures k >= 0 ==> Up(0, k) == 0
  {
  }

  /** Finds the marker. */
  method NewBackward(data: seq<byte>) returns (r: Result<BackwardBitReader, Error>)
    ensures data == [] ==> r == Err(EmptyBitstream)
    ensures data != [] && data[|data| - 1] == 0 ==> r == Err(NoInitBit)
    ensures data != [] && data[|data| - 1] != 0 ==>
              && r.Ok? && fresh(r.value) && r.value.data == data && r.value.bitPos == 0
              && r.value.totalBits == TotalBits(data) && Shr(Number(data), r.value.totalBits) == 1
  {
    hide Number, Shr, HighestBit;
    if data == [] {
      return Err(EmptyBitstream);
    }
    var last := data[|data| - 1];
    if last == 0 {
      return Err(NoInitBit);
    }
    MarkerOnTop(data);
    var reader := new BackwardBitReader(data, (|data| - 1) * 8 + HighestBit(last));
    return Ok(reader);
  }

  // ─── The cached reader ───────────────────────────────────────────

  /** Bits readable after a refill. */
  const REFILL_BITS := 56

  class SeqBitReader {
    const data: seq<byte>
    ghost const total: nat
    /** How much of the stream is ahead of the reader; negative once reads
        have gone past the start. */
    var rem: int
    /** What comes next of the stream, at the high end of a 64-bit word. */
    var cache: nat
    /** How many of them are real. */
    var cbits: nat

    /** Bits consumed. */
    ghost function Position(): nat
      reads this`rem
      requires rem <= total
    {
      total - rem
    }

    ghost predicate Valid()
      reads this
    {
      rem <= total && cbits <= REFILL_BITS && cache == Up(Fold(data, total, Position(), cbits), 64 - cbits)
    }

    constructor (data: seq<byte>, total: nat)
      ensures Valid() && this.data == data && this.total == total && rem == total && cbits == REFILL_BITS
    {
      this.data, this.total, rem, cache, cbits := data, total, total, 0, 0;
      new;
      Refill();
    }

    /** Tops up the cache with one load. */
    method Refill()
      requires rem <= total
      modifies this`cache, this`cbits
      ensures Valid() && cbits == REFILL_BITS
    {
      hide Fold, Number, Load, Low, Shr, Up, Pow2;
      if rem >= 56 {
        var lo := rem - 56;
        var v := Load(data, lo / 8);
        cache := Shl(Shr(v, lo % 8), 8);
        CacheLoaded(data, total, Position(), lo);
      } else {
        cache := TailCache(data, rem);
        TailIsFold(data, total, rem);
      }
      cbits := REFILL_BITS;
    }

    /** Up to the allowance, most significant bit first. */
    method Read(n: nat) returns (v: nat)
      requires Valid() && n <= cbits
      modifies this
      ensures Valid() && v == Fold(data, total, old(Position()), n)
      ensures rem == old(rem) - n && cbits == old(cbits) - n
    {
      hide Fold, Low, Shr, Up, Pow2;
      CacheReads(data, total, Position(), cbits, n);
      v := Shr(Shr(cache, 1), 63 - n);
      cache := Shl(cache, n);
      cbits := cbits - n;
      rem := rem - n;
    }

    lemma PeekReads(skip: nat, n: nat)
      requires Valid() && skip + n <= cbits
      ensures Shr(Shr(Shl(cache, skip), 1), 63 - n) == Fold(data, total, Position() + skip, n)
    {
      hide Fold, Low, Shr, Up, Pow2;
      CacheReads(data, total, Position(), cbits, skip);
      CacheReads(data, total, Position() + skip, cbits - skip, n);
    }

    /** `n` bits that lie `skip` bits into the cache. */
    function PeekAt(skip: nat, n: nat): (v: nat)
      reads this
      requires Valid() && skip + n <= cbits
      ensures v == Fold(data, total, Position() + skip, n)
    {
      PeekReads(skip, n);
      Shr(Shr(Shl(cache, skip), 1), 63 - n)
    }

    /** Drops bits that were peeked at. */
    method Consume(n: nat)
      requires Valid() && n <= cbits
      modifies this
      ensures Valid() && rem == old(rem) - n && cbits == old(cbits) - n
    {
      hide Fold, Low, Shr, Up, Pow2;
      CacheReads(data, total, Position(), cbits, n);
      cache := Shl(cache, n);
      cbits := cbits - n;
      rem := rem - n;
    }

    predicate IsOverflowed()
      reads this
    {
      rem < 0
    }
  }

  /** The cache when fewer than 56 bits remain. */
  function TailCache(data: seq<byte>, rem: int): nat {
    if rem <= 0 || rem > 64 then 0 else Shl(ExtractBits(data, 0, rem), 64 - rem)
  }

  lemma TailIsFold(data: seq<byte>, total: nat, rem: int)
    requires rem <= total && rem < 56
    ensures TailCache(data, rem) == Up(Fold(data, total, total - rem, 56), 8)
  {
    hide Fold, Number, Load, Low, Shr, Up, Pow2, ExtractBits;
    var x := Number(data);
    FoldIsWindow(data, total, total - rem, 56);
    ByOne(x);
    UpZero(56);
    UpZero(8);
    if rem > 0 {
      ExtractIs(data, 0, rem);
      LowBound(x, rem);
      LowBound(Low(x, rem), rem);
      LowUp(Low(x, rem), 64 - rem, rem);
      UpUp(Low(x, rem), 56 - rem, 8);
    }
  }

  lemma CacheLoaded(data: seq<byte>, total: nat, k: nat, lo: nat)
    requires total == k + 56 + lo
    ensures Shl(Shr(Load(data, lo / 8), lo % 8), 8) == Up(Fold(data, total, k, 56), 8)
  {
    hide Fold, Number, Load, Low, Shr, Up, Pow2;
    FoldIsWindow(data, total, k, 56);
    ExtractIs(data, lo, 56);
    LowUp(Shr(Load(data, lo / 8), lo % 8), 8, 56);
  }

  /** A number put above another and both moved up. */
  lemma UpJoined(first: nat, rest: nat, a: nat, b: nat)
    requires rest < Pow2(a)
    ensures Up(Up(first, a) + rest, b) == Up(first, a + b) + Up(rest, b) && Up(rest, b) < Pow2(a + b)
  {
    hide Up, Pow2;
    UpAdd(Up(first, a), rest, b);
    UpUp(first, a, b);
    UpBound(rest, a, b);
  }

  /** A cache of `m` bits is its first `n` bits above the rest. */
  lemma CacheSplits(data: seq<byte>, total: nat, k: nat, m: nat, n: nat)
    requires n <= m <= REFILL_BITS
    ensures var first, rest := Fold(data, total, k, n), Fold(data, total, k + n, m - n);
            Up(Fold(data, total, k, m), 64 - m) == Up(first, 64 - n) + Up(rest, 64 - m)
                && Up(rest, 64 - m) < Pow2(64 - n)
  {
    hide Fold, Up, Pow2;
    var a, b := m - n, 64 - m;
    assert n + a == m && a + b == 64 - n;
    FoldSplit(data, total, k, n, a);
    UpJoined(Fold(data, total, k, n), Fold(data, total, k + n, a), a, b);
  }

  /** A cache of `m` bits gives the first `n` of them and keeps the rest. */
  lemma CacheReads(data: seq<byte>, total: nat, k: nat, m: nat, n: nat)
    requires n <= m <= REFILL_BITS
    ensures var cache := Up(Fold(data, total, k, m), 64 - m);
            && Shr(Shr(cache, 1), 63 - n) == Fold(data, total, k, n)
            && Shl(cache, n) == Up(Fold(data, total, k + n, m - n), 64 - (m - n))
  {
    hide Fold, Low, Shr, Up, Pow2;
    var first, rest := Fold(data, total, k, n), Fold(data, total, k + n, m - n);
    CacheSplits(data, total, k, m, n);
    var cache := Up(Fold(data, total, k, m), 64 - m);
    UpParts(first, Up(rest, 64 - m), 64 - n);
    ShrShr(cache, 1, 63 - n);
    LowUp(cache, n, 64 - n);
    UpUp(rest, 64 - m, n);
  }

  lemma UpBound(x: nat, a: nat, b: nat)
    requires x < Pow2(a)
    ensures Up(x, b) < Pow2(a + b)
  {
    Pow2Add(a, b);
    MulMono(x + 1, Pow2(a), Pow2(b));
    assert (x + 1) * Pow2(b) == Up(x, b) + Pow2(b);
  }

  /** Finds the marker, then fills the cache. */
  method NewSeq(data: seq<byte>) returns (r: Result<SeqBitReader, Error>)
    ensures data == [] ==> r == Err(EmptyBitstream)
    ensures data != [] && data[|data| - 1] == 0 ==> r == Err(NoInitBit)
    ensures data != [] && data[|data| - 1] != 0 ==>
              && r.Ok? && fresh(r.value) && r.value.Valid() && r.value.data == data && r.value.total == TotalBits(data)
              && r.value.Position() == 0 && r.value.cbits == REFILL_BITS
  {
    var plain := NewBackward(data);
    if plain.Err? {
      return Err(plain.error);
    }
    var reader := new SeqBitReader(data, plain.value.BitsRemaining());
    return Ok(reader);
  }

  /** The two readers side by side, over any widths: the cached one, refilled
      whenever its allowance would run out, reads what the plain one reads, and
      they agree on whether the stream was overrun. */
  method ReadBoth(data: seq<byte>, widths: seq<nat>)
    returns (r: Result<(seq<nat>, bool), Error>, s: Result<(seq<nat>, bool), Error>)
    requires forall i :: 0 <= i < |widths| ==> widths[i] <= 56
    ensures r == s
    ensures r.Ok? <==> data != [] && data[|data| - 1] != 0
    ensures r.Ok? ==>
              && |r.value.0| == |widths|
              && (forall i :: 0 <= i < |widths| ==>
                    r.value.0[i] == Fold(data, TotalBits(data), Sum(widths[..i]), widths[i]))
              && (r.value.1 <==> Sum(widths) > TotalBits(data))
  {
    hide Fold, TotalBits, Sum, SeqBitReader.Valid;
    SumNothing(widths);
    var plain := NewBackward(data);
    var cached := NewSeq(data);
    if plain.Err? {
      return Err(plain.error), Err(cached.error);
    }
    var a, b: seq<nat>, c: seq<nat> := plain.value, [], [];
    var q := cached.value;
    for i := 0 to |widths|
      invariant q.Valid() && q.data == data == a.data && q.total == a.totalBits == TotalBits(data)
      invariant a.bitPos == q.total - q.rem == Sum(widths[..i])
      invariant b == c && |b| == i
      invariant forall j :: 0 <= j < i ==> b[j] == Fold(data, q.total, Sum(widths[..j]), widths[j])
    {
      var v, w := ReadNext(a, q, widths[i]);
      SumNext(widths, i);
      b, c := b + [v], c + [w];
    }
    assert widths[..|widths|] == widths;
    return Ok((b, a.IsOverflowed())), Ok((c, q.IsOverflowed()));
  }

  lemma SumNothing(widths: seq<nat>)
    ensures Sum(widths[..0]) == 0
  {
  }

  /** One width from both readers. */
  method ReadNext(plain: BackwardBitReader, cached: SeqBitReader, width: nat) returns (v: nat, w: nat)
    requires width <= 56 && cached.Valid()
    requires cached.data == plain.data && cached.total == plain.totalBits && plain.bitPos == cached.total - cached.rem
    modifies plain, cached
    ensures cached.Valid() && v == w == Fold(plain.data, plain.totalBits, old(plain.bitPos), width)
    ensures plain.bitPos == cached.total - cached.rem == old(plain.bitPos) + width
  {
    hide Fold;
    if cached.cbits < width {
      cached.Refill();
    }
    v := plain.ReadBitsPadded(width);
    w := cached.Read(width);
  }

  function Sum(widths: seq<nat>): nat {
    if widths == [] then 0 else Sum(widths[..|widths| - 1]) + widths[|widths| - 1]
  }

  lemma SumNext(widths: seq<nat>, i: nat)
    requires i < |widths|
    ensures Sum(widths[..i + 1]) == Sum(widths[..i]) + widths[i]
  {
    assert widths[..i + 1][..i] == widths[..i];
  }
}
