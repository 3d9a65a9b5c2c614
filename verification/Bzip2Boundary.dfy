/**
  Finding bzip2 block boundaries, and realigning the data behind one.

  Blocks start at any bit. A scanner slides a 48-bit window over the stream
  looking for the block magic; to resume at a boundary, the bytes from it on
  are shifted so that the block starts on a byte. However the stream is cut,
  the scanner must count the magics that are there, and the shifted bytes must
  begin with the magic.
 */
module Bzip2Boundary {
  import opened Arithmetic
  import opened Bytes
  import opened Powers
  import opened Sequences
  import opened Wrappers

  const BLOCK_MAGIC := 0x3141_5926_5359
  const EOS_MAGIC := 0x1772_4538_5090
  const MAGIC_BITS := 48

  type bit = b: nat | b < 2

  // ─── Bits, most significant first ────────────────────────────────

  function BitsValue(bits: seq<bit>): (v: nat)
    ensures v < Pow2(|bits|)
  {
    if bits == [] then 0 else 2 * BitsValue(bits[..|bits| - 1]) + bits[|bits| - 1]
  }

  /** The low `n` bits of a number. */
  function ToBits(x: nat, n: nat): (bits: seq<bit>)
    ensures |bits| == n
  {
    if n > 0 then ToBits(x / 2, n - 1) + [x % 2] else []
  }

  function Bits(data: seq<byte>): (bits: seq<bit>)
    ensures |bits| == 8 * |data|
  {
    if data == [] then [] else Bits(data[..|data| - 1]) + ToBits(data[|data| - 1], 8)
  }

  lemma {:induction false} BitsAppend(a: seq<byte>, b: seq<byte>)
    ensures Bits(a + b) == Bits(a) + Bits(b)
    decreases |b|
  {
    if b == [] {
      assert a + b == a;
    } else {
      var n := |b| - 1;
      BitsAppend(a, b[..n]);
      assert (a + b)[..|a + b| - 1] == a + b[..n];
      assert Bits(a) + (Bits(b[..n]) + ToBits(b[n], 8)) == Bits(a) + Bits(b[..n]) + ToBits(b[n], 8);
    }
  }

  lemma {:induction false} ValueAppends(a: seq<bit>, b: seq<bit>)
    ensures BitsValue(a + b) == Up(BitsValue(a), |b|) + BitsValue(b)
    decreases |b|
  {
    hide Up, Pow2;
    ByOne(BitsValue(a));
    if b == [] {
      assert a + b == a;
    } else {
      var n := |b| - 1;
      ValueAppends(a, b[..n]);
      assert (a + b)[..|a + b| - 1] == a + b[..n];
      UpUp(BitsValue(a), n, 1);
      ByOne(Up(BitsValue(a), n));
    }
  }

  /** The first bits are the high part of the value, the rest the low part. */
  lemma ValueSplits(s: seq<bit>, n: nat)
    requires n <= |s|
    ensures BitsValue(s[..n]) == Shr(BitsValue(s), |s| - n) && BitsValue(s[n..]) == Low(BitsValue(s), |s| - n)
  {
    hide BitsValue, Up, Shr, Low, Pow2;
    ValueAppends(s[..n], s[n..]);
    assert s == s[..n] + s[n..];
    UpParts(BitsValue(s[..n]), BitsValue(s[n..]), |s| - n);
  }

  lemma {:induction false} ValueOfBits(x: nat, n: nat)
    ensures BitsValue(ToBits(x, n)) == Low(x, n)
    decreases n
  {
    hide Up, Shr, Low, Pow2;
    ByOne(x);
    if n > 0 {
      ValueOfBits(x / 2, n - 1);
      assert ToBits(x, n)[..n - 1] == ToBits(x / 2, n - 1);
      LowSplit(x, 1, n - 1);
      ByOne(Low(Shr(x, 1), n - 1));
    }
  }

  lemma {:induction false} BitsOfValue(s: seq<bit>)
    ensures ToBits(BitsValue(s), |s|) == s
    decreases |s|
  {
    if s != [] {
      BitsOfValue(s[..|s| - 1]);
    }
  }

  lemma ByteValue(b: byte)
    ensures BitsValue(ToBits(b, 8)) == b
  {
    ValueOfBits(b, 8);
    ByEight(b);
  }

  // ─── The shifter ─────────────────────────────────────────────────

  /** The shifted byte over two input bytes; the or of the two parts is their
      sum, for they share no bit. */
  function Shifted(carry: byte, b: byte, offset: nat): nat
    requires 0 < offset < 8
  {
    Low(Up(carry, offset), 8) + Shr(b, 8 - offset)
  }

  lemma ShiftedBits(carry: byte, b: byte, offset: nat)
    requires 0 < offset < 8
    ensures Shifted(carry, b, offset) < 0x100
    ensures ToBits(Shifted(carry, b, offset), 8) == ToBits(carry, 8)[offset..] + ToBits(b, 8)[..offset]
  {
    hide BitsValue, ToBits, Up, Shr, Low, Pow2;
    var high, low := ToBits(carry, 8)[offset..], ToBits(b, 8)[..offset];
    ByteValue(carry);
    ByteValue(b);
    ValueSplits(ToBits(carry, 8), offset);
    ValueSplits(ToBits(b, 8), offset);
    LowUp(carry, offset, 8 - offset);
    Assembled(high, low, Shifted(carry, b, offset));
    EightBits(high + low);
    ValueAppends(high, low);
  }

  lemma EightBits(s: seq<bit>)
    requires |s| == 8
    ensures BitsValue(s) < 0x100
  {
    hide BitsValue;
    SmallPowers();
  }

  lemma FlushedBits(carry: byte, offset: nat)
    requires offset < 8
    ensures Low(Up(carry, offset), 8) < 0x100
    ensures ToBits(Low(Up(carry, offset), 8), 8) == ToBits(carry, 8)[offset..] + ToBits(0, offset)
  {
    hide BitsValue, ToBits, Up, Shr, Low, Pow2;
    var bits := ToBits(carry, 8);
    var high, low := bits[offset..], ToBits(0, offset);
    ByEight(Up(carry, offset));
    ByteValue(carry);
    ValueSplits(bits, offset);
    ValueOfBits(0, offset);
    LowZero(offset);
    LowUp(carry, offset, 8 - offset);
    Assembled(high, low, Low(Up(carry, offset), 8));
  }

  /** Eight bits are those of the number they write. */
  lemma Assembled(high: seq<bit>, low: seq<bit>, x: nat)
    requires |high| + |low| == 8 && x == Up(BitsValue(high), |low|) + BitsValue(low)
    ensures ToBits(x, 8) == high + low
  {
    hide BitsValue, ToBits, Up, Pow2;
    ValueAppends(high, low);
    BitsOfValue(high + low);
  }

  lemma LowZero(k: nat)
    ensures Low(0, k) == 0
  {
    LowBound(0, k);
  }

  class BitShifter {
    const bitOffset: nat
    var carry: byte
    var hasCarry: bool
    /** All that went in and all that came out. */
    ghost var taken: seq<byte>
    ghost var given: seq<byte>

    /** What came out, and what of the carried byte has not, are the bits that
        went in but the first `bitOffset`. */
    ghost predicate Valid()
      reads this
    {
      && bitOffset < 8
      && (hasCarry <==> bitOffset > 0 && taken != [])
      && (taken == [] ==> given == [])
      && (taken != [] ==>
            Bits(taken)[bitOffset..] == Bits(given) + if hasCarry then ToBits(carry, 8)[bitOffset..] else [])
    }

    constructor (bitOffset: nat)
      requires bitOffset < 8
      ensures Valid() && this.bitOffset == bitOffset && taken == [] && given == [] && !hasCarry
    {
      this.bitOffset, carry, hasCarry, taken, given := bitOffset, 0, false, [], [];
    }

    /** Shifts input bytes; the first call keeps one back. */
    method Shift(input: seq<byte>) returns (out: seq<byte>)
      requires Valid()
      modifies this
      ensures Valid() && taken == old(taken) + input && given == old(given) + out
      ensures |out| == if bitOffset == 0 || old(hasCarry) || input == [] then |input| else |input| - 1
    {
      hide Valid, Bits, ToBits;
      if bitOffset == 0 {
        PassThrough(input);
        return input;
      }
      out := [];
      for i := 0 to |input|
        invariant Valid() && taken == old(taken) + input[..i] && given == old(given) + out
        invariant hasCarry == (old(hasCarry) || i > 0)
        invariant |out| == if old(hasCarry) || i == 0 then i else i - 1
      {
        var shifted := ShiftByte(input[i]);
        out := out + shifted;
        assert input[..i + 1] == input[..i] + [input[i]];
      }
      assert input[..|input|] == input;
    }

    /** At offset 0 there is nothing to shift. */
    method PassThrough(input: seq<byte>)
      requires Valid() && bitOffset == 0
      modifies this`taken, this`given
      ensures Valid() && taken == old(taken) + input && given == old(given) + input
    {
      hide Bits, ToBits;
      BitsAppend(taken, input);
      BitsAppend(given, input);
      assert taken == [] ==> Bits(taken) == Bits([]) == Bits(given);
      assert taken != [] ==> Bits(taken) == Bits(given);
      taken, given := taken + input, given + input;
    }

    /** One more byte in; one shifted byte out, unless it is the first. */
    method ShiftByte(b: byte) returns (out: seq<byte>)
      requires Valid() && bitOffset > 0
      modifies this`carry, this`hasCarry, this`taken, this`given
      ensures Valid() && hasCarry && taken == old(taken) + [b] && given == old(given) + out
      ensures |out| == if old(hasCarry) then 1 else 0
    {
      hide Bits, ToBits, Shifted;
      out := [];
      if hasCarry {
        CarriedBits(taken, given, carry, b, bitOffset);
        out := [Shifted(carry, b, bitOffset)];
      } else {
        FirstBits(b, bitOffset);
      }
      carry := b;
      hasCarry := true;
      taken, given := taken + [b], given + out;
    }

    /** What is left to give out, filled up to a byte. */
    method Flush() returns (out: seq<byte>)
      requires Valid()
      modifies this`hasCarry, this`given
      ensures given == old(given) + out && !hasCarry
      ensures Bits(given) == if old(taken) == [] then [] else Bits(taken)[bitOffset..] + ToBits(0, bitOffset)
    {
      out := [];
      if hasCarry {
        FlushedBits(carry, bitOffset);
        out := [Low(Up(carry, bitOffset), 8)];
        BitsLast(given, out[0]);
        Associates(Bits(given), ToBits(carry, 8)[bitOffset..], ToBits(0, bitOffset));
        hasCarry := false;
      } else {
        assert Bits(given) + [] == Bits(given) && Bits(given) + ToBits(0, 0) == Bits(given);
        assert given + [] == given;
      }
      given := given + out;
    }
  }

  lemma FirstBits(b: byte, offset: nat)
    requires offset <= 8
    ensures Bits([] + [b])[offset..] == Bits([]) + ToBits(b, 8)[offset..]
  {
    BitsLast([], b);
  }

  lemma CarriedBits(taken: seq<byte>, given: seq<byte>, carry: byte, b: byte, offset: nat)
    requires 0 < offset < 8 && taken != []
    requires Bits(taken)[offset..] == Bits(given) + ToBits(carry, 8)[offset..]
    ensures Shifted(carry, b, offset) < 0x100
    ensures Bits(taken + [b])[offset..] == Bits(given + [Shifted(carry, b, offset)]) + ToBits(b, 8)[offset..]
  {
    hide ToBits, Shifted, Bits;
    ShiftedBits(carry, b, offset);
    BitsLast(given, Shifted(carry, b, offset));
    BitsLast(taken, b);
    Rejoins(Bits(taken), Bits(given), ToBits(carry, 8), ToBits(b, 8), offset);
  }

  lemma BitsLast(data: seq<byte>, b: byte)
    ensures Bits(data + [b]) == Bits(data) + ToBits(b, 8)
  {
    assert (data + [b])[..|data|] == data;
  }

  lemma Rejoins(taken: seq<bit>, given: seq<bit>, carry: seq<bit>, next: seq<bit>, offset: nat)
    requires |carry| == |next| == 8 && offset <= 8 && offset <= |taken|
    requires taken[offset..] == given + carry[offset..]
    ensures (taken + next)[offset..] == (given + (carry[offset..] + next[..offset])) + next[offset..]
  {
    assert (taken + next)[offset..] == taken[offset..] + next;
    assert next == next[..offset] + next[offset..];
  }

  // ─── The scanner ─────────────────────────────────────────────────

  /** The 48 bits that end at `e`. */
  function Last48(bits: seq<bit>, e: nat): nat
    requires MAGIC_BITS <= e <= |bits|
  {
    BitsValue(bits[e - MAGIC_BITS..e])
  }

  predicate MagicEnds(bits: seq<bit>, e: nat, magic: nat) {
    MAGIC_BITS <= e <= |bits| && Last48(bits, e) == magic
  }

  /** Magics that end within the first `e` bits. */
  function Count(bits: seq<bit>, e: nat): nat
    requires e <= |bits|
  {
    if e > 0 then Count(bits, e - 1) + (if MagicEnds(bits, e, BLOCK_MAGIC) then 1 else 0) else 0
  }

  /** The last block after the first one whose magic ends past bit `from` and
      by bit `to`. */
  function Latest(bits: seq<bit>, from: nat, to: nat): (r: Option<nat>)
    requires to <= |bits|
    ensures r.Some? ==> from < r.value <= to && MagicEnds(bits, r.value, BLOCK_MAGIC)
  {
    if to <= from then None
    else if MagicEnds(bits, to, BLOCK_MAGIC) && Count(bits, to) > 1 then Some(to)
    else Latest(bits, from, to - 1)
  }

  predicate Seen(bits: seq<bit>, e: nat, magic: nat)
    requires e <= |bits|
  {
    e > 0 && (MagicEnds(bits, e, magic) || Seen(bits, e - 1, magic))
  }

  /** What was found in some bits stays found when more follow. */
  lemma {:induction false} Extends(bits: seq<bit>, more: seq<bit>, from: nat, end: nat, magic: nat)
    requires end <= |bits|
    ensures Count(bits + more, end) == Count(bits, end) && Latest(bits + more, from, end) == Latest(bits, from, end)
    ensures Seen(bits + more, end, magic) == Seen(bits, end, magic)
    decreases end
  {
    hide MagicEnds;
    if end > 0 {
      Extends(bits, more, from, end - 1, magic);
      MagicStays(bits, more, end, BLOCK_MAGIC);
      MagicStays(bits, more, end, magic);
    }
  }

  lemma MagicStays(bits: seq<bit>, more: seq<bit>, e: nat, magic: nat)
    requires e <= |bits|
    ensures MagicEnds(bits + more, e, magic) == MagicEnds(bits, e, magic)
  {
    hide BitsValue;
    if e >= MAGIC_BITS {
      assert (bits + more)[e - MAGIC_BITS..e] == bits[e - MAGIC_BITS..e];
    }
  }

  /** What one more bit adds. */
  lemma OneMore(bits: seq<bit>, b: bit, since: nat)
    requires since <= |bits|
    ensures var s := bits + [b];
            var n := |bits| + 1;
            && Count(s, n) == Count(bits, |bits|) + (if MagicEnds(s, n, BLOCK_MAGIC) then 1 else 0)
            && Seen(s, n, EOS_MAGIC) == (MagicEnds(s, n, EOS_MAGIC) || Seen(bits, |bits|, EOS_MAGIC))
            && Latest(s, since, n) == (if MagicEnds(s, n, BLOCK_MAGIC) && Count(s, n) > 1 then Some(n)
                                       else Latest(bits, since, |bits|))
    ensures Latest(bits, since, |bits|).Some? ==>
              var e := Latest(bits, since, |bits|).value;
              Count(bits + [b], e) == Count(bits, e)
  {
    hide MagicEnds;
    Extends(bits, [b], since, |bits|, EOS_MAGIC);
    var r := Latest(bits, since, |bits|);
    if r.Some? {
      Extends(bits, [b], since, r.value, EOS_MAGIC);
    }
  }

  /** The window slides over one more bit. */
  lemma WindowSlides(v: nat, b: bit)
    ensures Low(2 * Low(v, 48) + b, 48) == Low(2 * v + b, 48)
  {
    hide Low, Shr, Up, Pow2;
    SlideOne(v, b);
    SlideOne(Low(v, 48), b);
    LowShr(v, 47, 1);
  }

  lemma SlideOne(v: nat, b: bit)
    ensures Low(2 * v + b, 48) == 2 * Low(v, 47) + b
  {
    hide Low, Shr, Up, Pow2;
    ByOne(2 * v + b);
    LowSplit(2 * v + b, 1, 47);
    ByOne(Low(v, 47));
  }

  datatype BlockBoundary = BlockBoundary(byteOffset: nat, bitOffset: nat, blockIndex: nat, uncompressedOffset: nat)

  class MagicScanner {
    var window: nat
    var totalBits: nat
    var blockCount: nat
    var lastBoundary: Option<BlockBoundary>
    var eosFound: bool
    /** All bits scanned, and how many when the boundary was last taken. */
    ghost var bits: seq<bit>
    ghost var since: nat

    ghost predicate Valid()
      reads this
    {
      && totalBits == |bits| && since <= |bits|
      && window == Low(BitsValue(bits), 48)
      && blockCount == Count(bits, |bits|)
      && (eosFound <==> Seen(bits, |bits|, EOS_MAGIC))
      && Recorded(lastBoundary, bits, since)
    }

    constructor ()
      ensures Valid() && bits == [] && since == 0
    {
      window, totalBits, blockCount, lastBoundary, eosFound, bits, since := 0, 0, 0, None, false, [], 0;
      new;
      LowZero(48);
    }

    /** One bit further; whether a block after the first one starts 48 bits
        back. */
    method ScanBit(b: bit) returns (found: bool)
      requires Valid()
      modifies this
      ensures Valid() && bits == old(bits) + [b] && since == old(since)
      ensures found <==> MagicEnds(bits, |bits|, BLOCK_MAGIC) && Count(bits, |bits|) > 1
      ensures !found ==> lastBoundary == old(lastBoundary)
    {
      hide Low, BitsValue, Count, Seen, Latest, Pow2, Last48;
      OneMore(bits, b, since);
      WindowMoves(bits, b);
      found := false;
      window := Low(2 * window + b, 48);
      totalBits := totalBits + 1;
      bits := bits + [b];
      if totalBits < MAGIC_BITS {
        return;
      }
      if window == BLOCK_MAGIC {
        blockCount := blockCount + 1;
        if blockCount > 1 {
          var startBit := totalBits - MAGIC_BITS;
          lastBoundary := Some(BlockBoundary(startBit / 8, startBit % 8, blockCount - 1, 0));
          found := true;
        }
      } else if window == EOS_MAGIC {
        eosFound := true;
      }
    }

    /** A byte, most significant bit first. */
    method ScanByte(b: byte) returns (found: bool)
      requires Valid()
      modifies this
      ensures Valid() && bits == old(bits) + ToBits(b, 8) && since == old(since)
      ensures found <==> Latest(bits, old(|bits|), |bits|).Some?
      ensures !found ==> lastBoundary == old(lastBoundary)
    {
      hide Valid, MagicEnds, Count, ToBits;
      found := false;
      ghost var start := |bits|;
      for k := 0 to 8
        invariant Valid() && bits == old(bits) + ToBits(b, 8)[..k] && since == old(since)
        invariant found <==> Latest(bits, start, start + k).Some?
        invariant !found ==> lastBoundary == old(lastBoundary)
      {
        BitOfByte(b, k);
        var next := Low(Shr(b, 7 - k), 1);
        ghost var before := bits;
        var here := ScanBit(next);
        Extends(before, [next], start, start + k, EOS_MAGIC);
        assert ToBits(b, 8)[..k + 1] == ToBits(b, 8)[..k] + [next];
        Associates(old(bits), ToBits(b, 8)[..k], [next]);
        found := found || here;
      }
      assert ToBits(b, 8)[..8] == ToBits(b, 8);
    }

    /** Scans bytes; a boundary found among them gets `totalOut` as its
        uncompressed offset. */
    method Feed(data: seq<byte>, totalOut: nat)
      requires Valid()
      modifies this
      ensures Valid() && bits == old(bits) + Bits(data) && since == old(since)
      ensures if Latest(bits, old(|bits|), |bits|).Some?
              then lastBoundary.Some? && lastBoundary.value.uncompressedOffset == totalOut
              else lastBoundary == old(lastBoundary)
    {
      hide Valid, Latest, ToBits;
      ghost var start, before := |bits|, bits;
      LatestNone(bits, start);
      assert before + [] == before;
      for i := 0 to |data|
        invariant Valid() && bits == before + Bits(data[..i]) && since == old(since)
        invariant if Latest(bits, start, |bits|).Some?
                  then lastBoundary.Some? && lastBoundary.value.uncompressedOffset == totalOut
                  else lastBoundary == old(lastBoundary)
      {
        ghost var was := bits;
        SinceBound();
        var found := ScanByte(data[i]);
        LatestJoins(was, ToBits(data[i], 8), start);
        BitsOne(before, data, i);
        if found {
          Stamp(|was|, totalOut);
        }
      }
      assert data[..|data|] == data;
    }

    lemma SinceBound()
      requires Valid()
      ensures since <= |bits|
    {
    }

    /** Dates the boundary that was found past bit `was`. */
    method Stamp(ghost was: nat, totalOut: nat)
      requires Valid() && since <= was <= |bits| && Latest(bits, was, |bits|).Some?
      modifies this`lastBoundary
      ensures Valid() && lastBoundary.Some? && lastBoundary.value.uncompressedOffset == totalOut
    {
      LatestCuts(bits, since, was, |bits|);
      lastBoundary := Some(lastBoundary.value.(uncompressedOffset := totalOut));
    }

    /** Hands the recorded boundary over and forgets it. */
    method TakeBoundary() returns (boundary: Option<BlockBoundary>)
      requires Valid()
      modifies this`lastBoundary, this`since
      ensures Valid() && boundary == old(lastBoundary) && lastBoundary == None && since == |bits|
      ensures Recorded(boundary, bits, old(since))
    {
      LatestNone(bits, |bits|);
      boundary := lastBoundary;
      lastBoundary := None;
      since := |bits|;
    }

    constructor Copy(other: MagicScanner)
      requires other.Valid()
      ensures Valid() && bits == other.bits && since == other.since
    {
      window, totalBits, blockCount := other.window, other.totalBits, other.blockCount;
      lastBoundary, eosFound, bits, since := other.lastBoundary, other.eosFound, other.bits, other.since;
    }

    /** Which of the bytes to come will complete a magic: scanned on a copy, so
        nothing here changes. */
    method FindBoundaryPositions(data: seq<byte>) returns (positions: seq<nat>)
      requires Valid()
      ensures positions == BoundaryBytes(bits, data, |data|)
    {
      hide Valid, Latest, ToBits, BoundaryBytes;
      BoundaryNone(bits, data);
      var copy := new MagicScanner.Copy(this);
      positions := [];
      assert bits + [] == bits;
      for i := 0 to |data|
        invariant copy.Valid() && copy.bits == bits + Bits(data[..i])
        invariant fresh(copy) && positions == BoundaryBytes(bits, data, i)
      {
        BitsOne(bits, data, i);
        BoundaryNext(bits, data, i);
        var found := copy.ScanByte(data[i]);
        if found {
          positions := positions + [i];
          var _ := copy.TakeBoundary();
        }
      }
    }
  }

  /** The bytes among the first `n` in which a block after the first one has
      its magic completed. */
  function BoundaryBytes(bits: seq<bit>, data: seq<byte>, n: nat): seq<nat>
    requires n <= |data|
  {
    if n > 0 then
      var s := bits + Bits(data[..n]);
      BoundaryBytes(bits, data, n - 1) + if Latest(s, |s| - 8, |s|).Some? then [n - 1] else []
    else []
  }

  lemma BoundaryNone(bits: seq<bit>, data: seq<byte>)
    ensures BoundaryBytes(bits, data, 0) == []
  {
  }

  lemma BoundaryNext(bits: seq<bit>, data: seq<byte>, i: nat)
    requires i < |data|
    ensures var s := bits + Bits(data[..i + 1]);
            BoundaryBytes(bits, data, i + 1)
            == BoundaryBytes(bits, data, i) + if Latest(s, |s| - 8, |s|).Some? then [i] else []
  {
  }

  /** The last of the bytes found is the one with the latest boundary, if there
      is one, in the bits from `from` on. */
  predicate Foretold(found: seq<nat>, latest: Option<nat>, from: nat) {
    match latest
    case None => found == []
    case Some(e) => found != [] && e > from && found[|found| - 1] == (e - 1 - from) / 8
  }

  lemma ForetoldOn(found: seq<nat>, before: Option<nat>, now: Option<nat>, from: nat, i: nat)
    requires Foretold(found, before, from)
    requires now.Some? ==> from + 8 * i < now.value <= from + 8 * i + 8
    ensures Foretold(found + if now.Some? then [i] else [], if now.Some? then now else before, from)
  {
    if now.Some? {
      assert (now.value - 1 - from) / 8 == i;
    } else {
      assert found + [] == found;
    }
  }

  /** The last of the predicted bytes is the one with the boundary that feeding
      the data records; without one, none is recorded. */
  lemma {:induction false} PredictsFeed(bits: seq<bit>, data: seq<byte>, n: nat)
    requires n <= |data|
    ensures var s := bits + Bits(data[..n]);
            Foretold(BoundaryBytes(bits, data, n), Latest(s, |bits|, |s|), |bits|)
    decreases n
  {
    hide Latest, ToBits, Bits, BoundaryBytes, Foretold;
    var s := bits + Bits(data[..n]);
    if n == 0 {
      hide *;
      assert data[..0] == [];
      NothingForetold(bits, data);
    } else {
      var i := n - 1;
      var before := bits + Bits(data[..i]);
      PredictsFeed(bits, data, i);
      BitsOne(bits, data, i);
      LatestJoins(before, ToBits(data[i], 8), |bits|);
      BoundaryNext(bits, data, i);
      ForetoldOn(BoundaryBytes(bits, data, i), Latest(before, |bits|, |before|), Latest(s, |s| - 8, |s|), |bits|, i);
    }
  }

  lemma NothingForetold(bits: seq<bit>, data: seq<byte>)
    ensures var s := bits + Bits(data[..0]);
            Foretold(BoundaryBytes(bits, data, 0), Latest(s, |bits|, |s|), |bits|)
  {
    assert data[..0] == [] && bits + [] == bits;
    LatestNone(bits, |bits|);
  }

  // ─── Realigning at a boundary ────────────────────────────────────

  /** In base 256 and in base 2, digits write the same number. */
  lemma {:induction false} SameValue(data: seq<byte>)
    ensures BitsValue(Bits(data)) == Value(data)
    decreases |data|
  {
    if data != [] {
      var n := |data| - 1;
      SameValue(data[..n]);
      hide BitsValue, ToBits, Up, Pow2;
      ValueAppends(Bits(data[..n]), ToBits(data[n], 8));
      ByteValue(data[n]);
      ByEight(BitsValue(Bits(data[..n])));
    }
  }

  lemma BitsFrom(data: seq<byte>, at: nat)
    requires at <= |data|
    ensures Bits(data)[8 * at..] == Bits(data[at..]) && Bits(data)[..8 * at] == Bits(data[..at])
  {
    hide *;
    BitsPieces(data, data[..at], data[at..], at);
  }

  lemma BitsPieces(data: seq<byte>, a: seq<byte>, b: seq<byte>, at: nat)
    requires data == a + b && |a| == at
    ensures Bits(data)[8 * at..] == Bits(b) && Bits(data)[..8 * at] == Bits(a)
  {
    hide *;
    BitsAppend(a, b);
    Cut(Bits(a), Bits(b), 8 * at);
  }

  lemma Cut(a: seq<bit>, b: seq<bit>, n: nat)
    requires n == |a|
    ensures (a + b)[n..] == b && (a + b)[..n] == a
  {
  }

  /** The bits but the first few, padded with zeros. */
  ghost predicate Realigned(tail: seq<bit>, offset: nat, out: seq<bit>) {
    offset <= |tail| && out == tail[offset..] + ToBits(0, offset)
  }

  /** What the shifter makes of the stream from a recorded boundary on starts
      with the six bytes of the magic. */
  lemma RealignedStarts(data: seq<byte>, boundary: BlockBoundary, since: nat, out: seq<byte>)
    requires Recorded(Some(boundary), Bits(data), since) && boundary.byteOffset <= |data|
    requires Realigned(Bits(data[boundary.byteOffset..]), boundary.bitOffset, Bits(out))
    ensures |out| >= 6 && out[..6] == [0x31, 0x41, 0x59, 0x26, 0x53, 0x59]
  {
    hide *;
    var at, offset := boundary.byteOffset, boundary.bitOffset;
    BoundaryInside(data, boundary, since);
    TailOf(data, at);
    Opening(Bits(data), Bits(data[at..]), Bits(out), 8 * at, offset);
    MagicBytes(out);
  }

  predicate MagicAt(bits: seq<bit>, at: nat) {
    at + 48 <= |bits| && BitsValue(bits[at..at + 48]) == BLOCK_MAGIC
  }

  lemma TailOf(data: seq<byte>, at: nat)
    requires at <= |data|
    ensures Bits(data[at..]) == Bits(data)[8 * at..]
  {
    BitsFrom(data, at);
  }

  lemma Opening(bits: seq<bit>, tail: seq<bit>, out: seq<bit>, at: nat, offset: nat)
    requires MagicAt(bits, at + offset) && at <= |bits| && tail == bits[at..] && Realigned(tail, offset, out)
    ensures MagicAt(out, 0)
  {
    hide BitsValue;
    var s := tail[offset..];
    assert out[0..48] == s[..48];
    assert s[..48] == bits[at + offset..at + offset + 48];
  }

  lemma MagicBytes(out: seq<byte>)
    requires MagicAt(Bits(out), 0)
    ensures |out| >= 6 && out[..6] == [0x31, 0x41, 0x59, 0x26, 0x53, 0x59]
  {
    hide Bits, BitsValue, Value;
    BitsFrom(out, 6);
    assert Bits(out)[0..48] == Bits(out[..6]);
    SameValue(out[..6]);
    ValueOfSix([0x31, 0x41, 0x59, 0x26, 0x53, 0x59]);
    SameDigits(out[..6], [0x31, 0x41, 0x59, 0x26, 0x53, 0x59]);
  }

  function SixBytes(s: seq<byte>): nat
    requires |s| == 6
  {
    s[5] + 0x100 * (s[4] + 0x100 * (s[3] + 0x100 * (s[2] + 0x100 * (s[1] + 0x100 * (s[0] as int)))))
  }

  lemma ValueOfSix(s: seq<byte>)
    requires |s| == 6
    ensures Value(s) == SixBytes(s)
  {
    assert Value(s[..0]) == 0;
    ValuePrefixStep(s, 0);
    ValuePrefixStep(s, 1);
    ValuePrefixStep(s, 2);
    ValuePrefixStep(s, 3);
    ValuePrefixStep(s, 4);
    ValuePrefixStep(s, 5);
    assert s[..6] == s;
  }

  lemma {:induction false} SameDigits(s: seq<byte>, t: seq<byte>)
    requires |s| == |t| && Value(s) == Value(t)
    ensures s == t
    decreases |s|
  {
    if s != [] {
      var n := |s| - 1;
      SameDigits(s[..n], t[..n]);
      assert s == s[..n] + [s[n]] && t == t[..n] + [t[n]];
    }
  }

  /** The magics that end what came before: of a block and of the end. */
  lemma MagicsAre()
    ensures BitsValue(Bits([0x31, 0x41, 0x59, 0x26, 0x53, 0x59])) == BLOCK_MAGIC
    ensures BitsValue(Bits([0x17, 0x72, 0x45, 0x38, 0x50, 0x90])) == EOS_MAGIC
  {
    hide Bits, BitsValue, Value;
    SameValue([0x31, 0x41, 0x59, 0x26, 0x53, 0x59]);
    SameValue([0x17, 0x72, 0x45, 0x38, 0x50, 0x90]);
    ValueOfSix([0x31, 0x41, 0x59, 0x26, 0x53, 0x59]);
    ValueOfSix([0x17, 0x72, 0x45, 0x38, 0x50, 0x90]);
  }

  /** Resumes at a boundary: the shifter, fed the stream from it on in any
      pieces and flushed, gives bytes that start with the magic. */
  method Realign(data: seq<byte>, boundary: BlockBoundary, ghost since: nat, takes: nat -> nat) returns (out: seq<byte>)
    requires Recorded(Some(boundary), Bits(data), since)
    requires forall k :: takes(k) > 0
    ensures |out| >= 6 && out[..6] == [0x31, 0x41, 0x59, 0x26, 0x53, 0x59]
    ensures |out| == |data| - boundary.byteOffset
  {
    hide Bits, ToBits, BitShifter.Valid, BitsValue, Count, MagicEnds;
    ghost var e := Latest(Bits(data), since, |Bits(data)|).value;
    BoundaryInside(data, boundary, since);
    var shifter := new BitShifter(boundary.bitOffset);
    var tail := data[boundary.byteOffset..];
    out := [];
    var pos: nat, k: nat := 0, 0;
    while pos < |tail|
      invariant pos <= |tail| && shifter.Valid() && shifter.bitOffset == boundary.bitOffset
      invariant shifter.taken == tail[..pos] && shifter.given == out
    {
      var n := if takes(k) < |tail| - pos then takes(k) else |tail| - pos;
      var piece := shifter.Shift(tail[pos..pos + n]);
      assert tail[..pos] + tail[pos..pos + n] == tail[..pos + n];
      out := out + piece;
      pos, k := pos + n, k + 1;
    }
    assert tail[..pos] == tail;
    var last := shifter.Flush();
    out := out + last;
    RealignedStarts(data, boundary, since, out);
  }

  lemma BoundaryInside(data: seq<byte>, boundary: BlockBoundary, since: nat)
    requires Recorded(Some(boundary), Bits(data), since)
    ensures boundary.bitOffset < 8 && boundary.byteOffset + 6 <= |data|
    ensures MagicAt(Bits(data), 8 * boundary.byteOffset + boundary.bitOffset)
  {
    hide *;
    var e := EndOf(Bits(data), boundary, since);
    assert |Bits(data)| == 8 * |data|;
  }

  lemma EndOf(bits: seq<bit>, boundary: BlockBoundary, since: nat) returns (e: nat)
    requires Recorded(Some(boundary), bits, since)
    ensures 48 <= e <= |bits| && MagicAt(bits, e - 48)
    ensures boundary.byteOffset == (e - 48) / 8 && boundary.bitOffset == (e - 48) % 8
  {
    hide Latest, Count, BitsValue;
    e := Latest(bits, since, |bits|).value;
    assert bits[e - 48..e] == bits[e - 48..e - 48 + 48];
  }

  lemma LatestNone(bits: seq<bit>, from: nat)
    requires from == |bits|
    ensures Latest(bits, from, |bits|) == None
  {
  }

  /** The latest of a longer stretch is the latest of its second part, if that
      has one. */
  lemma LatestJoins(bits: seq<bit>, more: seq<bit>, from: nat)
    requires from <= |bits|
    ensures var s := bits + more;
            Latest(s, from, |s|) ==
            if Latest(s, |bits|, |s|).Some? then Latest(s, |bits|, |s|) else Latest(bits, from, |bits|)
  {
    LatestCuts(bits + more, from, |bits|, |bits + more|);
    Extends(bits, more, from, |bits|, EOS_MAGIC);
  }

  lemma {:induction false} LatestCuts(bits: seq<bit>, from: nat, mid: nat, end: nat)
    requires from <= mid <= end <= |bits|
    ensures Latest(bits, from, end) ==
            if Latest(bits, mid, end).Some? then Latest(bits, mid, end) else Latest(bits, from, mid)
    decreases end
  {
    hide MagicEnds, Count;
    if end > mid {
      LatestCuts(bits, from, mid, end - 1);
    }
  }

  lemma BitsOne(before: seq<bit>, data: seq<byte>, i: nat)
    requires i < |data|
    ensures before + Bits(data[..i]) + ToBits(data[i], 8) == before + Bits(data[..i + 1])
  {
    assert data[..i + 1] == data[..i] + [data[i]];
    BitsLast(data[..i], data[i]);
  }

  /** The recorded boundary is the latest one since it was last taken. */
  ghost predicate Recorded(boundary: Option<BlockBoundary>, bits: seq<bit>, since: nat) {
    match Latest(bits, since, |bits|)
    case None => boundary == None
    case Some(e) =>
      && boundary.Some?
      && boundary.value.byteOffset == (e - MAGIC_BITS) / 8 && boundary.value.bitOffset == (e - MAGIC_BITS) % 8
      && boundary.value.blockIndex == Count(bits, e) - 1
  }

  lemma WindowMoves(bits: seq<bit>, b: bit)
    ensures Low(2 * Low(BitsValue(bits), 48) + b, 48) == Low(BitsValue(bits + [b]), 48)
    ensures |bits| + 1 >= 48 ==> Last48(bits + [b], |bits| + 1) == Low(BitsValue(bits + [b]), 48)
  {
    hide Low, BitsValue, Pow2, Last48;
    ValueNext(bits, b);
    WindowSlides(BitsValue(bits), b);
    if |bits| + 1 >= 48 {
      LastOnes(bits + [b]);
    }
  }

  lemma LastOnes(bits: seq<bit>)
    requires |bits| >= 48
    ensures Last48(bits, |bits|) == Low(BitsValue(bits), 48)
  {
    hide Low, Shr, BitsValue, Pow2;
    var n := |bits| - 48;
    ValueSplits(bits, n);
    assert bits[n..] == bits[n..|bits|];
  }

  lemma ValueNext(bits: seq<bit>, b: bit)
    ensures BitsValue(bits + [b]) == 2 * BitsValue(bits) + b
  {
    assert (bits + [b])[..|bits|] == bits;
  }

  lemma BitOfByte(b: byte, k: nat)
    requires k < 8
    ensures Low(Shr(b, 7 - k), 1) < 2 && ToBits(b, 8)[k] == Low(Shr(b, 7 - k), 1)
  {
    var s := ToBits(b, 8);
    hide ToBits, BitsValue, Low, Shr, Pow2;
    ByteValue(b);
    ValueSplits(s, k + 1);
    ValueLast(s[..k + 1]);
    ByOne(Shr(b, 7 - k));
    assert s[..k + 1][k] == s[k];
  }

  lemma ValueLast(s: seq<bit>)
    requires s != []
    ensures BitsValue(s) % 2 == s[|s| - 1]
  {
    hide *;
    var n := |s| - 1;
    assert s == s[..n] + [s[n]];
    ValueNext(s[..n], s[n]);
  }
}
