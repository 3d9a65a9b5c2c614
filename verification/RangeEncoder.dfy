/**
  The carry-propagating range encoder that writes BCJ2 bit streams.

  Bytes that a carry may still change are held back: one `cache` byte and a
  run of `cacheSize - 1` bytes 0xFF after it.
 */
module RangeEncoding {
  import opened Arithmetic
  import opened Bytes
  import opened RangeCoding

  /** `v` followed by `k` digits 0xFF. */
  function WithFfs(v: nat, k: nat): nat
    decreases k
  {
    if k > 0 then WithFfs(0x100 * v + 0xFF, k - 1) else v
  }

  /** `v` followed by `k` digits that a carry has passed through, or not. */
  function WithRun(v: nat, k: nat, carry: nat): nat
    decreases k
  {
    if k > 0 then WithRun(0x100 * v + (0xFF + carry) % 0x100, k - 1, carry) else v
  }

  lemma WithNoFfs(v: nat)
    ensures WithFfs(v, 0) == v
  {
  }

  /** Writing the run out digit by digit propagates the carry. */
  lemma {:induction false} CarryPropagates(v: nat, k: nat, carry: nat)
    requires carry <= 1
    ensures WithRun(v + carry, k, carry) == WithFfs(v, k) + carry
    decreases k
  {
    if k > 0 {
      assert 0x100 * (v + carry) + (0xFF + carry) % 0x100 == 0x100 * v + 0xFF + carry;
      CarryPropagates(0x100 * v + 0xFF, k - 1, carry);
    }
  }

  lemma {:induction false} WithFfsLast(v: nat, k: nat)
    ensures WithFfs(v, k + 1) == 0x100 * WithFfs(v, k) + 0xFF
    decreases k
  {
    if k > 0 {
      WithFfsLast(0x100 * v + 0xFF, k - 1);
    }
  }

  function Scaled(n: nat, k: nat): nat {
    if k > 0 then 0x100 * Scaled(n, k - 1) else n
  }

  lemma FiveScalings(n: nat)
    ensures Scaled(n, 5) == 0x100 * n * TWO_32
  {
    var s := Scaled(n, 3);
    assert s == 0x100 * Scaled(n, 2);
    assert Scaled(n, 2) == 0x100 * Scaled(n, 1);
  }

  /** What `low` becomes when it only ever moves out. */
  function Drained(low: nat, k: nat): nat {
    if k > 0 then Drained(low, k - 1) % TOP * 0x100 else low
  }

  lemma LowDrains(low: nat)
    ensures Drained(low, 4) == 0 && Drained(low, 5) == 0
  {
    var a := Drained(low, 1);
    assert a % 0x100 == 0;
    var b := Drained(low, 2);
    assert b % 0x1_0000 == 0;
    var c := Drained(low, 3);
    assert c % TOP == 0;
  }

  class RangeEncoder {
    var low: nat
    var range: u32
    var cache: byte
    var cacheSize: nat
    var out: seq<byte>

    /** A carry out of `low` is single, and never meets a cache of 0xFF.
        `width` is the width of the interval above `low`. */
    ghost predicate Holds(width: nat)
      reads this
    {
      && cacheSize >= 1
      && low < 2 * TWO_32 && low + width <= 2 * TWO_32
      && (low >= TWO_32 || low + width > TWO_32 ==> cache < 0xFF)
    }

    ghost predicate Valid()
      reads this
    {
      Holds(range) && range >= TOP
    }

    /** The number written so far, held-back bytes and `low` included. */
    ghost function Low(): nat
      reads this
      requires cacheSize >= 1
    {
      WithFfs(0x100 * Value(out) + cache, cacheSize - 1) * TWO_32 + low
    }

    ghost function View(): Interval
      reads this
      requires cacheSize >= 1
    {
      Interval(Low(), range, |out| + cacheSize)
    }

    constructor ()
      ensures Valid() && View() == WHOLE
    {
      low := 0;
      range := FULL_RANGE;
      cache := 0;
      cacheSize := 1;
      out := [];
    }

    /** Moves the top byte of `low` out, into the held-back bytes or past them. */
    method ShiftLow(ghost width: nat)
      requires Holds(width) && width < TOP
      modifies this`low, this`cache, this`cacheSize, this`out
      ensures Holds(0x100 * width)
      ensures Low() == 0x100 * old(Low())
      ensures |out| + cacheSize == old(|out| + cacheSize) + 1
      ensures low == old(low) % TOP * 0x100
      ensures old(low) == 0 ==> cache == 0 && cacheSize == 1
    {
      hide Value, WithFfs;
      ghost var held, low0 := WithFfs(0x100 * Value(out) + cache, cacheSize - 1), low;
      if low % TWO_32 < 0xFF00_0000 || low / TWO_32 != 0 {
        var carry := low / TWO_32;
        WriteOut(carry);
        cache := low / TOP % 0x100;
        cacheSize := 1;
        low := low % TOP * 0x100;
        WithNoFfs(0x100 * Value(out) + cache);
        ShiftedNumber(held, low0, carry);
      } else {
        WithFfsLast(0x100 * Value(out) + cache, cacheSize - 1);
        cacheSize := cacheSize + 1;
        low := low % TOP * 0x100;
        ShiftedRun(held, low0);
      }
    }

    /** Writes the held-back bytes with a carry added. */
    method WriteOut(carry: nat)
      requires cacheSize >= 1 && carry <= 1 && (carry == 1 ==> cache < 0xFF)
      modifies this`cacheSize, this`out
      ensures cacheSize == 0
      ensures |out| == old(|out| + cacheSize)
      ensures Value(out) == old(WithFfs(0x100 * Value(out) + cache, cacheSize - 1)) + carry
    {
      hide Value, WithFfs;
      ghost var v := 0x100 * Value(out) + cache;
      ghost var digits := |out| + cacheSize;
      CarryPropagates(v, cacheSize - 1, carry);
      var temp := cache;
      while true
        invariant cacheSize >= 1 && |out| + cacheSize == digits
        invariant temp == 0xFF || temp + carry < 0x100
        invariant WithRun(0x100 * Value(out) + (temp + carry) % 0x100, cacheSize - 1, carry)
               == old(WithFfs(0x100 * Value(out) + cache, cacheSize - 1)) + carry
        decreases cacheSize
      {
        ValueAppend(out, (temp + carry) % 0x100);
        out := out + [(temp + carry) % 0x100];
        temp := 0xFF;
        cacheSize := cacheSize - 1;
        if cacheSize == 0 {
          break;
        }
      }
    }

    /** Codes one bit; returns the context's next probability. */
    method Encode(prob: Prob, bit: bool) returns (next: Prob)
      requires Valid()
      modifies this
      ensures Valid()
      ensures next == Adapt(prob, bit)
      ensures View() == Renormalise(Narrow(old(View()), prob, bit))
    {
      hide Value, WithFfs;
      BoundSplits(range, prob);
      ghost var narrowed := Narrow(View(), prob, bit);
      var bound := Bound(range, prob);
      if !bit {
        range := bound;
        next := prob + (BIT_MODEL_TOTAL - prob) / MOVE;
      } else {
        low := low + bound;
        range := range - bound;
        next := prob - prob / MOVE;
      }
      assert View() == narrowed;
      Settle();
    }

    /** Codes one bit without a probability. */
    method EncodeDirect(bit: bool)
      requires Valid()
      modifies this
      ensures Valid()
      ensures View() == Renormalise(Halve(old(View()), bit))
    {
      hide Value, WithFfs;
      range := range / 2;
      if bit {
        low := low + range;
      }
      Settle();
    }

    /** Moves bytes out until the range is large enough to code the next bit. */
    method Settle()
      requires Holds(range) && range >= 0x1_0000
      modifies this
      ensures Valid() && View() == Renormalise(old(View()))
    {
      hide Value, WithFfs;
      ghost var narrowed := View();
      while range < TOP
        invariant Holds(range) && range >= 0x1_0000
        invariant View() == narrowed || (range >= TOP && View() == Renormalise(narrowed))
        decreases TOP - range
      {
        ghost var width := range;
        range := range * 0x100;
        ShiftLow(width);
      }
    }

    /** Flushes `low`; the stream then writes exactly the low end of the interval. */
    method Finish() returns (stream: seq<byte>)
      requires Valid()
      modifies this
      ensures |stream| == old(View().digits) + 4
      ensures Value(stream) == old(View().low)
    {
      ghost var n, low0 := Low(), low;
      ghost var m := |out| + cacheSize;
      for i := 0 to 5
        invariant Holds(0)
        invariant Low() == Scaled(n, i) && |out| + cacheSize == m + i
        invariant low == Drained(low0, i)
        invariant i == 5 ==> cache == 0 && cacheSize == 1
      {
        LowDrains(low0);
        ShiftLow(0);
      }
      LowDrains(low0);
      FiveScalings(n);
      stream := out;
    }
  }

  lemma ShiftedNumber(held: nat, low: nat, carry: nat)
    requires carry == low / TWO_32
    ensures (0x100 * (held + carry) + low / TOP % 0x100) * TWO_32 + low % TOP * 0x100
         == 0x100 * (held * TWO_32 + low)
  {
    var high, rest := low / TOP, low % TOP;
    DivModUnique(high, 0x100, carry, high % 0x100);
    assert low == TOP * (0x100 * carry + high % 0x100) + rest;
  }

  lemma ShiftedRun(held: nat, low: nat)
    requires 0xFF00_0000 <= low < TWO_32
    ensures (0x100 * held + 0xFF) * TWO_32 + low % TOP * 0x100 == 0x100 * (held * TWO_32 + low)
  {
  }
}
