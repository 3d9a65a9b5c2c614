/**
  The x86 BCJ converter: absolute targets of CALL (E8) and JMP (E9) become
  relative ones again, and back.

  A marker that could not be converted is remembered in a mask for the next
  three positions, together with whether its fifth byte was 00 or FF. The
  mask decides which later markers may convert, and which byte a conversion
  must keep away from 00 and FF so that the other direction decides alike.

  The specification keeps the mask shifted to the current position, one
  place for every byte; the converters shift it lazily, by the distance to
  the marker before.
 */
module X86Branch {
  import opened Arithmetic
  import opened Bytes
  import opened Sequences

  predicate IsEdge(b: byte) {
    b == 0 || b == 0xFF
  }

  predicate IsMarker(b: byte) {
    b == 0xE8 || b == 0xE9
  }

  // ─── The mask ────────────────────────────────────────────────────

  function Shifted(mask: bv8): bv8 {
    (mask & 0x77) << 1
  }

  function ShiftedBy(mask: bv8, n: nat): bv8 {
    if n > 0 then Shifted(ShiftedBy(mask, n - 1)) else mask
  }

  function Marked(mask: bv8, edge: bool): bv8 {
    mask | 1 | (if edge then 0x10 else 0)
  }

  predicate MayConvert(mask: bv8) {
    mask >> 1 <= 4 && mask >> 1 != 3
  }

  /** Which operand byte, counted down from the top one, the mask guards. */
  function BitNumber(mask: bv8): (n: nat)
    requires MayConvert(mask)
    ensures n <= 3
  {
    var top := mask >> 1;
    if top == 0 then 0 else if top == 1 then 1 else if top == 4 then 3 else 2
  }

  /** A marker `d` places back was not converted. */
  predicate Skipped(mask: bv8, d: nat) {
    (d == 1 && mask & 0x02 != 0) || (d == 2 && mask & 0x04 != 0) || (d == 3 && mask & 0x08 != 0)
  }

  /** The fifth byte of the marker `d` places back was 00 or FF. */
  predicate SkippedEdge(mask: bv8, d: nat) {
    (d == 1 && mask & 0x20 != 0) || (d == 2 && mask & 0x40 != 0) || (d == 3 && mask & 0x80 != 0)
  }

  /** The mask tells the truth about the bytes `s` from here on. */
  ghost predicate Truthful(mask: bv8, s: seq<byte>) {
    && mask & 0x11 == 0
    && forall d :: 1 <= d <= 3 && Skipped(mask, d) ==>
         4 - d < |s| && (SkippedEdge(mask, d) <==> IsEdge(s[4 - d]))
  }

  /** Five rounds of shifting clear any mask. */
  lemma {:induction false} FiveShiftsClear(mask: bv8, n: nat)
    requires n >= 5
    ensures ShiftedBy(mask, n) == 0
  {
    if n == 5 {
      var a := ShiftedBy(mask, 1);
      assert a & 0x11 == 0;
      var b := ShiftedBy(mask, 2);
      assert b & 0x33 == 0;
      var c := ShiftedBy(mask, 3);
      assert c & 0x77 == 0;
      assert ShiftedBy(mask, 4) == Shifted(c) == 0;
    } else {
      FiveShiftsClear(mask, n - 1);
    }
  }

  /** A mask that may convert is clear, or names exactly one skipped marker,
      whose fifth byte was neither 00 nor FF. */
  lemma MayConvertNamesOne(mask: bv8)
    requires MayConvert(mask) && mask & 0x11 == 0
    ensures mask == 0 ==> forall d :: !Skipped(mask, d)
    ensures mask != 0 ==> 1 <= BitNumber(mask) <= 3
    ensures mask != 0 ==> forall d :: Skipped(mask, d) <==> d == BitNumber(mask)
    ensures mask != 0 ==> !SkippedEdge(mask, BitNumber(mask))
  {
  }

  lemma SkippedShifts(mask: bv8, d: nat)
    requires mask & 0x10 == 0 || mask & 0x01 != 0
    ensures Shifted(mask) & 0x11 == 0
    ensures 1 <= d <= 2 ==> (Skipped(Shifted(mask), d + 1) <==> Skipped(mask, d))
    ensures 1 <= d <= 2 ==> (SkippedEdge(Shifted(mask), d + 1) <==> SkippedEdge(mask, d))
    ensures Skipped(Shifted(mask), 1) <==> mask & 1 != 0
    ensures SkippedEdge(Shifted(mask), 1) <==> mask & 0x10 != 0
  {
  }

  lemma MarkedBits(mask: bv8, edge: bool, d: nat)
    requires mask & 0x11 == 0
    ensures Marked(mask, edge) & 1 != 0 && (Marked(mask, edge) & 0x10 != 0 <==> edge)
    ensures Skipped(Marked(mask, edge), d) <==> Skipped(mask, d)
    ensures SkippedEdge(Marked(mask, edge), d) <==> SkippedEdge(mask, d)
  {
  }

  lemma TruthfulShifts(mask: bv8, s: seq<byte>)
    requires |s| >= 1 && Truthful(mask, s)
    ensures Truthful(Shifted(mask), s[1..])
  {
    forall d | 1 <= d <= 3 && Skipped(Shifted(mask), d)
      ensures 4 - d < |s[1..]| && (SkippedEdge(Shifted(mask), d) <==> IsEdge(s[1..][4 - d]))
    {
      SkippedShifts(mask, d - 1);
    }
    SkippedShifts(mask, 1);
  }

  lemma TruthfulMarked(mask: bv8, s: seq<byte>)
    requires |s| >= 5 && Truthful(mask, s)
    ensures Truthful(Shifted(Marked(mask, IsEdge(s[4]))), s[1..])
    ensures Skipped(Shifted(Marked(mask, IsEdge(s[4]))), 1)
  {
    var marked := Marked(mask, IsEdge(s[4]));
    forall d | 1 <= d <= 3 && Skipped(Shifted(marked), d)
      ensures 4 - d < |s[1..]| && (SkippedEdge(Shifted(marked), d) <==> IsEdge(s[1..][4 - d]))
    {
      MarkedBits(mask, IsEdge(s[4]), d - 1);
      SkippedShifts(marked, d - 1);
    }
    MarkedBits(mask, IsEdge(s[4]), 1);
    SkippedShifts(marked, 1);
  }

  // ─── One operand ─────────────────────────────────────────────────

  /** Byte `j` of a word, least significant first. */
  function ByteAt(w: u32, j: nat): byte {
    if j == 0 then w % 0x100
    else if j == 1 then w / 0x100 % 0x100
    else if j == 2 then w / 0x1_0000 % 0x100
    else w / 0x100_0000
  }

  /** 256 to the power `j + 1`: the modulus of bytes 0 to `j`. */
  function Weight(j: nat): nat
    requires j <= 2
  {
    if j == 0 then 0x100 else if j == 1 then 0x1_0000 else 0x100_0000
  }

  /** Exclusive or with ones in bytes 0 to `j`. */
  function FlipLow(w: u32, j: nat): u32
    requires j <= 2
  {
    var p := Weight(j);
    w - w % p + (p - 1 - w % p)
  }

  /** Bits 0 to 24 of a word, sign-extended. */
  function SignExtend25(w: u32): u32 {
    w % 0x100_0000 + (if w / 0x100_0000 % 2 == 1 then 0xFF00_0000 else 0)
  }

  function Move(encode: bool, w: u32, base: u32): u32 {
    Wrap32(if encode then w + base else w - base)
  }

  /** The converted operand. When byte `j` is guarded (`j <= 2`) and comes out
      as 00 or FF, the move is applied again to the flipped result. */
  function Converted(encode: bool, w: u32, base: u32, guard: int): u32 {
    var once := Move(encode, w, base);
    if 0 <= guard <= 2 && IsEdge(ByteAt(once, guard)) then Move(encode, FlipLow(once, guard), base) else once
  }

  lemma ByteOfLow(w: u32, j: nat)
    requires j <= 2
    ensures j == 0 ==> ByteAt(w, j) == w % Weight(j)
    ensures j == 1 ==> ByteAt(w, j) == w % Weight(j) / 0x100
    ensures j == 2 ==> ByteAt(w, j) == w % Weight(j) / 0x1_0000
  {
    var q := w / 0x100;
    var r := q / 0x100;
    assert w / 0x1_0000 == r;
    if j == 1 {
      assert w % 0x1_0000 == 0x100 * (q % 0x100) + w % 0x100;
    } else if j == 2 {
      assert w % 0x100_0000 == 0x1_0000 * (r % 0x100) + w % 0x1_0000;
    }
  }

  /** Complementing bytes 0 to `j` complements byte `j`. */
  lemma LowComplement(v: u32, w: u32, j: nat)
    requires j <= 2 && v % Weight(j) == Weight(j) - 1 - w % Weight(j)
    ensures ByteAt(v, j) == 0xFF - ByteAt(w, j)
  {
    ByteOfLow(v, j);
    ByteOfLow(w, j);
  }

  lemma FlipLowMod(w: u32, j: nat)
    requires j <= 2
    ensures FlipLow(w, j) % Weight(j) == Weight(j) - 1 - w % Weight(j)
    ensures FlipLow(w, j) / Weight(j) == w / Weight(j)
  {
    var p := Weight(j);
    DivModUnique(FlipLow(w, j), p, w / p, p - 1 - w % p);
  }

  lemma MoveMod(encode: bool, w: u32, base: u32, p: nat, c: nat)
    requires p > 0 && p * c == TWO_32
    ensures Move(encode, w, base) % p == (if encode then w % p + base % p else w % p - base % p) % p
  {
    var x := if encode then w + base else w - base;
    ModMod(x, p, c);
    if encode {
      ModAdd(w, base, p);
    } else {
      ModSub(w, base, p);
    }
  }

  function CoWeight(j: nat): nat
    requires j <= 2
    ensures Weight(j) * CoWeight(j) == TWO_32
  {
    if j == 0 then 0x100_0000 else if j == 1 then 0x1_0000 else 0x100
  }

  /** The second move complements the guarded byte, so it is not 00 or FF
      unless the original byte was: the rewrite never needs a third. */
  lemma SecondMoveComplements(encode: bool, w: u32, base: u32, j: nat)
    requires j <= 2
    ensures ByteAt(Move(encode, FlipLow(Move(encode, w, base), j), base), j) == 0xFF - ByteAt(w, j)
  {
    hide Move, FlipLow;
    var p := Weight(j);
    var once := Move(encode, w, base);
    var flipped := FlipLow(once, j);
    var twice := Move(encode, flipped, base);
    MoveMod(encode, w, base, p, CoWeight(j));
    FlipLowMod(once, j);
    MoveMod(encode, flipped, base, p, CoWeight(j));
    ComplementMod(w % p, base % p, p, encode);
    LowComplement(twice, w, j);
  }

  lemma ComplementMod(l: nat, a: nat, p: nat, encode: bool)
    requires l < p && a < p
    ensures var o := (if encode then l + a else l - a) % p;
            (if encode then p - 1 - o + a else p - 1 - o - a) % p == p - 1 - l
  {
    var x := if encode then l + a else l - a;
    var k := x / p;
    assert x == p * k + x % p;
    var y := if encode then p - 1 - x % p + a else p - 1 - x % p - a;
    assert y == p * k + (p - 1 - l);
    DivModUnique(y, p, k, p - 1 - l);
  }

  // Words that agree in bits 0 to 24 are as good as equal to the converter.

  const BITS_25 := 0x200_0000

  ghost predicate Alike(v: u32, w: u32) {
    v % BITS_25 == w % BITS_25
  }

  lemma SignExtendAlike(v: u32, w: u32)
    requires Alike(v, w)
    ensures SignExtend25(v) == SignExtend25(w)
    ensures Alike(SignExtend25(v), v)
  {
    assert v % 0x100_0000 == v % BITS_25 % 0x100_0000;
    assert v / 0x100_0000 % 2 == v % BITS_25 / 0x100_0000;
    assert w % 0x100_0000 == w % BITS_25 % 0x100_0000;
    assert w / 0x100_0000 % 2 == w % BITS_25 / 0x100_0000;
  }

  lemma LowAlike(v: u32, w: u32, j: nat)
    requires j <= 2 && Alike(v, w)
    ensures v % Weight(j) == w % Weight(j)
    ensures ByteAt(v, j) == ByteAt(w, j)
  {
    var c := if j == 0 then 0x2_0000 else if j == 1 then 0x200 else 2;
    ModMod(v, Weight(j), c);
    ModMod(w, Weight(j), c);
    ByteOfLow(v, j);
    ByteOfLow(w, j);
  }

  lemma FlipAlike(v: u32, w: u32, j: nat)
    requires j <= 2 && Alike(v, w)
    ensures Alike(FlipLow(v, j), FlipLow(w, j))
  {
    LowAlike(v, w, j);
    var p, r := Weight(j), v % Weight(j);
    assert FlipLow(v, j) == v + (p - 1 - 2 * r) && FlipLow(w, j) == w + (p - 1 - 2 * r);
    AddAlike(v, w, p - 1 - 2 * r);
  }

  lemma AddAlike(v: int, w: int, c: int)
    requires v % BITS_25 == w % BITS_25
    ensures (v + c) % BITS_25 == (w + c) % BITS_25
  {
    ModAdd(v, c, BITS_25);
    ModAdd(w, c, BITS_25);
  }

  lemma MoveAlike(encode: bool, v: u32, w: u32, base: u32)
    requires Alike(v, w)
    ensures Alike(Move(encode, v, base), Move(encode, w, base))
  {
    MoveMod(encode, v, base, BITS_25, 0x80);
    MoveMod(encode, w, base, BITS_25, 0x80);
  }

  lemma MoveInverts(w: u32, base: u32)
    ensures Move(false, Move(true, w, base), base) == w
  {
    WrapCancels(w, base);
  }

  lemma FlipFlips(w: u32, j: nat)
    requires j <= 2
    ensures FlipLow(FlipLow(w, j), j) == w
  {
    FlipLowMod(w, j);
  }

  /** Moving `w` back undoes moving it forth, whichever of the two moves the
      guard made necessary, and keeps the guarded byte away from 00 and FF. */
  lemma OperandInverts(w: u32, base: u32, guard: int)
    requires guard <= 2 && (guard >= 0 ==> !IsEdge(ByteAt(w, guard)))
    requires SignExtend25(w) == w
    ensures var e := SignExtend25(Converted(true, w, base, guard));
            && SignExtend25(Converted(false, e, base, guard)) == w
            && (guard >= 0 ==> !IsEdge(ByteAt(e, guard)))
  {
    hide Move, FlipLow, SignExtend25, ByteAt, Alike;
    var once := Move(true, w, base);
    var moved := Converted(true, w, base, guard);
    var e := SignExtend25(moved);
    SignExtendAlike(moved, moved);
    MoveAlike(false, e, moved, base);
    var back := Move(false, e, base);
    if guard < 0 {
      MoveInverts(w, base);
      SignExtendAlike(back, w);
      return;
    }
    LowAlike(e, moved, guard);
    if !IsEdge(ByteAt(once, guard)) {
      MoveInverts(w, base);
      LowAlike(back, w, guard);
      SignExtendAlike(back, w);
    } else {
      var flipped := FlipLow(once, guard);
      SecondMoveComplements(true, w, base, guard);
      MoveInverts(flipped, base);
      LowAlike(back, flipped, guard);
      FlipLowMod(once, guard);
      LowComplement(flipped, once, guard);
      FlipAlike(back, flipped, guard);
      FlipFlips(once, guard);
      MoveInverts(w, base);
      MoveAlike(false, FlipLow(back, guard), once, base);
      SignExtendAlike(Move(false, FlipLow(back, guard), base), w);
    }
  }

  // ─── The conversion of a buffer ──────────────────────────────────

  /** The bytes one step settles, and the mask for the position after them. */
  datatype Stepped = Stepped(out: seq<byte>, mask: bv8)

  /** The operand byte whose marker must not start to look convertible. */
  function Guard(mask: bv8): int
    requires MayConvert(mask)
  {
    if mask == 0 then -1 else 3 - BitNumber(mask)
  }

  function ConvertOperand(encode: bool, operand: seq<byte>, mask: bv8, pos: nat): (out: seq<byte>)
    requires |operand| == 4 && MayConvert(mask)
    ensures |out| == 4
  {
    ToLe4(SignExtend25(Converted(encode, FromLe4(operand), Wrap32(pos + 5), Guard(mask))))
  }

  /** One step at stream position `pos`; it looks at five bytes. */
  function Step(encode: bool, s: seq<byte>, mask: bv8, pos: nat): (r: Stepped)
    requires |s| >= 5
    ensures (|r.out| == 1 || |r.out| == 5) && r.out[0] == s[0]
  {
    if !IsMarker(s[0]) then Stepped([s[0]], Shifted(mask))
    else if IsEdge(s[4]) && MayConvert(mask) then
      Stepped([s[0]] + ConvertOperand(encode, s[1..5], mask, pos), 0)
    else Stepped([s[0]], Shifted(Marked(mask, IsEdge(s[4]))))
  }

  /** The whole buffer converted; the last four bytes may stay as they are. */
  function Convert(encode: bool, s: seq<byte>, mask: bv8, pos: nat): (out: seq<byte>)
    ensures |out| == |s|
    decreases |s|
  {
    if |s| < 5 then s else
    var r := Step(encode, s, mask, pos);
    r.out + Convert(encode, s[|r.out|..], r.mask, pos + |r.out|)
  }

  lemma BytesOfWord(s: seq<byte>, j: nat)
    requires |s| == 4 && j < 4
    ensures ByteAt(FromLe4(s), j) == s[j]
    ensures IsEdge(s[3]) ==> SignExtend25(FromLe4(s)) == FromLe4(s)
  {
    var w := FromLe4(s);
    var q := 0x100 * (0x100 * (s[3] as int) + s[2]) + s[1];
    assert w / 0x100 == q;
    var r := 0x100 * (s[3] as int) + s[2];
    assert q / 0x100 == r && w / 0x1_0000 == r;
    assert r / 0x100 == s[3] && w / 0x100_0000 == s[3];
  }

  lemma WordOfBytes(w: u32, j: nat)
    requires j < 4
    ensures ToLe4(w)[j] == ByteAt(w, j)
    ensures IsEdge(ToLe4(SignExtend25(w))[3])
  {
    BytesOfWord(ToLe4(w), j);
    var e := SignExtend25(w);
    assert ToLe4(e)[3] == e / 0x100_0000 by { BytesOfWord(ToLe4(e), 3); }
  }

  /** What the other direction needs of a converted operand. */
  lemma ConvertOperandInverts(operand: seq<byte>, mask: bv8, pos: nat)
    requires |operand| == 4 && IsEdge(operand[3]) && MayConvert(mask) && mask & 0x11 == 0
    requires mask != 0 ==> !IsEdge(operand[3 - BitNumber(mask)])
    ensures var e := ConvertOperand(true, operand, mask, pos);
            && ConvertOperand(false, e, mask, pos) == operand
            && IsEdge(e[3])
            && (mask != 0 ==> !IsEdge(e[3 - BitNumber(mask)]))
  {
    hide Converted, SignExtend25, ByteAt;
    MayConvertNamesOne(mask);
    var w, base, guard := FromLe4(operand), Wrap32(pos + 5), Guard(mask);
    BytesOfWord(operand, if guard >= 0 then guard else 0);
    OperandInverts(w, base, guard);
    var e := SignExtend25(Converted(true, w, base, guard));
    WordOfBytes(Converted(true, w, base, guard), 0);
    if guard >= 0 {
      WordOfBytes(e, guard);
    }
    Le4RoundTrip(operand);
  }

  lemma ConvertKeepsFirst(encode: bool, s: seq<byte>, mask: bv8, pos: nat)
    requires |s| >= 1
    ensures Convert(encode, s, mask, pos)[0] == s[0]
  {
  }

  /** The fifth byte of a skipped marker is 00 or FF after the conversion of
      what follows exactly when it was before. */
  lemma {:induction false} SkippedEdgeKept(s: seq<byte>, mask: bv8, pos: nat, d: nat)
    requires Truthful(mask, s) && 1 <= d <= 3 && Skipped(mask, d)
    ensures IsEdge(Convert(true, s, mask, pos)[4 - d]) <==> IsEdge(s[4 - d])
    decreases |s|
  {
    if |s| < 5 {
      return;
    }
    hide ConvertOperand, Truthful, IsMarker, MayConvert, Shifted, Marked, Skipped, SkippedEdge, IsEdge;
    var r := Step(true, s, mask, pos);
    var rest := Convert(true, s[|r.out|..], r.mask, pos + |r.out|);
    if |r.out| == 1 {
      SkippedStays(s, mask, pos, d);
      if d == 3 {
        ConvertKeepsFirst(true, s[1..], r.mask, pos + 1);
      } else {
        SkippedEdgeKept(s[1..], r.mask, pos + 1, d + 1);
      }
    } else {
      GuardedStays(s, mask, pos, d);
    }
  }

  lemma SkippedStays(s: seq<byte>, mask: bv8, pos: nat, d: nat)
    requires |s| >= 5 && Truthful(mask, s) && 1 <= d <= 3 && Skipped(mask, d)
    requires |Step(true, s, mask, pos).out| == 1
    ensures Truthful(Step(true, s, mask, pos).mask, s[1..])
    ensures d <= 2 ==> Skipped(Step(true, s, mask, pos).mask, d + 1)
  {
    if !IsMarker(s[0]) {
      TruthfulShifts(mask, s);
      SkippedShifts(mask, d);
    } else {
      TruthfulMarked(mask, s);
      MarkedBits(mask, IsEdge(s[4]), d);
      SkippedShifts(Marked(mask, IsEdge(s[4])), d);
    }
  }

  lemma GuardedStays(s: seq<byte>, mask: bv8, pos: nat, d: nat)
    requires |s| >= 5 && Truthful(mask, s) && 1 <= d <= 3 && Skipped(mask, d)
    requires |Step(true, s, mask, pos).out| == 5
    ensures IsEdge(Step(true, s, mask, pos).out[4 - d]) <==> IsEdge(s[4 - d])
  {
    MayConvertNamesOne(mask);
    ConvertOperandInverts(s[1..5], mask, pos);
  }

  /** The decoder undoes the encoder: both take the same steps, although the
      decoder looks at bytes that a later conversion may have rewritten. */
  lemma {:induction false} ConvertInverts(s: seq<byte>, mask: bv8, pos: nat)
    requires Truthful(mask, s)
    ensures Convert(false, Convert(true, s, mask, pos), mask, pos) == s
    decreases |s|
  {
    if |s| < 5 {
      return;
    }
    hide Step, Truthful, Convert;
    var x := Convert(true, s, mask, pos);
    var l, rest, mask', pos' := StepInverts(s, mask, pos);
    ConvertInverts(rest, mask', pos');
    assert Convert(false, x, mask, pos) == l + rest;
  }

  lemma StepInverts(s: seq<byte>, mask: bv8, pos: nat)
    returns (l: seq<byte>, rest: seq<byte>, mask': bv8, pos': nat)
    requires |s| >= 5 && Truthful(mask, s)
    ensures |rest| < |s| && s == l + rest && Truthful(mask', rest)
    ensures var x := Convert(true, s, mask, pos);
            Convert(false, x, mask, pos) == l + Convert(false, Convert(true, rest, mask', pos'), mask', pos')
  {
    hide Step, Truthful;
    var r := Step(true, s, mask, pos);
    l, rest, mask', pos' := s[..|r.out|], s[|r.out|..], r.mask, pos + |r.out|;
    StepAgrees(s, mask, pos);
    assert Convert(true, s, mask, pos)[|l|..] == Convert(true, rest, mask', pos');
  }

  lemma StepAgrees(s: seq<byte>, mask: bv8, pos: nat)
    requires |s| >= 5 && Truthful(mask, s)
    ensures var r := Step(true, s, mask, pos);
            && Truthful(r.mask, s[|r.out|..])
            && Step(false, Convert(true, s, mask, pos), mask, pos) == Stepped(s[..|r.out|], r.mask)
  {
    hide ConvertOperand, Shifted, Marked;
    var x := Convert(true, s, mask, pos);
    var r := Step(true, s, mask, pos);
    var n := |r.out|;
    assert x[..n] == r.out;
    if n == 5 {
      MayConvertNamesOne(mask);
      ConvertOperandInverts(s[1..5], mask, pos);
      assert x[1..5] == r.out[1..5] == ConvertOperand(true, s[1..5], mask, pos);
      assert s[..5] == [s[0]] + s[1..5];
    } else if IsMarker(s[0]) {
      TruthfulMarked(mask, s);
      SkippedEdgeKept(s[1..], r.mask, pos + 1, 1);
      assert x[4] == Convert(true, s[1..], r.mask, pos + 1)[3];
      assert s[..1] == [s[0]];
    } else {
      TruthfulShifts(mask, s);
      assert s[..1] == [s[0]];
    }
  }

  /** The x86 round trip, from a fresh start. */
  lemma RoundTrip(s: seq<byte>)
    ensures Convert(false, Convert(true, s, 0, 0), 0, 0) == s
  {
    ConvertInverts(s, 0, 0);
  }

  // ─── The converter in place ──────────────────────────────────────

  /** The operand's moves. The loop ends at the second round at the latest. */
  method MoveOperand(encode: bool, operand: u32, base: u32, mask: bv8) returns (dest: u32, ghost rounds: nat)
    requires MayConvert(mask) && mask & 0x11 == 0
    requires mask != 0 ==> !IsEdge(ByteAt(operand, 3 - BitNumber(mask)))
    ensures dest == Converted(encode, operand, base, Guard(mask))
    ensures 1 <= rounds <= 2
  {
    hide Move, FlipLow, ByteAt;
    MayConvertNamesOne(mask);
    var src := operand;
    rounds := 0;
    ghost var once := Move(encode, operand, base);
    while true
      invariant rounds == 0 ==> src == operand
      invariant rounds == 0 || (rounds == 1 && mask != 0 && IsEdge(ByteAt(once, Guard(mask)))
                                && src == FlipLow(once, Guard(mask)))
      decreases 2 - rounds
    {
      dest := Move(encode, src, base);
      rounds := rounds + 1;
      if mask == 0 {
        break;
      }
      var index := BitNumber(mask);
      SecondMoveComplements(encode, operand, base, 3 - index);
      var b := ByteAt(dest, 3 - index);
      if !IsEdge(b) {
        break;
      }
      src := FlipLow(dest, 3 - index);
    }
  }

  lemma {:induction false} ClearStaysClear(n: nat)
    ensures ShiftedBy(0, n) == 0
  {
    if n > 0 {
      ClearStaysClear(n - 1);
    }
  }

  /** The mask brought to the position of the marker found `offset` later. */
  method CatchUp(mask: bv8, offset: nat) returns (caught: bv8)
    ensures caught == ShiftedBy(mask, offset)
  {
    if offset > 5 {
      FiveShiftsClear(mask, offset);
      return 0;
    }
    caught := mask;
    for k := 0 to offset
      invariant caught == ShiftedBy(mask, k)
    {
      caught := caught & 0x77;
      caught := caught << 1;
    }
  }

  /** The bytes a converter settled, and the mask it leaves behind. */
  datatype Reached = Reached(out: seq<byte>, mask: bv8)

  function Reach(encode: bool, s: seq<byte>, mask: bv8, pos: nat): (r: Reached)
    ensures |r.out| <= |s|
    decreases |s|
  {
    if |s| < 5 then Reached([], mask) else
    var step := Step(encode, s, mask, pos);
    var rest := Reach(encode, s[|step.out|..], step.mask, pos + |step.out|);
    Reached(step.out + rest.out, rest.mask)
  }

  /** Conversion can stop where it got to and go on once more bytes came. */
  lemma {:induction false} ConvertSplit(encode: bool, s: seq<byte>, t: seq<byte>, mask: bv8, pos: nat)
    ensures var r := Reach(encode, s, mask, pos);
            && Convert(encode, s + t, mask, pos)
            == r.out + Convert(encode, s[|r.out|..] + t, r.mask, pos + |r.out|)
    decreases |s|
  {
    hide Step, Convert, Reach;
    if |s| < 5 {
      ReachShort(encode, s, mask, pos);
      assert s[0..] == s && [] + Convert(encode, s + t, mask, pos) == Convert(encode, s + t, mask, pos);
      return;
    }
    var out, rest, mask', pos' := FirstStep(encode, s, t, mask, pos);
    ConvertSplit(encode, rest, t, mask', pos');
    var r := Reach(encode, rest, mask', pos');
    DropDrop(s, |out|, |r.out|);
    Associates(out, r.out, Convert(encode, rest[|r.out|..] + t, r.mask, pos' + |r.out|));
  }

  lemma FirstStep(encode: bool, s: seq<byte>, t: seq<byte>, mask: bv8, pos: nat)
    returns (out: seq<byte>, rest: seq<byte>, mask': bv8, pos': nat)
    requires |s| >= 5
    ensures 1 <= |out| <= |s| && rest == s[|out|..] && pos' == pos + |out|
    ensures Convert(encode, s + t, mask, pos) == out + Convert(encode, rest + t, mask', pos')
    ensures var r := Reach(encode, rest, mask', pos');
            Reach(encode, s, mask, pos) == Reached(out + r.out, r.mask)
  {
    hide Step;
    StepIsLocal(encode, s, t, mask, pos);
    var step := Step(encode, s, mask, pos);
    out, rest, mask', pos' := step.out, s[|step.out|..], step.mask, pos + |step.out|;
    assert (s + t)[|out|..] == rest + t;
  }

  lemma StepIsLocal(encode: bool, s: seq<byte>, t: seq<byte>, mask: bv8, pos: nat)
    requires |s| >= 5
    ensures Step(encode, s + t, mask, pos) == Step(encode, s, mask, pos)
  {
    assert (s + t)[1..5] == s[1..5];
  }

  lemma StepTruthful(encode: bool, s: seq<byte>, mask: bv8, pos: nat)
    requires |s| >= 5 && Truthful(mask, s)
    ensures Truthful(Step(encode, s, mask, pos).mask, s[|Step(encode, s, mask, pos).out|..])
  {
    if !IsMarker(s[0]) {
      TruthfulShifts(mask, s);
    } else {
      TruthfulMarked(mask, s);
    }
  }

  lemma {:induction false} ReachTruthful(encode: bool, s: seq<byte>, mask: bv8, pos: nat)
    requires Truthful(mask, s)
    ensures Truthful(Reach(encode, s, mask, pos).mask, s[|Reach(encode, s, mask, pos).out|..])
    decreases |s|
  {
    hide Step, Truthful;
    if |s| < 5 {
      assert s[0..] == s;
    } else {
      var step := Step(encode, s, mask, pos);
      StepTruthful(encode, s, mask, pos);
      var rest := s[|step.out|..];
      ReachTruthful(encode, rest, step.mask, pos + |step.out|);
      DropDrop(s, |step.out|, |Reach(encode, rest, step.mask, pos + |step.out|).out|);
    }
  }

  lemma TruthfulGrows(mask: bv8, s: seq<byte>, t: seq<byte>)
    requires Truthful(mask, s)
    ensures Truthful(mask, s + t)
  {
  }

  /** One round of the converters' loop. `last` is the position of the marker
      before, of which the code keeps the low 32 bits. */
  method ConvertAt(encode: bool, buf: array<byte>, i: nat, at: nat, mask: bv8, prevPos: u32, ghost last: int)
    returns (next: nat, mask': bv8, prevPos': u32, ghost last': int)
    requires i + 5 <= buf.Length
    requires -5 <= last < at + i < last + TWO_32 && prevPos == Wrap32(last)
    requires Truthful(ShiftedBy(mask, at + i - last), buf[i..])
    modifies buf
    ensures var step := Step(encode, old(buf[i..]), ShiftedBy(mask, at + i - last), at + i);
            && next == i + |step.out| <= buf.Length
            && buf[i..next] == step.out
            && buf[..i] == old(buf[..i]) && buf[next..] == old(buf[next..])
            && last <= last' < at + next && prevPos' == Wrap32(last')
            && ShiftedBy(mask', at + next - last') == step.mask
  {
    hide Truthful, Step, ShiftedBy, Shifted;
    ghost var s := buf[i..];
    ghost var now := ShiftedBy(mask, at + i - last);
    if buf[i] != 0xE8 && buf[i] != 0xE9 {
      StepPlain(encode, s, now, at + i);
      assert buf[i..i + 1] == [s[0]];
      ShiftOnce(mask, at + i - last);
      return i + 1, mask, prevPos, last;
    }
    var here := Wrap32(at + i);
    var offset := Wrap32(here - prevPos);
    OffsetIsGap(at + i, last);
    var caught := CatchUp(mask, offset);
    next, mask' := ConvertMarker(encode, buf, i, at, caught);
    prevPos', last' := here, at + i;
  }

  lemma StepPlain(encode: bool, s: seq<byte>, mask: bv8, pos: nat)
    requires |s| >= 5 && !IsMarker(s[0])
    ensures Step(encode, s, mask, pos) == Stepped([s[0]], Shifted(mask))
  {
  }

  /** A marker: convert its operand, or note it in the mask. */
  method ConvertMarker(encode: bool, buf: array<byte>, i: nat, at: nat, mask: bv8)
    returns (next: nat, mask': bv8)
    requires i + 5 <= buf.Length
    requires Truthful(mask, buf[i..]) && IsMarker(buf[i])
    modifies buf
    ensures i < next <= buf.Length
    ensures buf[..i] == old(buf[..i]) && buf[next..] == old(buf[next..])
    ensures Step(encode, old(buf[i..]), mask, at + i) == Stepped(buf[i..next], ShiftedBy(mask', next - i))
  {
    hide Truthful, ConvertOperand, MayConvert, IsEdge, ShiftedBy, Shifted;
    ghost var s := buf[i..];
    assert s[4] == buf[i + 4];
    if IsEdge(buf[i + 4]) && MayConvert(mask) {
      WriteOperand(encode, buf, i, at, mask);
      assert s[1..5] == old(buf[i + 1..i + 5]) && old(buf[i..i + 1]) == [s[0]];
      ClearStaysClear(5);
      return i + 5, 0;
    } else {
      mask' := mask | 1;
      if IsEdge(buf[i + 4]) {
        mask' := mask' | 0x10;
      }
      assert mask' == Marked(mask, IsEdge(buf[i + 4]));
      ShiftOnce(mask', 0);
      assert buf[i..i + 1] == [s[0]];
      return i + 1, mask';
    }
  }

  lemma ShiftOnce(mask: bv8, n: nat)
    ensures ShiftedBy(mask, n + 1) == Shifted(ShiftedBy(mask, n))
    ensures n == 0 ==> ShiftedBy(mask, n) == mask
  {
  }

  lemma OffsetIsGap(here: nat, last: int)
    requires last < here < last + TWO_32
    ensures Wrap32(Wrap32(here) - Wrap32(last)) == here - last
  {
  }

  method WriteOperand(encode: bool, buf: array<byte>, i: nat, at: nat, mask: bv8)
    requires i + 5 <= buf.Length
    requires Truthful(mask, buf[i..]) && MayConvert(mask) && IsEdge(buf[i + 4])
    modifies buf
    ensures buf[i..i + 5] == old(buf[i..i + 1]) + ConvertOperand(encode, old(buf[i + 1..i + 5]), mask, at + i)
    ensures buf[..i] == old(buf[..i]) && buf[i + 5..] == old(buf[i + 5..])
  {
    hide Converted;
    MayConvertNamesOne(mask);
    ghost var operand := buf[i + 1..i + 5];
    BytesOfWord(operand, if mask == 0 then 0 else 3 - BitNumber(mask));
    var src := FromLe4(buf[i + 1..i + 5]);
    var base := Wrap32(at + i + 5);
    var dest, _ := MoveOperand(encode, src, base, mask);
    OperandBytes(dest);
    buf[i + 4] := if dest / 0x100_0000 % 2 == 0 then 0 else 0xFF;
    buf[i + 3] := dest / 0x1_0000 % 0x100;
    buf[i + 2] := dest / 0x100 % 0x100;
    buf[i + 1] := dest % 0x100;
    assert buf[i..i + 5] == [buf[i]] + ToLe4(SignExtend25(dest));
  }

  lemma OperandBytes(dest: u32)
    ensures ToLe4(SignExtend25(dest))
         == [dest % 0x100, dest / 0x100 % 0x100, dest / 0x1_0000 % 0x100,
             if dest / 0x100_0000 % 2 == 0 then 0 else 0xFF]
  {
    var low, top := ToLe4(dest), if dest / 0x100_0000 % 2 == 0 then 0 else 0xFF;
    Le4RoundTrip([low[0], low[1], low[2], top]);
    TopByte(dest);
  }

  lemma TopByte(dest: u32)
    ensures dest % 0x100_0000 == 0x100 * (0x100 * (ToLe4(dest)[2] as int) + ToLe4(dest)[1]) + ToLe4(dest)[0]
    ensures ToLe4(dest)[1] == dest / 0x100 % 0x100 && ToLe4(dest)[2] == dest / 0x1_0000 % 0x100
  {
    BytesOfWord(ToLe4(dest), 1);
    BytesOfWord(ToLe4(dest), 2);
  }

  /** A marker more than five bytes back counts as five back: by then the
      mask is clear either way. */
  method ClampGap(at: nat, mask: bv8, prevPos: u32, ghost last: int) returns (prevPos': u32, ghost last': int)
    requires -5 <= last < at < last + TWO_32 && prevPos == Wrap32(last)
    ensures last <= last' < at <= last' + 5 && prevPos' == Wrap32(last')
    ensures ShiftedBy(mask, at - last') == ShiftedBy(mask, at - last)
  {
    hide ShiftedBy;
    prevPos', last' := prevPos, last;
    OffsetIsGap(at, last);
    GapByPrev(at, last);
    if Wrap32(at - prevPos) > 5 {
      FiveShiftsClear(mask, at - last);
      FiveShiftsClear(mask, 5);
      prevPos' := Wrap32(at - 5);
      last' := at - 5;
    }
  }

  lemma GapByPrev(at: nat, last: int)
    ensures Wrap32(at - Wrap32(last)) == Wrap32(Wrap32(at) - Wrap32(last))
  {
  }

  /** Converts `buf`, the stream's bytes from position `at` on, in place.
      Positions may pass 4 GiB any number of times, as long as the last marker
      is not as far back as that; after a call it is near. */
  method X86(encode: bool, buf: array<byte>, at: nat, mask: bv8, prevPos: u32, ghost last: int)
    returns (done: nat, mask': bv8, prevPos': u32, ghost last': int)
    requires buf.Length < TWO_32
    requires -5 <= last < at < last + TWO_32 && prevPos == Wrap32(last)
    requires Truthful(ShiftedBy(mask, at - last), buf[..])
    modifies buf
    ensures var r := Reach(encode, old(buf[..]), ShiftedBy(mask, at - last), at);
            && done == |r.out| <= buf.Length
            && buf[..done] == r.out && buf[done..] == old(buf[done..])
            && last <= last' < at + done && prevPos' == Wrap32(last')
            && ShiftedBy(mask', at + done - last') == r.mask
    ensures buf.Length - done < 5
    ensures buf.Length >= 5 ==> at <= last' + 5
    ensures done == 0 || buf.Length >= 5
  {
    hide Step, Truthful, Reach, Continues, ShiftedBy;
    ghost var s := buf[..];
    ghost var now := ShiftedBy(mask, at - last);
    ReachShort(encode, s, now, at);
    ContinuesStart(encode, s, now, at);
    mask', prevPos', last' := mask, prevPos, last;
    if buf.Length < 5 {
      return 0, mask', prevPos', last';
    }
    prevPos', last' := ClampGap(at, mask, prevPos, last);
    var i := 0;
    ghost var out, left := [], s;
    while i + 5 <= buf.Length
      invariant i <= buf.Length && i == |out|
      invariant last <= last' < at + i && at <= last' + 5 && prevPos' == Wrap32(last')
      invariant buf[..i] == out && buf[i..] == left == s[i..]
      invariant Truthful(ShiftedBy(mask', at + i - last'), left)
      invariant Continues(encode, s, now, at, out, left, ShiftedBy(mask', at + i - last'))
      decreases buf.Length - i
    {
      ghost var m := ShiftedBy(mask', at + i - last');
      StepTruthful(encode, left, m, at + i);
      ContinuesStep(encode, s, now, at, out, left, m);
      ghost var settled := Step(encode, left, m, at + i).out;
      DropDrop(s, i, |settled|);
      ghost var i0 := i;
      i, mask', prevPos', last' := ConvertAt(encode, buf, i, at, mask', prevPos', last');
      assert buf[..i] == buf[..i0] + buf[i0..i];
      out := out + settled;
      left := left[|settled|..];
    }
    ContinuesEnd(encode, s, now, at, out, left, ShiftedBy(mask', at + i - last'));
    done := i;
  }

  /** Having settled `out`, the converter still has `left` to go. */
  ghost predicate Continues(encode: bool, s: seq<byte>, mask: bv8, pos: nat,
                            out: seq<byte>, left: seq<byte>, mask': bv8)
  {
    var r, rest := Reach(encode, s, mask, pos), Reach(encode, left, mask', pos + |out|);
    r.out == out + rest.out && r.mask == rest.mask
  }

  lemma ContinuesStart(encode: bool, s: seq<byte>, mask: bv8, pos: nat)
    ensures Continues(encode, s, mask, pos, [], s, mask)
  {
    hide Reach, Step;
    assert [] + Reach(encode, s, mask, pos).out == Reach(encode, s, mask, pos).out;
  }

  lemma ContinuesEnd(encode: bool, s: seq<byte>, mask: bv8, pos: nat, out: seq<byte>, left: seq<byte>, mask': bv8)
    requires |left| < 5 && Continues(encode, s, mask, pos, out, left, mask')
    ensures Reach(encode, s, mask, pos) == Reached(out, mask')
  {
    assert out + [] == out;
  }

  lemma ContinuesStep(encode: bool, s: seq<byte>, mask: bv8, pos: nat,
                      out: seq<byte>, left: seq<byte>, mask': bv8)
    requires |left| >= 5 && Continues(encode, s, mask, pos, out, left, mask')
    ensures var step := Step(encode, left, mask', pos + |out|);
            Continues(encode, s, mask, pos, out + step.out, left[|step.out|..], step.mask)
  {
    hide Step;
    var step := Step(encode, left, mask', pos + |out|);
    Associates(out, step.out, Reach(encode, left[|step.out|..], step.mask, pos + |out| + |step.out|).out);
  }

  lemma ReachShort(encode: bool, s: seq<byte>, mask: bv8, pos: nat)
    ensures |s| < 5 ==> Reach(encode, s, mask, pos) == Reached([], mask)
    ensures Reach(encode, s, mask, pos) == Reached([] + Reach(encode, s, mask, pos).out,
        Reach(encode, s, mask, pos).mask)
  {
  }

  /** What is not settled is too short to convert. */
  lemma {:induction false} ReachCovers(encode: bool, s: seq<byte>, mask: bv8, pos: nat)
    ensures var r := Reach(encode, s, mask, pos);
            && |s| - |r.out| < 5
            && Convert(encode, s, mask, pos) == r.out + s[|r.out|..]
    decreases |s|
  {
    hide Step, Reach, Convert;
    ReachShort(encode, s, mask, pos);
    if |s| < 5 {
      ConvertShort(encode, s, mask, pos);
      assert s[0..] == s && [] + s == s;
      return;
    }
    assert s + [] == s;
    var out, rest, mask', pos' := FirstStep(encode, s, [], mask, pos);
    assert rest + [] == rest;
    ReachCovers(encode, rest, mask', pos');
    var r := Reach(encode, rest, mask', pos');
    DropDrop(s, |out|, |r.out|);
    Associates(out, r.out, rest[|r.out|..]);
  }

  lemma ConvertShort(encode: bool, s: seq<byte>, mask: bv8, pos: nat)
    ensures |s| < 5 ==> Convert(encode, s, mask, pos) == s
  {
  }

  /** Encoding a buffer in place and then decoding it gives it back, for
      every buffer under 4 GiB. */
  method RoundTripInPlace(buf: array<byte>)
    requires buf.Length < TWO_32
    modifies buf
    ensures buf[..] == old(buf[..])
  {
    hide Convert, Reach;
    ghost var s := buf[..];
    ClearStaysClear(5);
    ReachCovers(true, s, 0, 0);
    var done, mask, prevPos, last := X86(true, buf, 0, 0, Wrap32(-5), -5);
    assert buf[..] == buf[..done] + buf[done..];
    ghost var x := buf[..];
    ReachCovers(false, x, 0, 0);
    done, mask, prevPos, last := X86(false, buf, 0, 0, Wrap32(-5), -5);
    assert buf[..] == buf[..done] + buf[done..];
    RoundTrip(s);
  }
}
