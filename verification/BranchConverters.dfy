/**
  The branch converters other than x86, over streams.

  Each settles one window at a time and rewrites it by its position. Decoding
  undoes encoding although a decoder looks at bytes that later windows have
  rewritten: what it looks at there, rewriting leaves alone.
 */
module BranchConverters {
  import opened Arithmetic
  import opened BranchWords
  import opened ByteBits
  import opened Bytes
  import opened FilterStage
  import Ia64
  import RiscV

  datatype Branch = Arm | ArmThumb | PowerPc | Sparc | Arm64 | Itanium | Riscv

  /** The bytes a converter looks at to settle the first of them. */
  function Look(b: Branch): (n: nat)
    ensures n == 4 || n == 8 || n == 16
  {
    match b
    case Itanium => 16
    case Riscv => 8
    case _ => 4
  }

  /** Windows start at multiples of this. */
  function Stride(b: Branch): (n: nat)
    ensures n > 0
  {
    match b
    case ArmThumb => 2
    case Riscv => 2
    case Itanium => 16
    case _ => 4
  }

  // ─── Bytes as machine words ──────────────────────────────────────

  function FourOf(s: seq<byte>): Four
    requires |s| >= 4
  {
    Four(BitsOf(s[0]), BitsOf(s[1]), BitsOf(s[2]), BitsOf(s[3]))
  }

  function BytesOf(w: Four): (s: seq<byte>)
    ensures |s| == 4
  {
    [ByteOf(w.a), ByteOf(w.b), ByteOf(w.c), ByteOf(w.d)]
  }

  lemma FourBack(s: seq<byte>, w: Four)
    ensures FourOf(BytesOf(w)) == w
    ensures |s| == 4 ==> BytesOf(FourOf(s)) == s
  {
    hide BitsOf, ByteOf;
    BitsBack(w.a);
    BitsBack(w.b);
    BitsBack(w.c);
    BitsBack(w.d);
    forall i | 0 <= i < |s| {
      ByteBack(s[i]);
    }
  }

  /** The low 32 bits of a stream position. */
  function Pc(pos: nat): bv32 {
    Le(FourOf(ToLe4(Wrap32(pos))))
  }

  lemma LowByte(w: Four)
    ensures w.a & 1 == 0 ==> Divides(1, Le(w))
    ensures w.a & 3 == 0 ==> Divides(3, Le(w))
    ensures w.a & 15 == 0 ==> Divides(15, Le(w))
  {
  }

  lemma PositionByte(pos: nat)
    ensures var b := ToLe4(Wrap32(pos))[0];
            b % 2 == pos % 2 && b % 4 == pos % 4 && b % 16 == pos % 16
  {
    ModMod(pos, 0x100, 0x100_0000);
    ModMod(pos, 2, 0x80);
    ModMod(pos, 4, 0x40);
    ModMod(pos, 16, 0x10);
  }

  lemma PcAligned(pos: nat)
    ensures pos % 2 == 0 ==> Divides(1, Pc(pos))
    ensures pos % 4 == 0 ==> Divides(3, Pc(pos))
    ensures pos % 16 == 0 ==> Divides(15, Pc(pos))
  {
    PositionByte(pos);
    hide Le, Divides, BitsOf, ToLe4, Wrap32;
    var s := ToLe4(Wrap32(pos));
    LowBits(s[0]);
    LowByte(FourOf(s));
  }

  // ─── One window ──────────────────────────────────────────────────

  function FiveOf(s: seq<byte>): Ia64.Five
    requires |s| >= 5
  {
    Ia64.Five(BitsOf(s[0]), BitsOf(s[1]), BitsOf(s[2]), BitsOf(s[3]), BitsOf(s[4]))
  }

  function BytesOfFive(f: Ia64.Five): (s: seq<byte>)
    ensures |s| == 5
  {
    [ByteOf(f.a), ByteOf(f.b), ByteOf(f.c), ByteOf(f.d), ByteOf(f.e)]
  }

  function BundleOf(s: seq<byte>): Ia64.Bundle
    requires |s| == 16
  {
    Ia64.Bundle(BitsOf(s[0]), FiveOf(s[1..]), FiveOf(s[6..]), FiveOf(s[11..]))
  }

  function BytesOfBundle(b: Ia64.Bundle): (s: seq<byte>)
    ensures |s| == 16
  {
    [ByteOf(b.first)] + BytesOfFive(b.x) + BytesOfFive(b.y) + BytesOfFive(b.z)
  }

  function SettleFour(encode: bool, b: Branch, w: Four, pc: bv32): Four {
    match b
    case Arm => ArmStep(encode, w, pc)
    case PowerPc => PowerPcStep(encode, w, pc)
    case Sparc => SparcStep(encode, w, pc)
    case _ => Arm64Step(encode, w, pc)
  }

  function SettleThumb(encode: bool, w: seq<byte>, pc: bv32): (out: seq<byte>)
    requires |w| == 4
    ensures |out| == 2 || |out| == 4
  {
    if ThumbMatches(FourOf(w)) then BytesOf(ThumbStep(encode, FourOf(w), pc)) else w[..2]
  }

  function SettleRiscv(encode: bool, w: seq<byte>, pc: bv32): (out: seq<byte>)
    requires |w| == 8
    ensures |out| == 2 || |out| == 4 || |out| == 6 || |out| == 8
  {
    var r := RiscV.Convert(encode, FourOf(w), FourOf(w[4..]), pc);
    (BytesOf(r.lo) + BytesOf(r.hi))[..r.step]
  }

  function SettleItanium(encode: bool, w: seq<byte>, pc: bv32): (out: seq<byte>)
    requires |w| == 16
    ensures |out| == 16
  {
    BytesOfBundle(Ia64.Convert(encode, BundleOf(w), pc))
  }

  /** What a window shows to the windows before it is the same in `s` and `t`. */
  predicate Alike(b: Branch, s: seq<byte>, t: seq<byte>) {
    match b
    case ArmThumb => |s| >= 2 && |t| >= 2 ==> BitsOf(s[1]) & 0xF8 == BitsOf(t[1]) & 0xF8
    case Riscv => |s| >= 1 && |t| >= 1 ==> RiscV.Opcode(BitsOf(s[0])) == RiscV.Opcode(BitsOf(t[0]))
    case _ => true
  }

  predicate IsFixed(b: Branch) {
    !b.ArmThumb? && !b.Riscv? && !b.Itanium?
  }

  lemma FourInverts(b: Branch, w: Four, pc: bv32)
    requires IsFixed(b) && Divides(3, pc)
    ensures SettleFour(false, b, SettleFour(true, b, w, pc), pc) == w
  {
    hide ArmStep, PowerPcStep, SparcStep, Arm64Step, Divides;
    match b {
      case Arm => ArmInverts(w, pc);
      case PowerPc => PowerPcInverts(w, pc);
      case Sparc => SparcInverts(w, pc);
      case Arm64 => Arm64Inverts(w, pc);
    }
  }

  lemma FourUndone(b: Branch, w: seq<byte>, pc: bv32)
    requires IsFixed(b) && Divides(3, pc) && |w| == 4
    ensures BytesOf(SettleFour(false, b, FourOf(BytesOf(SettleFour(true, b, FourOf(w), pc))), pc)) == w
  {
    hide SettleFour, FourOf, BytesOf, Divides;
    FourInverts(b, FourOf(w), pc);
    FourBack(w, SettleFour(true, b, FourOf(w), pc));
    FourBack(w, FourOf(w));
  }

  lemma ThumbLooks(w: Four, v: Four)
    requires v.b == w.b && v.d & 0xF8 == w.d & 0xF8
    ensures ThumbMatches(v) == ThumbMatches(w)
  {
  }

  lemma ThumbUndone(w: seq<byte>, tail: seq<byte>, pc: bv32)
    requires Divides(1, pc) && |w| == 4
    requires var out := SettleThumb(true, w, pc); |out| + |tail| == 4 && Alike(ArmThumb, tail, w[|out|..])
    ensures var out := SettleThumb(true, w, pc); SettleThumb(false, out + tail, pc) == w[..|out|]
  {
    hide ThumbMatches, ThumbStep, BitsOf, ByteOf, Divides;
    var out := SettleThumb(true, w, pc);
    var v := FourOf(w);
    if ThumbMatches(v) {
      ThumbInverts(v, pc);
      FourBack(w, ThumbStep(true, v, pc));
      assert tail == [] && out + tail == out;
    } else {
      ThumbLooks(v, FourOf(out + tail));
      assert (out + tail)[..2] == out;
    }
  }

  lemma ThumbAlike(w: seq<byte>, pc: bv32)
    requires |w| == 4
    ensures Alike(ArmThumb, SettleThumb(true, w, pc), w)
  {
    hide ThumbStep, BitsOf, ByteOf;
    var v := FourOf(w);
    if ThumbMatches(v) {
      FourBack(w, ThumbStep(true, v, pc));
      ThumbStays(v, pc);
    }
  }

  lemma ThumbStays(w: Four, pc: bv32)
    requires ThumbMatches(w)
    ensures ThumbStep(true, w, pc).b & 0xF8 == w.b & 0xF8
  {
    hide Turn;
    ThumbKeeps(Turn(true, ThumbTarget(w), Ahead(pc, 4)));
  }

  lemma EightBack(w: seq<byte>, lo: Four, hi: Four)
    requires |w| == 8
    ensures FourOf(BytesOf(lo) + BytesOf(hi)) == lo && FourOf((BytesOf(lo) + BytesOf(hi))[4..]) == hi
    ensures BytesOf(FourOf(w)) + BytesOf(FourOf(w[4..])) == w
  {
    hide BitsOf, ByteOf;
    FourBack(w[..4], lo);
    FourBack(w[4..], hi);
    assert (BytesOf(lo) + BytesOf(hi))[4..] == BytesOf(hi);
    assert w == w[..4] + w[4..];
  }

  /** Bytes that begin like those of two words. */
  lemma BeginsAs(lo: Four, hi: Four, tail: seq<byte>, n: nat)
    requires (n == 2 || n == 4 || n == 6 || n == 8) && n + |tail| == 8
    requires n == 6 ==> RiscV.Opcode(BitsOf(tail[0])) == RiscV.Opcode(hi.c)
    ensures var v := (BytesOf(lo) + BytesOf(hi))[..n] + tail;
            RiscV.Begins(lo, hi, FourOf(v), FourOf(v[4..]), n)
  {
    hide BitsOf, ByteOf, RiscV.Opcode;
    EightBack(seq(8, _ => 0), lo, hi);
  }

  lemma FrontBack(w: seq<byte>, lo: Four, hi: Four, n: nat)
    requires (n == 2 || n == 4 || n == 6 || n == 8) && |w| == 8
    requires RiscV.Begins(lo, hi, FourOf(w), FourOf(w[4..]), n)
    ensures (BytesOf(lo) + BytesOf(hi))[..n] == w[..n]
  {
    hide BitsOf, ByteOf, RiscV.Opcode;
    forall i | 0 <= i < 8 {
      ByteBack(w[i]);
    }
    assert forall i :: 0 <= i < 8 ==> ByteOf(BitsOf(w[i])) == w[i];
  }

  lemma RiscvUndone(w: seq<byte>, tail: seq<byte>, pc: bv32)
    requires Divides(1, pc) && |w| == 8
    requires var out := SettleRiscv(true, w, pc); |out| + |tail| == 8 && Alike(Riscv, tail, w[|out|..])
    ensures var out := SettleRiscv(true, w, pc); SettleRiscv(false, out + tail, pc) == w[..|out|]
  {
    hide RiscV.Convert, RiscV.Opcode, RiscV.Begins, BitsOf, ByteOf, BytesOf, Divides;
    var lo, hi := FourOf(w), FourOf(w[4..]);
    var e := RiscV.Convert(true, lo, hi, pc);
    var v := (BytesOf(e.lo) + BytesOf(e.hi))[..e.step] + tail;
    if e.step == 6 {
      RiscV.SixIsNone(true, lo, hi, pc);
      assert w[6..][0] == w[6] == w[4..][2];
    }
    BeginsAs(e.lo, e.hi, tail, e.step);
    RiscV.ConvertInverts(lo, hi, FourOf(v), FourOf(v[4..]), pc);
    var d := RiscV.Convert(false, FourOf(v), FourOf(v[4..]), pc);
    FrontBack(w, d.lo, d.hi, e.step);
  }

  lemma RiscvAlike(w: seq<byte>, pc: bv32)
    requires |w| == 8
    ensures Alike(Riscv, SettleRiscv(true, w, pc), w)
  {
    hide RiscV.Convert, RiscV.Opcode, BitsOf, ByteOf;
    var lo, hi := FourOf(w), FourOf(w[4..]);
    var e := RiscV.Convert(true, lo, hi, pc);
    RiscV.ConvertKeepsOpcode(lo, hi, pc);
    EightBack(w, e.lo, e.hi);
  }

  lemma FiveBack(s: seq<byte>, f: Ia64.Five)
    ensures FiveOf(BytesOfFive(f)) == f
    ensures |s| == 5 ==> BytesOfFive(FiveOf(s)) == s
  {
    hide BitsOf, ByteOf;
    BitsBack(f.a);
    BitsBack(f.b);
    BitsBack(f.c);
    BitsBack(f.d);
    BitsBack(f.e);
    forall i | 0 <= i < |s| {
      ByteBack(s[i]);
    }
  }

  lemma BundleBack(s: seq<byte>, b: Ia64.Bundle)
    ensures BundleOf(BytesOfBundle(b)) == b
    ensures |s| == 16 ==> BytesOfBundle(BundleOf(s)) == s
  {
    BitsBack(b.first);
    FiveBack([], b.x);
    FiveBack([], b.y);
    FiveBack([], b.z);
    hide BitsOf, ByteOf, BytesOfFive;
    var t := BytesOfBundle(b);
    FiveFront(t[1..], b.x);
    FiveFront(t[6..], b.y);
    FiveFront(t[11..], b.z);
    if |s| == 16 {
      ByteBack(s[0]);
      FiveBack(s[1..6], b.x);
      FiveBack(s[6..11], b.x);
      FiveBack(s[11..], b.x);
      FiveFront(s[1..], FiveOf(s[1..6]));
      FiveFront(s[6..], FiveOf(s[6..11]));
      assert s == [s[0]] + s[1..6] + s[6..11] + s[11..];
    }
  }

  lemma FiveFront(s: seq<byte>, f: Ia64.Five)
    requires |s| >= 5
    ensures FiveOf(s) == FiveOf(s[..5])
  {
  }

  lemma ItaniumUndone(w: seq<byte>, pc: bv32)
    requires Divides(15, pc) && |w| == 16
    ensures SettleItanium(false, SettleItanium(true, w, pc), pc) == w
  {
    hide Ia64.Convert, BundleOf, BytesOfBundle, Divides;
    BundleBack(w, Ia64.Convert(true, BundleOf(w), pc));
    Ia64.ConvertInverts(BundleOf(w), pc);
  }

  // ─── One window among others ─────────────────────────────────────

  /** The first bytes of a window, once the converter is done with them. */
  function Settle(encode: bool, b: Branch, w: seq<byte>, pc: bv32): (out: seq<byte>)
    requires |w| == Look(b)
    ensures 2 <= |out| <= |w|
  {
    match b
    case ArmThumb => SettleThumb(encode, w, pc)
    case Riscv => SettleRiscv(encode, w, pc)
    case Itanium => SettleItanium(encode, w, pc)
    case _ => BytesOf(SettleFour(encode, b, FourOf(w), pc))
  }

  lemma SettlesStrides(encode: bool, b: Branch, w: seq<byte>, pc: bv32)
    requires |w| == Look(b)
    ensures |Settle(encode, b, w, pc)| % Stride(b) == 0
  {
    hide SettleThumb, SettleRiscv, SettleItanium, SettleFour, FourOf, BytesOf;
  }

  lemma StrideKept(encode: bool, b: Branch, w: seq<byte>, pos: nat, pc: bv32)
    requires |w| == Look(b) && pos % Stride(b) == 0
    ensures (pos + |Settle(encode, b, w, pc)|) % Stride(b) == 0
  {
    hide Settle, Stride;
    SettlesStrides(encode, b, w, pc);
    ModAdd(pos, |Settle(encode, b, w, pc)|, Stride(b));
  }

  /** Windows start where the converter's encoder had them. */
  predicate Aligned(b: Branch, pc: bv32) {
    match b
    case ArmThumb => Divides(1, pc)
    case Riscv => Divides(1, pc)
    case Itanium => Divides(15, pc)
    case _ => Divides(3, pc)
  }

  lemma StartsAligned(b: Branch, pos: nat)
    requires pos % Stride(b) == 0
    ensures Aligned(b, Pc(pos))
  {
    hide Pc, Divides;
    PcAligned(pos);
  }

  /** Decoding settles the window as it was, whatever comes after the settled
      bytes, if it looks like what came after them. */
  lemma SettleUndone(b: Branch, w: seq<byte>, tail: seq<byte>, pc: bv32)
    requires |w| == Look(b) && Aligned(b, pc)
    requires var out := Settle(true, b, w, pc); |out| + |tail| == |w| && Alike(b, tail, w[|out|..])
    ensures var out := Settle(true, b, w, pc); Settle(false, b, out + tail, pc) == w[..|out|]
  {
    hide SettleThumb, SettleRiscv, SettleItanium, SettleFour, FourOf, BytesOf, Divides, Alike;
    var out := Settle(true, b, w, pc);
    match b {
      case ArmThumb => ThumbUndone(w, tail, pc);
      case Riscv => RiscvUndone(w, tail, pc);
      case Itanium =>
        ItaniumUndone(w, pc);
        assert out + tail == out && w[..16] == w;
      case _ =>
        FourUndone(b, w, pc);
        assert out + tail == out && w[..4] == w;
    }
  }

  lemma SettleAlike(b: Branch, w: seq<byte>, pc: bv32)
    requires |w| == Look(b)
    ensures Alike(b, Settle(true, b, w, pc), w)
  {
    hide SettleThumb, SettleRiscv, SettleItanium, SettleFour, FourOf, BytesOf;
    if b == ArmThumb {
      hide Alike;
      ThumbAlike(w, pc);
    } else if b == Riscv {
      hide Alike;
      RiscvAlike(w, pc);
    }
  }

  // ─── Streams ─────────────────────────────────────────────────────

  /** The converter of an architecture, as a stage takes it. */
  function Converter(encode: bool, b: Branch): Arch {
    Windowed(Look(b), (w, pos) => if |w| == Look(b) then Settle(encode, b, w, Pc(pos)) else w)
  }

  lemma ConverterIs(encode: bool, b: Branch)
    ensures WellFormed(Converter(encode, b)) && Converter(encode, b).Windowed? && Converter(encode, b).look == Look(b)
    ensures forall w: seq<byte>, pos: nat ::
              |w| == Look(b) ==> SettleWindow(Converter(encode, b), w, pos) == Settle(encode, b, w, Pc(pos))
  {
    hide Settle, Pc;
  }

  lemma AlikeFront(b: Branch, s: seq<byte>, t: seq<byte>, n: nat)
    requires Alike(b, s, t) && n <= |s| == |t|
    ensures Alike(b, s[..n], t[..n])
  {
  }

  lemma AlikeJoined(b: Branch, s: seq<byte>, s': seq<byte>, t: seq<byte>)
    requires 2 <= |s| <= |t| && Alike(b, s, t)
    ensures Alike(b, s + s', t)
  {
  }

  lemma AlikeSelf(b: Branch, s: seq<byte>)
    ensures Alike(b, s, s)
  {
  }

  lemma AlikeLonger(b: Branch, s: seq<byte>, t: seq<byte>, n: nat)
    requires 2 <= |s| <= n <= |t| && Alike(b, s, t[..n])
    ensures Alike(b, s, t)
  {
  }

  /** What encoding makes of a stream, from a window on. */
  function Encoded(b: Branch, s: seq<byte>, pos: nat): seq<byte> {
    ConverterIs(true, b);
    WindowConvert(Converter(true, b), s, pos)
  }

  function Decoded(b: Branch, s: seq<byte>, pos: nat): seq<byte> {
    ConverterIs(false, b);
    WindowConvert(Converter(false, b), s, pos)
  }

  lemma ConvertFirst(encode: bool, b: Branch, s: seq<byte>, pos: nat)
    requires |s| >= Look(b)
    ensures WellFormed(Converter(encode, b))
    ensures var out := Settle(encode, b, s[..Look(b)], Pc(pos));
            WindowConvert(Converter(encode, b), s, pos)
            == out + WindowConvert(Converter(encode, b), s[|out|..], pos + |out|)
  {
    hide Settle, Pc, WindowConvert, WindowReach;
    ConverterIs(encode, b);
    hide Converter, WellFormed;
    var out, rest := WindowFirst(Converter(encode, b), s, [], pos);
    assert s + [] == s && rest + [] == rest;
  }

  lemma ShortStays(encode: bool, b: Branch, s: seq<byte>, pos: nat)
    requires |s| < Look(b)
    ensures WellFormed(Converter(encode, b)) && WindowConvert(Converter(encode, b), s, pos) == s
  {
    hide Settle, Pc, WindowConvert, WindowReach;
    ConverterIs(encode, b);
    hide Converter, WellFormed;
    WindowShort(Converter(encode, b), s, pos);
    WindowCovers(Converter(encode, b), s, pos);
    assert [] + s[0..] == s;
  }

  /** Decoding undoes encoding, from any position where a window may start. */
  lemma {:induction false} EncodedUndone(b: Branch, s: seq<byte>, pos: nat)
    requires pos % Stride(b) == 0
    ensures |Encoded(b, s, pos)| == |s| && Alike(b, Encoded(b, s, pos), s)
    ensures Decoded(b, Encoded(b, s, pos), pos) == s
    decreases |s|
  {
    hide Settle, Pc, WindowConvert, Alike, Stride, Look, Converter, WellFormed, Aligned;
    if |s| < Look(b) {
      ShortStays(true, b, s, pos);
      ShortStays(false, b, s, pos);
      AlikeSelf(b, s);
      return;
    }
    var w := s[..Look(b)];
    var out := Settle(true, b, w, Pc(pos));
    var n, rest := |out|, s[|out|..];
    ConvertFirst(true, b, s, pos);
    StrideKept(true, b, w, pos, Pc(pos));
    EncodedUndone(b, rest, pos + n);
    // Decoding what was encoded: one window, then the rest.
    var e := Encoded(b, rest, pos + n);
    var tail, all := e[..Look(b) - n], out + e;
    AlikeFront(b, e, rest, Look(b) - n);
    assert rest[..Look(b) - n] == w[n..];
    StartsAligned(b, pos);
    SettleUndone(b, w, tail, Pc(pos));
    assert all[..Look(b)] == out + tail && all[n..] == e;
    ConvertFirst(false, b, all, pos);
    assert w[..n] == s[..n] && s == s[..n] + rest;
    SettleAlike(b, w, Pc(pos));
    AlikeLonger(b, out, s, Look(b));
    AlikeJoined(b, out, e, s);
  }

  /** A stage for any of the architectures, fed what the encoder wrote in
      pieces of any sizes and through any snapshots, emits the original. */
  method RoundTripChunked(b: Branch, plain: seq<byte>, takes: nat -> nat, rooms: nat -> nat, saves: nat -> bool)
    returns (out: seq<byte>)
    requires forall k :: takes(k) > 0 && rooms(k) > 0
    ensures out == plain
  {
    hide Encoded, Converter, WellFormed, WindowConvert;
    ConverterIs(false, b);
    EncodedUndone(b, plain, 0);
    var stage := new FilterDecompressor.Bcj(Converter(false, b));
    out := DecodeChunked(stage, Encoded(b, plain, 0), takes, rooms, saves);
  }
}
