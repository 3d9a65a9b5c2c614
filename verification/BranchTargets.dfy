/**
  What decoding a branch means: the target that an encoded instruction holds
  counts from the start of the stream, and the one it is left with counts from
  where the architecture takes the instruction to be. Targets and tests are
  read off the bytes here, bit by bit.
 */
module BranchTargets {
  import opened BranchConverters
  import opened BranchWords
  import opened ByteBits
  import opened Bytes
  import Ia64
  import RiscV

  /** A target as the instruction at `pc` counts it, from `n` bytes on. */
  function From(x: bv32, pc: bv32, n: bv32): bv32 {
    x - (pc + n)
  }

  lemma TurnIs(x: bv32, pc: bv32, n: bv32)
    ensures Turn(false, x, Ahead(pc, n)) == From(x, pc, n)
  {
  }

  lemma TurnHere(x: bv32, pc: bv32)
    ensures Turn(false, x, pc) == From(x, pc, 0)
  {
  }

  lemma FromAligned(x: bv32, pc: bv32)
    ensures Divides(1, x) && Divides(1, pc) ==> Divides(1, From(x, pc, 0)) && Divides(1, From(x, pc, 4))
    ensures Divides(3, x) && Divides(3, pc) ==> Divides(3, From(x, pc, 0)) && Divides(3, From(x, pc, 8))
    ensures Divides(15, x) && Divides(15, pc) ==> Divides(15, From(x, pc, 0))
  {
    assert x & 1 == 0 && pc & 1 == 0 ==> (x - (pc + 0)) & 1 == 0;
    assert x & 1 == 0 && pc & 1 == 0 ==> (x - (pc + 4)) & 1 == 0;
    assert x & 3 == 0 && pc & 3 == 0 ==> (x - (pc + 0)) & 3 == 0;
    assert x & 3 == 0 && pc & 3 == 0 ==> (x - (pc + 8)) & 3 == 0;
    assert x & 15 == 0 && pc & 15 == 0 ==> (x - (pc + 0)) & 15 == 0;
  }

  // ─── Bytes and positions ─────────────────────────────────────────

  /** A byte is the sum of its bits. */
  lemma BitsAre(x: bv8)
    ensures ByteOf(x) == (if x & 0x80 != 0 then 128 else 0) + (if x & 0x40 != 0 then 64 else 0)
                      + (if x & 0x20 != 0 then 32 else 0) + (if x & 0x10 != 0 then 16 else 0)
                      + (if x & 8 != 0 then 8 else 0) + (if x & 4 != 0 then 4 else 0)
                      + (if x & 2 != 0 then 2 else 0) + (if x & 1 != 0 then 1 else 0)
  {
    assert (x >> 4) & 8 != 0 <==> x & 0x80 != 0;
    assert (x >> 4) & 4 != 0 <==> x & 0x40 != 0;
    assert (x >> 4) & 2 != 0 <==> x & 0x20 != 0;
    assert (x >> 4) & 1 != 0 <==> x & 0x10 != 0;
    assert (x & 15) & 8 == x & 8 && (x & 15) & 4 == x & 4 && (x & 15) & 2 == x & 2 && (x & 15) & 1 == x & 1;
  }

  /** A word's number, its bytes the lowest first. */
  function NumberOf(x: bv32): nat {
    var w := FromLe(x);
    ByteOf(w.a) + 0x100 * ByteOf(w.b) + 0x1_0000 * ByteOf(w.c) + 0x100_0000 * ByteOf(w.d)
  }

  /** A position is counted in 32 bits. */
  lemma PositionIs(pos: nat)
    ensures NumberOf(Pc(pos)) == pos % 0x1_0000_0000
  {
    hide BitsOf, ByteOf, Le, FromLe, ToLe4;
    var s := ToLe4(Wrap32(pos));
    LeOfFour(FourOf(s));
    ByteBack(s[0]);
    ByteBack(s[1]);
    ByteBack(s[2]);
    ByteBack(s[3]);
    assert FromLe4(s) == Wrap32(pos);
  }

  /** Bytes in memory order. */
  lemma InOrder(s: seq<byte>, w: Four)
    requires |s| >= 4
    ensures var v := FourOf(s);
            ByteOf(v.a) == s[0] && ByteOf(v.b) == s[1] && ByteOf(v.c) == s[2] && ByteOf(v.d) == s[3]
    ensures BytesOf(w) == [ByteOf(w.a), ByteOf(w.b), ByteOf(w.c), ByteOf(w.d)]
  {
    hide BitsOf, ByteOf;
    ByteBack(s[0]);
    ByteBack(s[1]);
    ByteBack(s[2]);
    ByteBack(s[3]);
  }

  // ─── ARM ─────────────────────────────────────────────────────────

  /** The low 24 bits, times four. */
  function ArmOffset(w: Four): bv32 {
    ((w.c as bv32) << 18) | ((w.b as bv32) << 10) | ((w.a as bv32) << 2)
  }

  lemma ArmBits(a: bv8, b: bv8, c: bv8)
    ensures ((((c as bv32) << 16) | ((b as bv32) << 8) | (a as bv32)) << 2)
         == (((c as bv32) << 18) | ((b as bv32) << 10) | ((a as bv32) << 2))
  {
  }

  lemma ArmReads(w: Four)
    ensures ArmTarget(w) == ArmOffset(w) && Divides(3, ArmOffset(w))
  {
    ArmBits(w.a, w.b, w.c);
  }

  lemma ArmWrites(w: Four, y: bv32)
    requires Divides(3, y)
    ensures ArmOffset(WithArm(w, y)) == Keep(y, 0x3FF_FFFF) && WithArm(w, y).d == w.d
  {
  }

  /** BL, whose target counts from two instructions on. */
  lemma ArmMeans(w: Four, pc: bv32)
    requires Divides(3, pc)
    ensures var v := SettleFour(false, Arm, w, pc);
            if w.d == 0xEB then v.d == 0xEB && ArmOffset(v) == Keep(From(ArmOffset(w), pc, 8), 0x3FF_FFFF) else v == w
  {
    hide ArmTarget, ArmOffset, WithArm, Turn, Ahead, From, Keep, Divides;
    ArmReads(w);
    TurnIs(ArmOffset(w), pc, 8);
    FromAligned(ArmOffset(w), pc);
    ArmWrites(w, From(ArmOffset(w), pc, 8));
  }

  // ─── ARM Thumb ───────────────────────────────────────────────────

  /** Eleven bits of each half, times two. */
  function ThumbOffset(w: Four): bv32 {
    (((w.b as bv32) & 7) << 20) | ((w.a as bv32) << 12) | (((w.d as bv32) & 7) << 9) | ((w.c as bv32) << 1)
  }

  lemma ThumbReads(w: Four)
    ensures ThumbTarget(w) == ThumbOffset(w) && Divides(1, ThumbOffset(w))
  {
  }

  lemma ThumbWrites(y: bv32)
    requires Divides(1, y)
    ensures ThumbOffset(WithThumb(y)) == Keep(y, 0x7F_FFFF)
  {
  }

  /** A pair that makes a BL. */
  predicate IsLongCall(w: Four) {
    w.b & 0xF8 == 0xF0 && w.d & 0xF8 == 0xF8
  }

  lemma ThumbWhen(w: Four)
    ensures ThumbMatches(w) <==> IsLongCall(w)
  {
  }

  /** Its target counts from after it. */
  lemma ThumbMeans(w: Four, pc: bv32)
    requires Divides(1, pc)
    ensures var v := ThumbStep(false, w, pc);
            IsLongCall(v) && ThumbOffset(v) == Keep(From(ThumbOffset(w), pc, 4), 0x7F_FFFF)
  {
    hide ThumbTarget, ThumbOffset, WithThumb, IsLongCall, Turn, Ahead, From, Keep, Divides;
    ThumbReads(w);
    TurnIs(ThumbOffset(w), pc, 4);
    FromAligned(ThumbOffset(w), pc);
    ThumbWrites(From(ThumbOffset(w), pc, 4));
    ThumbStays(From(ThumbOffset(w), pc, 4));
  }

  lemma ThumbStays(y: bv32)
    ensures IsLongCall(WithThumb(y))
  {
  }

  /** Such a pair is settled as a whole, and of any other the first half. */
  lemma ThumbWindow(w: seq<byte>, pc: bv32)
    requires |w| == 4 && Divides(1, pc)
    ensures var out := SettleThumb(false, w, pc);
            if IsLongCall(FourOf(w)) then
              && |out| == 4 && IsLongCall(FourOf(out))
              && ThumbOffset(FourOf(out)) == Keep(From(ThumbOffset(FourOf(w)), pc, 4), 0x7F_FFFF)
            else out == w[..2]
  {
    hide ThumbMatches, ThumbStep, ThumbOffset, IsLongCall, FourOf, BytesOf, From, Keep, Divides;
    ThumbWhen(FourOf(w));
    ThumbMeans(FourOf(w), pc);
    FourBack(w, ThumbStep(false, FourOf(w), pc));
  }

  // ─── PowerPC ─────────────────────────────────────────────────────

  /** Bits 2 to 25, in place. */
  function PowerPcOffset(w: Four): bv32 {
    (((w.a as bv32) << 24) | ((w.b as bv32) << 16) | ((w.c as bv32) << 8) | (w.d as bv32)) & 0x3FF_FFFC
  }

  predicate IsRelativeCall(w: Four) {
    w.a & 0xFC == 0x48 && w.d & 3 == 1
  }

  lemma PowerPcReads(w: Four)
    ensures PowerPcTarget(w) == PowerPcOffset(w) && Divides(3, PowerPcOffset(w))
    ensures PowerPcMatches(w) <==> IsRelativeCall(w)
  {
  }

  lemma PowerPcWrites(w: Four, y: bv32)
    requires Divides(3, y) && IsRelativeCall(w)
    ensures PowerPcOffset(WithPowerPc(w, y)) == Keep(y, 0x3FF_FFFF) && IsRelativeCall(WithPowerPc(w, y))
  {
  }

  /** A relative branch with link. */
  lemma PowerPcMeans(w: Four, pc: bv32)
    requires Divides(3, pc)
    ensures var v := SettleFour(false, PowerPc, w, pc);
            if IsRelativeCall(w) then
              IsRelativeCall(v) && PowerPcOffset(v) == Keep(From(PowerPcOffset(w), pc, 0), 0x3FF_FFFF)
            else v == w
  {
    hide PowerPcMatches, PowerPcTarget, PowerPcOffset, IsRelativeCall, WithPowerPc, Turn, From, Keep, Divides;
    PowerPcReads(w);
    TurnHere(PowerPcOffset(w), pc);
    FromAligned(PowerPcOffset(w), pc);
    if IsRelativeCall(w) {
      PowerPcWrites(w, From(PowerPcOffset(w), pc, 0));
    }
  }

  // ─── SPARC ───────────────────────────────────────────────────────

  /** The low 23 bits, times four. */
  function SparcOffset(w: Four): bv32 {
    (((w.b as bv32) & 0x7F) << 18) | ((w.c as bv32) << 10) | ((w.d as bv32) << 2)
  }

  /** CALL with a displacement whose upper bits are all alike. */
  predicate IsNearCall(w: Four) {
    (w.a == 0x40 && w.b & 0xC0 == 0) || (w.a == 0x7F && w.b & 0xC0 == 0xC0)
  }

  lemma SparcReads(w: Four)
    ensures Keep(SparcTarget(w), 0x1FF_FFFF) == SparcOffset(w) && Divides(3, SparcTarget(w))
    ensures SparcMatches(w) <==> IsNearCall(w)
  {
  }

  lemma FromIs(x: bv32, pc: bv32)
    ensures From(x, pc, 0) == Less(x, pc)
  {
  }

  lemma FromCut(x: bv32, pc: bv32)
    ensures Keep(From(Keep(x, 0x1FF_FFFF), pc, 0), 0x1FF_FFFF) == Keep(From(x, pc, 0), 0x1FF_FFFF)
  {
    hide Keep, From, Less;
    FromIs(x, pc);
    FromIs(Keep(x, 0x1FF_FFFF), pc);
    KeepFirst25(x, pc);
  }

  lemma SparcMeans(w: Four, pc: bv32)
    requires Divides(3, pc)
    ensures var v := SettleFour(false, Sparc, w, pc);
            if IsNearCall(w) then IsNearCall(v) && SparcOffset(v) == Keep(From(SparcOffset(w), pc, 0), 0x1FF_FFFF)
            else v == w
  {
    hide SparcMatches, WithSparc, SparcTarget, SparcOffset, IsNearCall, Turn, From, Keep, Divides;
    var x := SparcTarget(w);
    SparcReads(w);
    TurnHere(x, pc);
    FromAligned(x, pc);
    SparcKeeps(From(x, pc, 0));
    SparcReads(WithSparc(From(x, pc, 0)));
    FromCut(x, pc);
  }

  // ─── ARM64 ───────────────────────────────────────────────────────

  predicate IsCall26(instr: bv32) {
    instr & 0xFC00_0000 == 0x9400_0000
  }

  /** BL holds words, in 26 bits. */
  function BlOffset(instr: bv32): bv32 {
    instr & 0x3FF_FFFF
  }

  lemma BlWhen(instr: bv32)
    ensures IsBl(instr) <==> IsCall26(instr)
  {
  }

  lemma BlWrites(y: bv32)
    ensures IsCall26(WithBl(y)) && BlOffset(WithBl(y)) == Keep(y, 0x3FF_FFFF)
  {
  }

  function Shift(pc: bv32, n: bv32): bv32 {
    if n == 2 then pc >> 2 else pc >> 12
  }

  lemma ShiftIs(pc: bv32)
    ensures Quarter(pc) == Shift(pc, 2) && Page(pc) == Shift(pc, 12)
  {
  }

  lemma BlMeans(instr: bv32, pc: bv32)
    requires IsCall26(instr)
    ensures var v := Arm64Word(false, instr, pc);
            IsCall26(v) && BlOffset(v) == Keep(From(instr, Shift(pc, 2), 0), 0x3FF_FFFF)
  {
    hide IsBl, IsAdrp, IsNear, AdrpPage, WithBl, IsCall26, BlOffset, Turn, From, Keep, Quarter, Page, Shift;
    BlWhen(instr);
    ShiftIs(pc);
    TurnHere(instr, Quarter(pc));
    BlWrites(From(instr, Quarter(pc), 0));
  }

  /** The page an ADRP adds, of 21 bits; of a near one 18 count. */
  function PageOf(instr: bv32): bv32 {
    ((instr >> 29) & 3) | (((instr >> 5) & 0x7_FFFF) << 2)
  }

  predicate NearAdrp(instr: bv32) {
    instr & 0x9F00_0000 == 0x9000_0000 && (instr & 0xF0_0000 == 0 || instr & 0xF0_0000 == 0xF0_0000)
  }

  /** The register it sets. */
  function Register(instr: bv32): bv32 {
    instr & 0x1F
  }

  lemma AdrpReads(instr: bv32)
    ensures AdrpPage(instr) == PageOf(instr)
  {
  }

  lemma AdrpRegister(instr: bv32, y: bv32)
    ensures Register(WithAdrp(instr, y)) == Register(instr)
  {
  }

  lemma AdrpWhen(instr: bv32)
    ensures IsAdrp(instr) && IsNear(AdrpPage(instr)) <==> NearAdrp(instr)
    ensures NearAdrp(instr) ==> !IsBl(instr)
  {
    hide IsNear, AdrpPage;
    NearIs(instr);
  }

  /** An ADRP of a page within 512 MiB. */
  lemma AdrpMeans(instr: bv32, pc: bv32)
    requires NearAdrp(instr)
    ensures var v := Arm64Word(false, instr, pc);
            && NearAdrp(v) && Register(v) == Register(instr)
            && Keep(PageOf(v), 0x3_FFFF) == Keep(From(PageOf(instr), Shift(pc, 12), 0), 0x3_FFFF)
  {
    hide IsBl, IsAdrp, IsNear, AdrpPage, NearAdrp, WithAdrp, PageOf, Register, Turn, From, Keep, Quarter, Page, Shift,
         Fixed;
    var y := From(PageOf(instr), Page(pc), 0);
    AdrpWhen(instr);
    ShiftIs(pc);
    AdrpReads(instr);
    TurnHere(PageOf(instr), Page(pc));
    AdrpKeepsPage(instr, y);
    AdrpReads(WithAdrp(instr, y));
    AdrpRegister(instr, y);
    AdrpKeeps(instr, y);
    AdrpWhen(WithAdrp(instr, y));
  }

  /** Every other instruction stays as it is. */
  lemma OthersStay(instr: bv32, pc: bv32)
    requires !IsCall26(instr) && !NearAdrp(instr)
    ensures Arm64Word(false, instr, pc) == instr
  {
    hide IsBl, IsAdrp, IsNear, AdrpPage, NearAdrp, IsCall26;
    BlWhen(instr);
    AdrpWhen(instr);
  }

  // ─── IA-64 ───────────────────────────────────────────────────────

  /** Bundles: 20 bits from bit 13 and one at bit 36, times sixteen. */
  function SlotOffset(n: bv64): bv32 {
    ((((n >> 13) & 0xF_FFFF) as bv32) << 4) | ((((n >> 36) & 1) as bv32) << 24)
  }

  /** Opcode 5 and type 0. */
  predicate IsSlotBranch(n: bv64) {
    n & 0x1E0_0000_0000 == 0xA0_0000_0000 && n & 0xE00 == 0
  }

  /** The bits that are not the target's. */
  function Beside(n: bv64): bv64 {
    n & 0xFFFF_FFEE_0000_1FFF
  }

  lemma SlotReads(n: bv64)
    ensures Ia64.Target(n) == SlotOffset(n) && Divides(15, SlotOffset(n))
    ensures Keep(SlotOffset(n), 0x1FF_FFFF) == SlotOffset(n)
  {
  }

  lemma BranchWhen(n: bv64)
    ensures Ia64.IsBranch(n) <==> IsSlotBranch(n)
  {
  }

  lemma SlotBeside(n: bv64, y: bv32)
    ensures Beside(Ia64.WithTarget(n, y)) == Beside(n)
  {
    Ia64.BranchKeeps(n, y);
    hide Ia64.WithTarget;
  }

  lemma SlotMeans(n: bv64, pc: bv32)
    requires Divides(15, pc)
    ensures Ia64.IsBranch(n) <==> IsSlotBranch(n)
    ensures var v := Ia64.Branch(false, n, pc);
            SlotOffset(v) == Keep(From(SlotOffset(n), pc, 0), 0x1FF_FFFF) && Beside(v) == Beside(n)
  {
    hide SlotOffset, Beside, IsSlotBranch, Ia64.IsBranch, Ia64.WithTarget, Ia64.Target, Turn, From, Keep, Divides;
    BranchWhen(n);
    var y := From(SlotOffset(n), pc, 0);
    SlotReads(n);
    TurnHere(SlotOffset(n), pc);
    FromAligned(SlotOffset(n), pc);
    Ia64.TargetPlaced(n, y);
    SlotReads(Ia64.WithTarget(n, y));
    SlotBeside(n, y);
  }

  /** The slots of the templates that have any for branches: MIB, MMB and MFB
      the last, MBB two, and BBB all three. */
  lemma TemplatesAre(first: bv8, slot: Ia64.Place)
    ensures var kind := first & 0x1E;
            Ia64.HasBranch(Ia64.BRANCH_TABLE[Ia64.Template(first)], slot) <==>
              || kind == 0x16 || (kind == 0x12 && slot >= 1)
              || ((kind == 0x10 || kind == 0x18 || kind == 0x1C) && slot == 2)
  {
  }

  // The slots of a bundle, as one number of 128 bits.

  function Bits(f: Ia64.Five): bv128 {
    (f.a as bv128) | ((f.b as bv128) << 8) | ((f.c as bv128) << 16) | ((f.d as bv128) << 24) | ((f.e as bv128) << 32)
  }

  function BundleBits(b: Ia64.Bundle): bv128 {
    (b.first as bv128) | (Bits(b.x) << 8) | (Bits(b.y) << 48) | (Bits(b.z) << 88)
  }

  const SLOT_BITS: bv64 := 0x1FF_FFFF_FFFF

  lemma Slot0Lies(b: Ia64.Bundle)
    ensures ((BundleBits(b) >> 5) & 0x1FF_FFFF_FFFF) as bv64
         == Ia64.Inner(0, Ia64.Word(Ia64.Six(b.first, b.x))) & SLOT_BITS
  {
  }

  lemma Slot1Lies(b: Ia64.Bundle)
    ensures ((BundleBits(b) >> 46) & 0x1FF_FFFF_FFFF) as bv64
         == Ia64.Inner(1, Ia64.Word(Ia64.Six(b.x.e, b.y))) & SLOT_BITS
  {
  }

  lemma Slot2Lies(b: Ia64.Bundle)
    ensures ((BundleBits(b) >> 87) & 0x1FF_FFFF_FFFF) as bv64
         == Ia64.Inner(2, Ia64.Word(Ia64.Six(b.y.e, b.z))) & SLOT_BITS
  {
  }

  // ─── RISC-V ──────────────────────────────────────────────────────

  /** The immediate of JAL, whose bits are 20, 10 to 1, 11 and 19 to 12. */
  function JalOffset(x: bv32): bv32 {
    ((x >> 31) << 20) | (((x >> 21) & 0x3FF) << 1) | (((x >> 20) & 1) << 11) | (((x >> 12) & 0xFF) << 12)
  }

  /** An encoded one holds bits 20 to 1 in order, the upper ones first. */
  function JalAbsolute(w: Four): bv32 {
    (((w.b as bv32) >> 4) << 17) | ((w.c as bv32) << 9) | ((w.d as bv32) << 1)
  }

  /** What of the first two bytes is not the target's. */
  predicate SameJal(v: Four, w: Four) {
    v.a == w.a && v.b & 15 == w.b & 15
  }

  lemma JalReads(w: Four)
    ensures RiscV.AbsTarget(w) == JalAbsolute(w) && Divides(1, JalAbsolute(w))
  {
  }

  lemma JalWrites(w: Four, y: bv32)
    requires Divides(1, y)
    ensures SameJal(RiscV.WithJal(w, y), w) && JalOffset(Le(RiscV.WithJal(w, y))) == Keep(y, 0x1F_FFFF)
  {
  }

  lemma JalMeans(w: Four, pc: bv32)
    requires Divides(1, pc)
    ensures var v := RiscV.Jal(false, w, pc);
            SameJal(v, w) && JalOffset(Le(v)) == Keep(From(JalAbsolute(w), pc, 0), 0x1F_FFFF)
  {
    hide RiscV.AbsTarget, RiscV.WithJal, JalAbsolute, JalOffset, SameJal, Le, Turn, From, Keep, Divides;
    JalReads(w);
    TurnHere(JalAbsolute(w), pc);
    FromAligned(JalAbsolute(w), pc);
    JalWrites(w, From(JalAbsolute(w), pc, 0));
  }

  /** What a pair adds to the position: the upper part of one instruction and
      the upper twelve bits, signed, of the other. */
  function PairOffset(auipc: bv32, inst2: bv32): bv32 {
    Signed(auipc & 0xFFFF_F000, inst2 >> 20)
  }

  function Signed(high: bv32, low: bv32): bv32 {
    if low & 0x800 == 0 then high + low else high + low - 0x1000
  }

  lemma SumOfParts(addr: bv32)
    ensures Signed((addr + 0x800) & 0xFFFF_F000, addr & 0xFFF) == addr
  {
  }

  lemma UpperWritten(rd: bv32, u: bv32)
    requires rd & 0xFFFF_FFE0 == 0 && u & 0xFFF == 0
    ensures RiscV.Auipc(rd, u) & 0xFFFF_F000 == u && RiscV.Auipc(rd, u) & 0xFFF == 0x17 | (rd << 7)
  {
  }

  lemma UpperIs(inst: bv32, addr: bv32)
    ensures RiscV.Rounded(addr) == (addr + 0x800) & 0xFFFF_F000
    ensures ((addr + 0x800) & 0xFFFF_F000) & 0xFFF == 0
    ensures RiscV.Top(inst) & 0xFFFF_FFE0 == 0 && RiscV.Top(inst) == inst >> 27
  {
  }

  lemma LowerWritten(inst: bv32, addr: bv32)
    ensures RiscV.Unmarked(inst, addr) >> 20 == addr & 0xFFF
    ensures RiscV.Unmarked(inst, addr) & 0xF_FFFF == inst >> 12
  {
  }

  lemma PairWritten(inst: bv32, addr: bv32)
    ensures PairOffset(RiscV.Auipc(RiscV.Top(inst), RiscV.Rounded(addr)), RiscV.Unmarked(inst, addr)) == addr
  {
    hide RiscV.Auipc, RiscV.Top, RiscV.Rounded, RiscV.Unmarked, Signed;
    UpperIs(inst, addr);
    UpperWritten(RiscV.Top(inst), RiscV.Rounded(addr));
    LowerWritten(inst, addr);
    SumOfParts(addr);
  }

  /** What a mark says of the pair: the register, and the second instruction
      without its immediate. */
  predicate IsMarkOf(inst: bv32, auipc: bv32, inst2: bv32) {
    auipc & 0xFFF == 0x17 | ((inst >> 27) << 7) && inst2 & 0xF_FFFF == inst >> 12
  }

  lemma MarkRead(inst: bv32, addr: bv32)
    ensures IsMarkOf(inst, RiscV.Auipc(RiscV.Top(inst), RiscV.Rounded(addr)), RiscV.Unmarked(inst, addr))
  {
    hide RiscV.Auipc, RiscV.Top, RiscV.Rounded, RiscV.Unmarked;
    UpperIs(inst, addr);
    UpperWritten(RiscV.Top(inst), RiscV.Rounded(addr));
    LowerWritten(inst, addr);
  }

  /** A decoded pair adds the encoded target less the position. */
  lemma PairMeans(inst: bv32, abs: bv32, pc: bv32)
    ensures var r := RiscV.SpecialDecode(inst, abs, pc);
            && r.step == 8 && PairOffset(Le(r.lo), Le(r.hi)) == From(abs, pc, 0)
            && IsMarkOf(inst, Le(r.lo), Le(r.hi))
  {
    hide RiscV.Auipc, RiscV.Top, RiscV.Rounded, RiscV.Unmarked, Turn, From, Le, FromLe, PairOffset, IsMarkOf;
    var addr := From(abs, pc, 0);
    TurnHere(abs, pc);
    PairWritten(inst, addr);
    MarkRead(inst, addr);
    FourOfLe(RiscV.Auipc(RiscV.Top(inst), RiscV.Rounded(addr)));
    FourOfLe(RiscV.Unmarked(inst, addr));
  }

  // What decoding does with the two instructions at hand.

  predicate IsJal(inst: bv32) {
    inst & 0x7F == 0x6F
  }

  function Destination(inst: bv32): bv32 {
    (inst >> 7) & 0x1F
  }

  lemma JalWhen(w: Four)
    ensures w.a == 0xEF && !RiscV.IsFar(w) <==> IsJal(Le(w)) && (Destination(Le(w)) == 1 || Destination(Le(w)) == 5)
  {
  }

  lemma PlainWhen(inst: bv32)
    ensures RiscV.IsPlain(inst) <==> Destination(inst) != 0 && Destination(inst) != 2
  {
  }

  function BigEndian(w: Four): bv32 {
    ((w.a as bv32) << 24) | ((w.b as bv32) << 16) | ((w.c as bv32) << 8) | (w.d as bv32)
  }

  lemma BigEndianIs(w: Four)
    ensures Be(w) == BigEndian(w)
  {
  }

  /** A link by x1 or x5 is the four bytes of a JAL, an instruction that is
      neither that nor AUIPC is passed over in two. */
  lemma JalWindow(lo: Four, hi: Four, pc: bv32)
    requires Divides(1, pc) && Le(lo) & 0x7F != 0x17
    ensures var r := RiscV.Convert(false, lo, hi, pc);
            if IsJal(Le(lo)) && (Destination(Le(lo)) == 1 || Destination(Le(lo)) == 5) then
              && r.step == 4 && r.hi == hi && SameJal(r.lo, lo)
              && JalOffset(Le(r.lo)) == Keep(From(JalAbsolute(lo), pc, 0), 0x1F_FFFF)
            else r == RiscV.Rewritten(2, lo, hi)
  {
    OpcodeIs(lo);
    JalWhen(lo);
    JalMeans(lo, pc);
    hide RiscV.Opcode, RiscV.IsFar, RiscV.Jal, IsJal, Destination, JalAbsolute, JalOffset, SameJal, Le, From, Keep,
         Divides;
  }

  lemma OpcodeIs(w: Four)
    ensures RiscV.Opcode(w.a) == 0x17 <==> Le(w) & 0x7F == 0x17
    ensures w.a == 0xEF ==> RiscV.Opcode(w.a) != 0x17
  {
  }

  /** Base register and length of an instruction that may follow AUIPC. */
  predicate UsesRegister(inst2: bv32, rd: bv32) {
    inst2 & 3 == 3 && (inst2 >> 15) & 0x1F == rd
  }

  /** The mark of an encoded pair: AUIPC of x2 whose upper bits are an
      instruction that uses a register other than x0 and x2. */
  predicate IsMark(inst: bv32) {
    Destination(inst) == 2 && (inst >> 12) & 3 == 3 && (inst >> 27) != 0 && (inst >> 27) != 2
  }

  lemma UsesWhen(inst: bv32, inst2: bv32)
    ensures RiscV.NotPair(inst, inst2) <==> !UsesRegister(inst2, Destination(inst))
  {
    RiscV.PairIs(inst, inst2);
    hide RiscV.NotPair;
  }

  lemma MarkWhen(inst: bv32)
    requires inst & 0x7F == 0x17
    ensures RiscV.NotSpecial(inst, RiscV.Top(inst)) <==> !IsMark(inst)
  {
    RiscV.SpecialIs(inst);
    hide RiscV.NotSpecial, RiscV.Top;
  }

  /** AUIPC: a mark becomes the pair it stands for, a pair that could be taken
      for one is put back, and all others are passed over. */
  lemma AuipcWindow(lo: Four, hi: Four, pc: bv32)
    requires Le(lo) & 0x7F == 0x17
    ensures var r, rd := RiscV.Convert(false, lo, hi, pc), Destination(Le(lo));
            if rd == 0 || rd == 2 then
              if IsMark(Le(lo)) then
                && r.step == 8 && PairOffset(Le(r.lo), Le(r.hi)) == From(BigEndian(hi), pc, 0)
                && IsMarkOf(Le(lo), Le(r.lo), Le(r.hi))
              else r == RiscV.Rewritten(4, lo, hi)
            else if UsesRegister(Le(hi), rd) then
              && r.step == 8 && Le(r.lo) == MarkFor(Le(hi)) && Le(r.hi) == Unsigned(Le(lo), Le(hi))
            else r == RiscV.Rewritten(6, lo, hi)
  {
    OpcodeIs(lo);
    PlainWhen(Le(lo));
    UsesWhen(Le(lo), Le(hi));
    MarkWhen(Le(lo));
    BigEndianIs(hi);
    PairMeans(Le(lo), BigEndian(hi), pc);
    PutBack(Le(lo), Le(hi));
    hide RiscV.Opcode, RiscV.IsPlain, RiscV.NotPair, RiscV.NotSpecial, RiscV.Top, RiscV.SpecialDecode, RiscV.PairDecode,
         Destination, UsesRegister, IsMark, IsMarkOf, MarkFor, Unsigned, PairOffset, BigEndian, Le, Be, From;
  }

  /** AUIPC of x2 with the low bits of an instruction. */
  function MarkFor(inst2: bv32): bv32 {
    0x117 | (inst2 << 12)
  }

  function Unsigned(auipc: bv32, inst2: bv32): bv32 {
    (auipc & 0xFFFF_F000) + (inst2 >> 20)
  }

  lemma SumIs(inst: bv32, inst2: bv32)
    ensures RiscV.Sum(inst, inst2) == Unsigned(inst, inst2)
  {
  }

  lemma MarkedAs(inst2: bv32)
    ensures RiscV.Marked(inst2) == MarkFor(inst2)
  {
  }

  lemma PutBack(inst: bv32, inst2: bv32)
    ensures var r := RiscV.PairDecode(inst, inst2);
            r.step == 8 && Le(r.lo) == MarkFor(inst2) && Le(r.hi) == Unsigned(inst, inst2)
  {
    hide RiscV.Marked, RiscV.Sum, MarkFor, Unsigned, Le, FromLe;
    MarkedAs(inst2);
    SumIs(inst, inst2);
    FourOfLe(RiscV.Marked(inst2));
    FourOfLe(RiscV.Sum(inst, inst2));
  }
}
