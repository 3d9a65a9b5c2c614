/**
  The RISC-V converter: JAL, and AUIPC with the instruction after it.

  An encoded pair is marked with the register x2, so a pair that already has
  that mark is swapped around too, and decoding can tell the two apart.
 */
module RiscV {
  import opened BranchWords

  // ─── JAL ─────────────────────────────────────────────────────────

  /** The relative target, whose bits the instruction scrambles. */
  function JalTarget(w: Four): bv32 {
    ((Wide(w.b & 0xF0) << 8) | (Wide(w.c & 0x0F) << 16) | (Wide(w.c & 0x10) << 7) | (Wide(w.c & 0xE0) >> 4)
     | (Wide(w.d & 0x7F) << 4) | (Wide(w.d & 0x80) << 13))
  }

  /** The absolute target, in order. */
  function AbsTarget(w: Four): bv32 {
    (Wide(w.b & 0xF0) << 13) | (Wide(w.c) << 9) | (Wide(w.d) << 1)
  }

  function WithAbs(w: Four, addr: bv32): Four {
    Four(w.a, (w.b & 0x0F) | Low8((addr >> 13) & 0xF0), Low8(addr >> 9), Low8(addr >> 1))
  }

  function WithJal(w: Four, addr: bv32): Four {
    Four(w.a, (w.b & 0x0F) | Low8((addr >> 8) & 0xF0),
         Low8(((addr >> 16) & 0x0F) | ((addr >> 7) & 0x10) | ((addr << 4) & 0xE0)),
         Low8(((addr >> 4) & 0x7F) | ((addr >> 13) & 0x80)))
  }

  function Jal(encode: bool, w: Four, pc: bv32): Four {
    if encode then WithAbs(w, Turn(true, JalTarget(w), pc)) else WithJal(w, Turn(false, AbsTarget(w), pc))
  }

  function LowNibble(x: bv8): bv8 {
    x & 0x0F
  }

  lemma JalKeeps(w: Four, y: bv32)
    requires Divides(1, y)
    ensures WithAbs(w, y).a == w.a && LowNibble(WithAbs(w, y).b) == LowNibble(w.b)
    ensures Keep(AbsTarget(WithAbs(w, y)), 0x1F_FFFF) == Keep(y, 0x1F_FFFF)
  {
  }

  lemma JalRestores(w: Four, v: Four, z: bv32)
    requires v.a == w.a && LowNibble(v.b) == LowNibble(w.b)
    requires Keep(z, 0x1F_FFFF) == Keep(JalTarget(w), 0x1F_FFFF)
    ensures WithJal(v, z) == w
  {
  }

  lemma JalEven(w: Four)
    ensures Divides(1, JalTarget(w))
  {
  }

  lemma JalInverts(w: Four, pc: bv32)
    requires Divides(1, pc)
    ensures var v := Jal(true, w, pc);
            v.a == w.a && LowNibble(v.b) == LowNibble(w.b) && Jal(false, v, pc) == w
  {
    hide JalTarget, AbsTarget, WithAbs, WithJal, LowNibble, Turn, Keep, Divides;
    var x := JalTarget(w);
    var y := Turn(true, x, pc);
    var v := WithAbs(w, y);
    JalEven(w);
    TurnAligned(x, pc);
    JalKeeps(w, y);
    TurnsBack(x, AbsTarget(v), pc, 0x1F_FFFF);
    JalRestores(w, v, Turn(false, AbsTarget(v), pc));
  }

  // ─── AUIPC ───────────────────────────────────────────────────────

  /** Whether the second instruction is a load, store or addition at the
      register that AUIPC sets. */
  predicate NotPair(auipc: bv32, inst2: bv32) {
    ((auipc << 8) ^ (inst2 - 3)) & 0xF_8003 != 0
  }

  predicate NotSpecial(auipc: bv32, rs1: bv32) {
    ((auipc - 0x3117) << 18) >= (rs1 & 0x1D)
  }

  /** A destination register other than x0 and x2. */
  predicate IsPlain(inst: bv32) {
    inst & 0xE80 != 0
  }

  predicate IsAuipc(inst: bv32) {
    inst & 0x7F == 0x17
  }

  function Upper(x: bv32): bv32 {
    x & 0xFFFF_F000
  }

  function Top(inst: bv32): bv32 {
    inst >> 27
  }

  /** The twelve-bit immediate of the second instruction, and its sign. */
  function Imm(inst2: bv32): bv32 {
    inst2 >> 20
  }

  function Borrow(inst2: bv32): bv32 {
    (inst2 >> 19) & 0x1000
  }

  function PairTarget(inst: bv32, inst2: bv32): bv32 {
    Add(Upper(inst), Less(Imm(inst2), Borrow(inst2)))
  }

  /** AUIPC x2 holding the low bits of the second instruction. */
  function Marked(inst2: bv32): bv32 {
    0x17 | 0x100 | (inst2 << 12)
  }

  /** AUIPC with this register and upper part. */
  function Auipc(rd: bv32, upper: bv32): bv32 {
    0x17 | (rd << 7) | upper
  }

  /** The low bits of one word, carried in another, and an address. */
  function Unmarked(inst: bv32, addr: bv32): bv32 {
    (inst >> 12) | Carried(addr)
  }

  function Carried(addr: bv32): bv32 {
    addr << 20
  }

  function Rounded(addr: bv32): bv32 {
    Upper(Add(addr, 0x800))
  }

  function Sum(inst: bv32, inst2: bv32): bv32 {
    Add(Upper(inst), Imm(inst2))
  }

  datatype Rewritten = Rewritten(step: nat, lo: Four, hi: Four)

  function PairEncode(inst: bv32, inst2: bv32, pc: bv32): Rewritten {
    Rewritten(8, FromLe(Marked(inst2)), FromBe(Turn(true, PairTarget(inst, inst2), pc)))
  }

  function PairDecode(inst: bv32, inst2: bv32): Rewritten {
    Rewritten(8, FromLe(Marked(inst2)), FromLe(Sum(inst, inst2)))
  }

  function SpecialEncode(inst: bv32, addr: bv32): Rewritten {
    Rewritten(8, FromLe(Auipc(Top(inst), Upper(addr))), FromLe(Unmarked(inst, addr)))
  }

  function SpecialDecode(inst: bv32, abs: bv32, pc: bv32): Rewritten {
    var addr := Turn(false, abs, pc);
    Rewritten(8, FromLe(Auipc(Top(inst), Rounded(addr))), FromLe(Unmarked(inst, addr)))
  }

  // ─── What the tests mean ─────────────────────────────────────────

  predicate Paired(inst: bv32, inst2: bv32) {
    inst2 & 3 == 3 && (inst >> 7) & 0x1F == (inst2 >> 15) & 0x1F
  }

  predicate Special(inst: bv32) {
    inst & 0x3FFF == 0x3117 && (inst >> 27) & 0x1D != 0
  }

  /** With the low bits set, taking 3 away clears them and borrows nothing. */
  lemma LessThree(inst2: bv32)
    ensures inst2 & 3 == 3 ==> inst2 - 3 == inst2 & 0xFFFF_FFFC
    ensures inst2 & 3 != 3 ==> (inst2 - 3) & 3 != 0
  {
  }

  lemma PairedWhen(inst: bv32, inst2: bv32)
    requires inst2 & 3 == 3
    ensures ((inst << 8) ^ (inst2 & 0xFFFF_FFFC)) & 0xF_8003 == 0 <==> (inst >> 7) & 0x1F == (inst2 >> 15) & 0x1F
  {
  }

  lemma UnpairedWhen(inst: bv32, w: bv32)
    requires w & 3 != 0
    ensures ((inst << 8) ^ w) & 0xF_8003 != 0
  {
  }

  lemma PairIs(inst: bv32, inst2: bv32)
    ensures NotPair(inst, inst2) <==> !Paired(inst, inst2)
  {
    LessThree(inst2);
    if inst2 & 3 == 3 {
      PairedWhen(inst, inst2);
    } else {
      UnpairedWhen(inst, inst2 - 3);
    }
  }

  lemma SpecialIs(inst: bv32)
    ensures NotSpecial(inst, Top(inst)) <==> !Special(inst)
  {
    if inst & 0x3FFF == 0x3117 {
      assert (inst - 0x3117) << 18 == 0;
    } else {
      assert (inst - 0x3117) << 18 >= 0x4_0000;
    }
  }

  lemma PairLooks(inst: bv32, hi: Four, other: Four)
    requires hi.a == other.a && hi.b == other.b && hi.c & 0x7F == other.c & 0x7F
    ensures Paired(inst, Le(hi)) == Paired(inst, Le(other))
  {
  }

  // ─── Pairs ───────────────────────────────────────────────────────

  lemma MarkedIs(inst: bv32, inst2: bv32)
    requires IsPlain(inst) && Paired(inst, inst2)
    ensures !IsPlain(Marked(inst2)) && Special(Marked(inst2)) && IsAuipc(Marked(inst2))
  {
  }

  lemma SplitSum(u: bv32, m: bv32, b: bv32)
    requires u & 0xFFF == 0 && m & 0xFFFF_F000 == 0 && b == (m << 1) & 0x1000
    ensures ((u + (m - b)) + 0x800) & 0xFFFF_F000 == u
    ensures (u + (m - b)) << 20 == m << 20
  {
    if m & 0x800 == 0 {
      assert b == 0;
    } else {
      assert b == 0x1000;
    }
  }

  lemma RoundedSum(u: bv32, m: bv32, b: bv32)
    ensures Rounded(Add(u, Less(m, b))) == ((u + (m - b)) + 0x800) & 0xFFFF_F000
  {
    calc {
      Rounded(Add(u, Less(m, b)));
      Rounded(Add(u, m - b));
      Rounded(u + (m - b));
      Upper(Add(u + (m - b), 0x800));
      Upper((u + (m - b)) + 0x800);
      ((u + (m - b)) + 0x800) & 0xFFFF_F000;
    }
  }

  lemma CarriedSum(u: bv32, m: bv32, b: bv32)
    ensures Carried(Add(u, Less(m, b))) == (u + (m - b)) << 20
    ensures Carried(m) == m << 20
  {
    calc {
      Carried(Add(u, Less(m, b)));
      Carried(Add(u, m - b));
      Carried(u + (m - b));
      (u + (m - b)) << 20;
    }
  }

  lemma SplitTarget(u: bv32, m: bv32, b: bv32)
    requires u & 0xFFF == 0 && m & 0xFFFF_F000 == 0 && b == (m << 1) & 0x1000
    ensures Rounded(Add(u, Less(m, b))) == u
    ensures Carried(Add(u, Less(m, b))) == Carried(m)
  {
    hide Rounded, Add, Less, Carried;
    SplitSum(u, m, b);
    RoundedSum(u, m, b);
    CarriedSum(u, m, b);
  }

  lemma TargetParts(inst: bv32, inst2: bv32)
    ensures Upper(inst) & 0xFFF == 0 && Imm(inst2) & 0xFFFF_F000 == 0
    ensures Borrow(inst2) == (Imm(inst2) << 1) & 0x1000
  {
  }

  lemma SignedTarget(inst: bv32, inst2: bv32)
    ensures Rounded(PairTarget(inst, inst2)) == Upper(inst)
    ensures Carried(PairTarget(inst, inst2)) == Carried(Imm(inst2))
  {
    hide Upper, Imm, Borrow, Add, Less, Rounded, Carried;
    TargetParts(inst, inst2);
    SplitTarget(Upper(inst), Imm(inst2), Borrow(inst2));
  }

  lemma AuipcBack(inst: bv32, inst2: bv32)
    requires IsAuipc(inst) && Paired(inst, inst2)
    ensures Auipc(Top(Marked(inst2)), Upper(inst)) == inst
  {
  }

  lemma UnmarkedBack(inst2: bv32, x: bv32)
    requires Carried(x) == Carried(Imm(inst2))
    ensures Unmarked(Marked(inst2), x) == inst2
  {
  }

  lemma PairInverts(inst: bv32, inst2: bv32, pc: bv32)
    requires IsAuipc(inst) && Paired(inst, inst2)
    ensures SpecialDecode(Marked(inst2), Turn(true, PairTarget(inst, inst2), pc), pc)
         == Rewritten(8, FromLe(inst), FromLe(inst2))
  {
    var x := PairTarget(inst, inst2);
    SignedTarget(inst, inst2);
    UnmarkedBack(inst2, x);
    AuipcBack(inst, inst2);
    hide Turn, PairTarget, Rounded, Upper, Marked, Unmarked, Auipc, Top, FromLe, Imm, Carried;
    TurnsBackWhole(x, pc);
  }

  lemma TurnsBackWhole(x: bv32, pc: bv32)
    ensures Turn(false, Turn(true, x, pc), pc) == x
  {
    hide Add, Less;
    AddBack(x, pc);
  }

  /** AUIPC that looks like an encoded pair, and the pair it is encoded as. */
  lemma SpecialLooks(inst: bv32, addr: bv32)
    requires Special(inst)
    ensures var e := Auipc(Top(inst), Upper(addr));
            IsPlain(e) && IsAuipc(e) && Paired(e, Unmarked(inst, addr))
  {
  }

  lemma SpecialBack(inst: bv32, addr: bv32)
    requires Special(inst)
    ensures Marked(Unmarked(inst, addr)) == inst
    ensures Upper(Auipc(Top(inst), Upper(addr))) == Upper(addr) && Imm(Unmarked(inst, addr)) == addr & 0xFFF
  {
  }

  lemma UpperAndRest(addr: bv32)
    ensures Add(Upper(addr), addr & 0xFFF) == addr
  {
    calc {
      Add(Upper(addr), addr & 0xFFF);
      Add(addr & 0xFFFF_F000, addr & 0xFFF);
      (addr & 0xFFFF_F000) + (addr & 0xFFF);
      addr;
    }
  }

  lemma SpecialSum(inst: bv32, addr: bv32)
    requires Special(inst)
    ensures Marked(Unmarked(inst, addr)) == inst
    ensures Sum(Auipc(Top(inst), Upper(addr)), Unmarked(inst, addr)) == addr
  {
    hide Special, Marked, Unmarked, Auipc, Top, Add, Upper, Imm;
    SpecialBack(inst, addr);
    UpperAndRest(addr);
  }

  // ─── One window ──────────────────────────────────────────────────

  function Opcode(x: bv8): bv8 {
    x & 0x7F
  }

  /** A jump that does not link through x1 or x5. */
  predicate IsFar(w: Four) {
    LowNibble(w.b) & 0x0D != 0
  }

  /** The first `step` bytes of the result are final. */
  function Convert(encode: bool, lo: Four, hi: Four, pc: bv32): (r: Rewritten)
    ensures r.step == 2 || r.step == 4 || r.step == 6 || r.step == 8
  {
    if lo.a == 0xEF then
      if IsFar(lo) then Rewritten(2, lo, hi) else Rewritten(4, Jal(encode, lo, pc), hi)
    else if Opcode(lo.a) == 0x17 then
      var inst := Le(lo);
      if IsPlain(inst) then
        if NotPair(inst, Le(hi)) then Rewritten(6, lo, hi)
        else if encode then PairEncode(inst, Le(hi), pc)
        else PairDecode(inst, Le(hi))
      else if NotSpecial(inst, Top(inst)) then Rewritten(4, lo, hi)
      else if encode then SpecialEncode(inst, Le(hi))
      else SpecialDecode(inst, Be(hi), pc)
    else Rewritten(2, lo, hi)
  }

  /** The bytes from `n` on matter no more; of the one at 6, the opcode does. */
  predicate Begins(lo: Four, hi: Four, lo': Four, hi': Four, n: nat) {
    && lo'.a == lo.a && lo'.b == lo.b
    && (n >= 4 ==> lo' == lo)
    && (n >= 6 ==> hi'.a == hi.a && hi'.b == hi.b && Opcode(hi'.c) == Opcode(hi.c))
    && (n >= 8 ==> hi' == hi)
  }

  lemma OpcodeOf(w: Four, x: bv32)
    ensures Opcode(w.a) == 0x17 <==> IsAuipc(Le(w))
    ensures w.a == 0xEF ==> Opcode(w.a) != 0x17
    ensures IsAuipc(x) ==> Opcode(FromLe(x).a) == 0x17
  {
  }

  lemma PairStep(lo: Four, hi: Four, pc: bv32)
    requires Opcode(lo.a) == 0x17 && IsPlain(Le(lo)) && !NotPair(Le(lo), Le(hi))
    ensures var e := PairEncode(Le(lo), Le(hi), pc);
            && e.step == 8 && Opcode(e.lo.a) == 0x17 && e.lo.a != 0xEF
            && Convert(false, e.lo, e.hi, pc) == Rewritten(8, lo, hi)
  {
    hide Jal, IsFar, IsPlain, NotPair, NotSpecial, Paired, Special, IsAuipc, Opcode;
    hide Le, FromLe, Be, FromBe, PairTarget, Turn, Marked, Top, SpecialDecode, PairDecode;
    var inst, inst2 := Le(lo), Le(hi);
    var mark, abs := Marked(inst2), Turn(true, PairTarget(inst, inst2), pc);
    OpcodeOf(lo, mark);
    OpcodeOf(FromLe(mark), mark);
    PairIs(inst, inst2);
    MarkedIs(inst, inst2);
    SpecialIs(mark);
    LeBack(lo, mark);
    LeBack(hi, abs);
    PairInverts(inst, inst2, pc);
  }

  lemma SpecialStep(lo: Four, hi: Four, pc: bv32)
    requires Opcode(lo.a) == 0x17 && !IsPlain(Le(lo)) && !NotSpecial(Le(lo), Top(Le(lo)))
    ensures var e := SpecialEncode(Le(lo), Le(hi));
            && e.step == 8 && Opcode(e.lo.a) == 0x17 && e.lo.a != 0xEF
            && Convert(false, e.lo, e.hi, pc) == Rewritten(8, lo, hi)
  {
    hide Jal, IsFar, IsPlain, NotPair, NotSpecial, Paired, Special, IsAuipc, Opcode;
    hide Le, FromLe, Be, FromBe, Top, Auipc, Upper, Marked, Unmarked, Sum, SpecialDecode;
    var inst, addr := Le(lo), Le(hi);
    var first, second := Auipc(Top(inst), Upper(addr)), Unmarked(inst, addr);
    SpecialIs(inst);
    SpecialLooks(inst, addr);
    OpcodeOf(FromLe(first), first);
    PairIs(first, second);
    LeBack(lo, first);
    LeBack(hi, second);
    SpecialSum(inst, addr);
  }

  lemma JalFirst(w: Four, pc: bv32)
    ensures Jal(true, w, pc).a == w.a
  {
  }

  lemma FarLooks(w: Four, v: Four)
    requires LowNibble(w.b) == LowNibble(v.b)
    ensures IsFar(w) == IsFar(v)
  {
  }

  /** The first byte keeps its opcode, whatever it begins. */
  lemma ConvertKeepsOpcode(lo: Four, hi: Four, pc: bv32)
    ensures Opcode(Convert(true, lo, hi, pc).lo.a) == Opcode(lo.a)
  {
    hide Jal, IsFar, IsPlain, NotPair, NotSpecial, PairEncode, SpecialEncode, Le, Opcode, Top;
    JalFirst(lo, pc);
    if Opcode(lo.a) == 0x17 && lo.a != 0xEF {
      if IsPlain(Le(lo)) && !NotPair(Le(lo), Le(hi)) {
        PairStep(lo, hi, pc);
      } else if !IsPlain(Le(lo)) && !NotSpecial(Le(lo), Top(Le(lo))) {
        SpecialStep(lo, hi, pc);
      }
    }
  }

  /** Decoding a window that begins as encoding left it gives back what
      encoding took. */
  lemma ConvertInverts(lo: Four, hi: Four, lo': Four, hi': Four, pc: bv32)
    requires Divides(1, pc)
    requires var e := Convert(true, lo, hi, pc); Begins(e.lo, e.hi, lo', hi', e.step)
    ensures var e, d := Convert(true, lo, hi, pc), Convert(false, lo', hi', pc);
            d.step == e.step && Begins(d.lo, d.hi, lo, hi, e.step)
  {
    hide Jal, IsFar, IsPlain, NotPair, NotSpecial, PairEncode, SpecialEncode, PairDecode, SpecialDecode, Le, Be, Opcode;
    hide LowNibble, Top, Paired, Divides;
    if lo.a == 0xEF {
      JalInverts(lo, pc);
      FarLooks(lo, if IsFar(lo) then lo' else Jal(true, lo, pc));
    } else if Opcode(lo.a) == 0x17 {
      if IsPlain(Le(lo)) {
        if NotPair(Le(lo), Le(hi)) {
          PairIs(Le(lo), Le(hi));
          PairIs(Le(lo), Le(hi'));
          OpcodeLooks(hi, hi');
          PairLooks(Le(lo), hi, hi');
        } else {
          PairStep(lo, hi, pc);
        }
      } else if !NotSpecial(Le(lo), Top(Le(lo))) {
        SpecialStep(lo, hi, pc);
      }
    }
  }

  /** Six bytes are only ever passed over. */
  lemma SixIsNone(encode: bool, lo: Four, hi: Four, pc: bv32)
    requires Convert(encode, lo, hi, pc).step == 6
    ensures Convert(encode, lo, hi, pc) == Rewritten(6, lo, hi)
  {
    hide Jal, IsFar, IsPlain, NotPair, NotSpecial, Le, Be, FromLe, FromBe, Opcode, Top;
  }

  lemma OpcodeLooks(w: Four, v: Four)
    requires Opcode(w.c) == Opcode(v.c)
    ensures w.c & 0x7F == v.c & 0x7F
  {
  }
}
