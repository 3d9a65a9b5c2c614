/**
  The instructions that the branch converters rewrite, as machine words.

  An operand is taken out of its instruction, turned from relative to
  absolute or back, and put in again. Taking out and putting in only move
  bits; turning loses the bits the operand has no room for, and loses the
  same ones on the way back.
 */
module BranchWords {
  /** Four bytes in memory order. */
  datatype Four = Four(a: bv8, b: bv8, c: bv8, d: bv8)

  function Low8(x: bv32): bv8 {
    (x & 0xFF) as bv8
  }

  function Wide(x: bv8): bv32 {
    x as bv32
  }

  function Le(w: Four): bv32 {
    (Wide(w.d) << 24) | (Wide(w.c) << 16) | (Wide(w.b) << 8) | Wide(w.a)
  }

  function FromLe(x: bv32): Four {
    Four(Low8(x), Low8(x >> 8), Low8(x >> 16), Low8(x >> 24))
  }

  function Be(w: Four): bv32 {
    (Wide(w.a) << 24) | (Wide(w.b) << 16) | (Wide(w.c) << 8) | Wide(w.d)
  }

  function FromBe(x: bv32): Four {
    Four(Low8(x >> 24), Low8(x >> 16), Low8(x >> 8), Low8(x))
  }

  // ─── Relative and absolute ───────────────────────────────────────

  function Add(x: bv32, y: bv32): bv32 {
    x + y
  }

  function Less(x: bv32, y: bv32): bv32 {
    x - y
  }

  /** Encoding adds the position, decoding takes it away. */
  function Turn(encode: bool, x: bv32, pc: bv32): bv32 {
    if encode then Add(x, pc) else Less(x, pc)
  }

  /** The bits an operand has room for. */
  function Keep(x: bv32, m: bv32): bv32 {
    x & m
  }

  predicate Divides(m: bv32, x: bv32) {
    x & m == 0
  }

  lemma AddBack(x: bv32, pc: bv32)
    ensures Less(Add(x, pc), pc) == x
  {
    calc {
      Less(Add(x, pc), pc);
      Less(x + pc, pc);
      x + pc - pc;
      x;
    }
  }

  lemma LessIs(x: bv32, y: bv32)
    ensures Less(x, y) == x - y
  {
  }

  lemma KeepIs(x: bv32, m: bv32)
    ensures Keep(x, m) == x & m
  {
  }

  lemma CutFirst26(y: bv32, c: bv32, pc: bv32)
    requires c == y & 0x3FF_FFFF
    ensures (c - pc) & 0x3FF_FFFF == (y - pc) & 0x3FF_FFFF
  {
  }

  lemma KeepFirst26(y: bv32, pc: bv32)
    ensures Keep(Less(Keep(y, 0x3FF_FFFF), pc), 0x3FF_FFFF) == Keep(Less(y, pc), 0x3FF_FFFF)
  {
    hide Keep, Less;
    var c := Keep(y, 0x3FF_FFFF);
    KeepIs(y, 0x3FF_FFFF);
    LessIs(c, pc);
    LessIs(y, pc);
    KeepIs(c - pc, 0x3FF_FFFF);
    KeepIs(y - pc, 0x3FF_FFFF);
    CutFirst26(y, c, pc);
  }

  lemma CutFirst25(y: bv32, c: bv32, pc: bv32)
    requires c == y & 0x1FF_FFFF
    ensures (c - pc) & 0x1FF_FFFF == (y - pc) & 0x1FF_FFFF
  {
  }

  lemma KeepFirst25(y: bv32, pc: bv32)
    ensures Keep(Less(Keep(y, 0x1FF_FFFF), pc), 0x1FF_FFFF) == Keep(Less(y, pc), 0x1FF_FFFF)
  {
    hide Keep, Less;
    var c := Keep(y, 0x1FF_FFFF);
    KeepIs(y, 0x1FF_FFFF);
    LessIs(c, pc);
    LessIs(y, pc);
    KeepIs(c - pc, 0x1FF_FFFF);
    KeepIs(y - pc, 0x1FF_FFFF);
    CutFirst25(y, c, pc);
  }

  lemma CutFirst23(y: bv32, c: bv32, pc: bv32)
    requires c == y & 0x7F_FFFF
    ensures (c - pc) & 0x7F_FFFF == (y - pc) & 0x7F_FFFF
  {
  }

  lemma KeepFirst23(y: bv32, pc: bv32)
    ensures Keep(Less(Keep(y, 0x7F_FFFF), pc), 0x7F_FFFF) == Keep(Less(y, pc), 0x7F_FFFF)
  {
    hide Keep, Less;
    var c := Keep(y, 0x7F_FFFF);
    KeepIs(y, 0x7F_FFFF);
    LessIs(c, pc);
    LessIs(y, pc);
    KeepIs(c - pc, 0x7F_FFFF);
    KeepIs(y - pc, 0x7F_FFFF);
    CutFirst23(y, c, pc);
  }

  lemma CutFirst21(y: bv32, c: bv32, pc: bv32)
    requires c == y & 0x1F_FFFF
    ensures (c - pc) & 0x1F_FFFF == (y - pc) & 0x1F_FFFF
  {
  }

  lemma KeepFirst21(y: bv32, pc: bv32)
    ensures Keep(Less(Keep(y, 0x1F_FFFF), pc), 0x1F_FFFF) == Keep(Less(y, pc), 0x1F_FFFF)
  {
    hide Keep, Less;
    var c := Keep(y, 0x1F_FFFF);
    KeepIs(y, 0x1F_FFFF);
    LessIs(c, pc);
    LessIs(y, pc);
    KeepIs(c - pc, 0x1F_FFFF);
    KeepIs(y - pc, 0x1F_FFFF);
    CutFirst21(y, c, pc);
  }

  lemma CutFirst18(y: bv32, c: bv32, pc: bv32)
    requires c == y & 0x3_FFFF
    ensures (c - pc) & 0x3_FFFF == (y - pc) & 0x3_FFFF
  {
  }

  lemma KeepFirst18(y: bv32, pc: bv32)
    ensures Keep(Less(Keep(y, 0x3_FFFF), pc), 0x3_FFFF) == Keep(Less(y, pc), 0x3_FFFF)
  {
    hide Keep, Less;
    var c := Keep(y, 0x3_FFFF);
    KeepIs(y, 0x3_FFFF);
    LessIs(c, pc);
    LessIs(y, pc);
    KeepIs(c - pc, 0x3_FFFF);
    KeepIs(y - pc, 0x3_FFFF);
    CutFirst18(y, c, pc);
  }

  /** `v` is what an operand keeps of `x` turned absolute: turned back, it
      keeps what it would of `x`. */
  lemma TurnsBack(x: bv32, v: bv32, pc: bv32, m: bv32)
    requires m == 0x3FF_FFFF || m == 0x1FF_FFFF || m == 0x7F_FFFF || m == 0x1F_FFFF || m == 0x3_FFFF
    requires Keep(v, m) == Keep(Turn(true, x, pc), m)
    ensures Keep(Turn(false, v, pc), m) == Keep(x, m)
  {
    hide Add, Less, Keep;
    AddBack(x, pc);
    KeepFirst(v, pc, m);
    KeepFirst(Add(x, pc), pc, m);
  }

  lemma KeepFirst(y: bv32, pc: bv32, m: bv32)
    requires m == 0x3FF_FFFF || m == 0x1FF_FFFF || m == 0x7F_FFFF || m == 0x1F_FFFF || m == 0x3_FFFF
    ensures Keep(Less(Keep(y, m), pc), m) == Keep(Less(y, pc), m)
  {
    hide Keep, Less;
    KeepFirst26(y, pc);
    KeepFirst25(y, pc);
    KeepFirst23(y, pc);
    KeepFirst21(y, pc);
    KeepFirst18(y, pc);
  }

  lemma TurnAligned(x: bv32, pc: bv32)
    ensures Divides(1, x) && Divides(1, pc) ==> Divides(1, Turn(true, x, pc))
    ensures Divides(3, x) && Divides(3, pc) ==> Divides(3, Turn(true, x, pc))
    ensures Divides(15, x) && Divides(15, pc) ==> Divides(15, Turn(true, x, pc))
  {
    assert x & 1 == 0 && pc & 1 == 0 ==> (x + pc) & 1 == 0;
    assert x & 3 == 0 && pc & 3 == 0 ==> (x + pc) & 3 == 0;
    assert x & 15 == 0 && pc & 15 == 0 ==> (x + pc) & 15 == 0;
  }

  /** Where the processor takes the position to be. */
  function Ahead(pc: bv32, n: bv32): bv32 {
    pc + n
  }

  lemma AheadAligned(pc: bv32)
    ensures Divides(3, pc) ==> Divides(3, Ahead(pc, 8))
    ensures Divides(1, pc) ==> Divides(1, Ahead(pc, 4))
  {
  }

  // ─── ARM ─────────────────────────────────────────────────────────

  function ArmTarget(w: Four): bv32 {
    ((Wide(w.c) << 16) | (Wide(w.b) << 8) | Wide(w.a)) << 2
  }

  function WithArm(w: Four, dest: bv32): Four {
    Four(Low8(dest >> 2), Low8(dest >> 10), Low8(dest >> 18), w.d)
  }

  function ArmStep(encode: bool, w: Four, pc: bv32): Four {
    if w.d == 0xEB then WithArm(w, Turn(encode, ArmTarget(w), Ahead(pc, 8))) else w
  }

  lemma ArmKeeps(w: Four, y: bv32)
    requires Divides(3, y)
    ensures WithArm(w, y).d == w.d && Keep(ArmTarget(WithArm(w, y)), 0x3FF_FFFF) == Keep(y, 0x3FF_FFFF)
  {
  }

  lemma ArmRestores(w: Four, v: Four, z: bv32)
    requires v.d == w.d && Keep(z, 0x3FF_FFFF) == Keep(ArmTarget(w), 0x3FF_FFFF)
    ensures WithArm(v, z) == w
  {
  }

  lemma ArmInverts(w: Four, pc: bv32)
    requires Divides(3, pc)
    ensures ArmStep(false, ArmStep(true, w, pc), pc) == w
  {
    if w.d == 0xEB {
      var x, p := ArmTarget(w), Ahead(pc, 8);
      var y := Turn(true, x, p);
      assert Divides(3, x);
      hide ArmTarget, WithArm, Turn, Keep, Divides, Ahead;
      var v := WithArm(w, y);
      AheadAligned(pc);
      TurnAligned(x, p);
      ArmKeeps(w, y);
      TurnsBack(x, ArmTarget(v), p, 0x3FF_FFFF);
      ArmRestores(w, v, Turn(false, ArmTarget(v), p));
    }
  }

  // ─── ARM Thumb ───────────────────────────────────────────────────

  predicate ThumbMatches(w: Four) {
    w.b & 0xF8 == 0xF0 && w.d & 0xF8 == 0xF8
  }

  function ThumbTarget(w: Four): bv32 {
    ((Wide(w.b & 7) << 19) | (Wide(w.a) << 11) | (Wide(w.d & 7) << 8) | Wide(w.c)) << 1
  }

  function WithThumb(dest: bv32): Four {
    Four(Low8(dest >> 12), 0xF0 | Low8((dest >> 20) & 7), Low8(dest >> 1), 0xF8 | Low8((dest >> 9) & 7))
  }

  function ThumbStep(encode: bool, w: Four, pc: bv32): Four {
    WithThumb(Turn(encode, ThumbTarget(w), Ahead(pc, 4)))
  }

  lemma ThumbKeeps(y: bv32)
    ensures ThumbMatches(WithThumb(y))
    ensures Divides(1, y) ==> Keep(ThumbTarget(WithThumb(y)), 0x7F_FFFF) == Keep(y, 0x7F_FFFF)
  {
  }

  lemma ThumbRestores(w: Four, z: bv32)
    requires ThumbMatches(w) && Keep(z, 0x7F_FFFF) == Keep(ThumbTarget(w), 0x7F_FFFF)
    ensures WithThumb(z) == w
  {
  }

  lemma ThumbInverts(w: Four, pc: bv32)
    requires Divides(1, pc) && ThumbMatches(w)
    ensures ThumbMatches(ThumbStep(true, w, pc)) && ThumbStep(false, ThumbStep(true, w, pc), pc) == w
  {
    var x, p := ThumbTarget(w), Ahead(pc, 4);
    var y := Turn(true, x, p);
    assert Divides(1, x);
    hide ThumbMatches, ThumbTarget, WithThumb, Turn, Keep, Divides, Ahead;
    AheadAligned(pc);
    TurnAligned(x, p);
    ThumbKeeps(y);
    TurnsBack(x, ThumbTarget(WithThumb(y)), p, 0x7F_FFFF);
    ThumbRestores(w, Turn(false, ThumbTarget(WithThumb(y)), p));
  }

  // ─── PowerPC ─────────────────────────────────────────────────────

  predicate PowerPcMatches(w: Four) {
    (w.a >> 2) == 0x12 && w.d & 3 == 1
  }

  function PowerPcTarget(w: Four): bv32 {
    (Wide(w.a & 3) << 24) | (Wide(w.b) << 16) | (Wide(w.c) << 8) | Wide(w.d & 0xFC)
  }

  function WithPowerPc(w: Four, dest: bv32): Four {
    Four(0x48 | Low8((dest >> 24) & 3), Low8(dest >> 16), Low8(dest >> 8), (w.d & 3) | Low8(dest))
  }

  function PowerPcStep(encode: bool, w: Four, pc: bv32): Four {
    if PowerPcMatches(w) then WithPowerPc(w, Turn(encode, PowerPcTarget(w), pc)) else w
  }

  lemma PowerPcKeeps(w: Four, y: bv32)
    requires PowerPcMatches(w) && Divides(3, y)
    ensures PowerPcMatches(WithPowerPc(w, y))
    ensures Keep(PowerPcTarget(WithPowerPc(w, y)), 0x3FF_FFFF) == Keep(y, 0x3FF_FFFF)
  {
  }

  lemma PowerPcRestores(w: Four, v: Four, z: bv32)
    requires PowerPcMatches(w) && PowerPcMatches(v)
    requires Keep(z, 0x3FF_FFFF) == Keep(PowerPcTarget(w), 0x3FF_FFFF)
    ensures WithPowerPc(v, z) == w
  {
  }

  lemma PowerPcInverts(w: Four, pc: bv32)
    requires Divides(3, pc)
    ensures PowerPcStep(false, PowerPcStep(true, w, pc), pc) == w
  {
    var x := PowerPcTarget(w);
    assert Divides(3, x);
    hide PowerPcMatches, PowerPcTarget, WithPowerPc, Turn, Keep, Divides;
    if PowerPcMatches(w) {
      var y := Turn(true, x, pc);
      var v := WithPowerPc(w, y);
      TurnAligned(x, pc);
      PowerPcKeeps(w, y);
      TurnsBack(x, PowerPcTarget(v), pc, 0x3FF_FFFF);
      PowerPcRestores(w, v, Turn(false, PowerPcTarget(v), pc));
    }
  }

  // ─── SPARC ───────────────────────────────────────────────────────

  predicate SparcMatches(w: Four) {
    || (w.a == 0x40 && w.b & 0xC0 == 0)
    || (w.a == 0x7F && w.b & 0xC0 == 0xC0)
  }

  function SparcTarget(w: Four): bv32 {
    Words(Be(w))
  }

  function Words(x: bv32): bv32 {
    x << 2
  }

  function WithSparc(dest: bv32): Four {
    FromBe(SparcWord(SignBits(dest), Displacement(dest)))
  }

  function SparcWord(sign: bv32, low: bv32): bv32 {
    sign | low | 0x4000_0000
  }

  function Displacement(dest: bv32): bv32 {
    (dest >> 2) & 0x3F_FFFF
  }

  /** Bit 24 in each of the bits 22 to 29. */
  function SignBits(dest: bv32): bv32 {
    if dest & 0x100_0000 == 0 then 0 else 0x3FC0_0000
  }

  function SparcStep(encode: bool, w: Four, pc: bv32): Four {
    if SparcMatches(w) then WithSparc(Turn(encode, SparcTarget(w), pc)) else w
  }

  lemma SignBitsAre(dest: bv32)
    ensures SignBits(dest) == ((0 - (((dest >> 2) >> 22) & 1)) << 22) & 0x3FFF_FFFF
  {
    if dest & 0x100_0000 == 0 {
      assert ((dest >> 2) >> 22) & 1 == 0;
    } else {
      assert ((dest >> 2) >> 22) & 1 == 1;
    }
  }

  predicate IsCall(x: bv32) {
    x & 0xFFC0_0000 == 0x4000_0000 || x & 0xFFC0_0000 == 0x7FC0_0000
  }

  lemma SparcTop(w: Four)
    ensures SparcMatches(w) <==> IsCall(Be(w))
  {
  }

  lemma SparcForward(y: bv32)
    requires y & 0x100_0000 == 0
    ensures IsCall(SparcWord(0, Displacement(y)))
    ensures Divides(3, y) ==> Keep(Words(SparcWord(0, Displacement(y))), 0x1FF_FFFF) == Keep(y, 0x1FF_FFFF)
  {
  }

  lemma SparcBackward(y: bv32)
    requires y & 0x100_0000 != 0
    ensures IsCall(SparcWord(0x3FC0_0000, Displacement(y)))
    ensures Divides(3, y) ==>
              Keep(Words(SparcWord(0x3FC0_0000, Displacement(y))), 0x1FF_FFFF) == Keep(y, 0x1FF_FFFF)
  {
  }

  lemma SparcWordIs(y: bv32)
    ensures var x := SparcWord(SignBits(y), Displacement(y));
            IsCall(x) && (Divides(3, y) ==> Keep(Words(x), 0x1FF_FFFF) == Keep(y, 0x1FF_FFFF))
  {
    hide IsCall, SparcWord, Displacement, Divides, Keep, Words;
    if y & 0x100_0000 == 0 {
      SparcForward(y);
    } else {
      SparcBackward(y);
    }
  }

  lemma SparcKeeps(y: bv32)
    ensures SparcMatches(WithSparc(y))
    ensures Divides(3, y) ==> Keep(SparcTarget(WithSparc(y)), 0x1FF_FFFF) == Keep(y, 0x1FF_FFFF)
  {
    hide SparcMatches, IsCall, Be, FromBe, SignBits, Displacement, SparcWord, Keep, Divides;
    var x := SparcWord(SignBits(y), Displacement(y));
    hide Words;
    LeBack(FromBe(x), x);
    SparcTop(FromBe(x));
    SparcWordIs(y);
  }

  lemma SparcParts(w: Four, z: bv32)
    requires SparcMatches(w) && Keep(z, 0x1FF_FFFF) == Keep(SparcTarget(w), 0x1FF_FFFF)
    ensures SignBits(z) == Be(w) & 0x3FC0_0000 && Displacement(z) == Be(w) & 0x3F_FFFF
  {
    if w.a == 0x40 {
      assert z & 0x100_0000 == 0;
    } else {
      assert z & 0x100_0000 != 0;
    }
  }

  lemma SparcWhole(x: bv32)
    requires IsCall(x)
    ensures SparcWord(x & 0x3FC0_0000, x & 0x3F_FFFF) == x
  {
  }

  lemma SparcRestores(w: Four, z: bv32)
    requires SparcMatches(w) && Keep(z, 0x1FF_FFFF) == Keep(SparcTarget(w), 0x1FF_FFFF)
    ensures WithSparc(z) == w
  {
    hide SparcMatches, IsCall, SparcTarget, SparcWord, SignBits, Displacement, Be, FromBe, Keep;
    SparcParts(w, z);
    SparcTop(w);
    SparcWhole(Be(w));
    LeBack(w, 0);
  }

  lemma SparcInverts(w: Four, pc: bv32)
    requires Divides(3, pc)
    ensures SparcStep(false, SparcStep(true, w, pc), pc) == w
  {
    var x := SparcTarget(w);
    assert Divides(3, x);
    hide SparcMatches, SparcTarget, WithSparc, Turn, Keep, Divides;
    if SparcMatches(w) {
      var y := Turn(true, x, pc);
      TurnAligned(x, pc);
      SparcKeeps(y);
      TurnsBack(x, SparcTarget(WithSparc(y)), pc, 0x1FF_FFFF);
      SparcRestores(w, Turn(false, SparcTarget(WithSparc(y)), pc));
    }
  }

  // ─── ARM64 ───────────────────────────────────────────────────────

  predicate IsBl(instr: bv32) {
    (instr >> 26) == 0x25
  }

  predicate IsAdrp(instr: bv32) {
    instr & 0x9F00_0000 == 0x9000_0000
  }

  function AdrpPage(instr: bv32): bv32 {
    ((instr >> 29) & 3) | ((instr >> 3) & 0x1F_FFFC)
  }

  /** Within 512 MiB: other pages are left alone. */
  predicate IsNear(page: bv32) {
    (page + 0x2_0000) & 0x1C_0000 == 0
  }

  function WithBl(dest: bv32): bv32 {
    0x9400_0000 | (dest & 0x3FF_FFFF)
  }

  /** The parts of an ADRP instruction: what is fixed, and the page in three pieces. */
  function Fixed(instr: bv32): bv32 {
    instr & 0x9000_001F
  }

  function LowPart(dest: bv32): bv32 {
    (dest & 3) << 29
  }

  function HighPart(dest: bv32): bv32 {
    (dest & 0x3_FFFC) << 3
  }

  /** Bit 17 in each of the three bits above. */
  function SignPart(dest: bv32): bv32 {
    if dest & 0x2_0000 == 0 then 0 else 0xE0_0000
  }

  function Joined(a: bv32, b: bv32, c: bv32, d: bv32): bv32 {
    a | b | c | d
  }

  function WithAdrp(instr: bv32, dest: bv32): bv32 {
    Joined(Fixed(instr), LowPart(dest), HighPart(dest), SignPart(dest))
  }

  function Quarter(pc: bv32): bv32 {
    pc >> 2
  }

  function Page(pc: bv32): bv32 {
    pc >> 12
  }

  function Arm64Word(encode: bool, instr: bv32, pc: bv32): bv32 {
    if IsBl(instr) then WithBl(Turn(encode, instr, Quarter(pc)))
    else if IsAdrp(instr) && IsNear(AdrpPage(instr)) then WithAdrp(instr, Turn(encode, AdrpPage(instr), Page(pc)))
    else instr
  }

  function Arm64Step(encode: bool, w: Four, pc: bv32): Four {
    FromLe(Arm64Word(encode, Le(w), pc))
  }

  lemma BlKeeps(y: bv32)
    ensures IsBl(WithBl(y)) && Keep(WithBl(y), 0x3FF_FFFF) == Keep(y, 0x3FF_FFFF)
  {
  }

  lemma BlRestores(instr: bv32, z: bv32)
    requires IsBl(instr) && Keep(z, 0x3FF_FFFF) == Keep(instr, 0x3FF_FFFF)
    ensures WithBl(z) == instr
  {
  }

  lemma SignPartIs(y: bv32)
    ensures SignPart(y) == (0 - (y & 0x2_0000)) & 0xE0_0000
  {
    if y & 0x2_0000 == 0 {
    } else {
      assert y & 0x2_0000 == 0x2_0000;
    }
  }

  lemma NearIs(instr: bv32)
    ensures IsNear(AdrpPage(instr)) <==> instr & 0xF0_0000 == 0 || instr & 0xF0_0000 == 0xF0_0000
  {
    assert (AdrpPage(instr) + 0x2_0000) & 0x1C_0000 == ((AdrpPage(instr) & 0x1E_0000) + 0x2_0000) & 0x1C_0000;
    var top := AdrpPage(instr) & 0x1E_0000;
    assert top == (instr & 0xF0_0000) >> 3;
  }

  lemma AdrpKeepsPage(instr: bv32, y: bv32)
    ensures Keep(AdrpPage(WithAdrp(instr, y)), 0x3_FFFF) == Keep(y, 0x3_FFFF)
  {
    hide SignPart;
    SignPartBits(y);
  }

  lemma SignPartBits(y: bv32)
    ensures SignPart(y) & 0xFF1F_FFFF == 0
  {
  }

  lemma AdrpKeeps(instr: bv32, y: bv32)
    requires IsAdrp(instr)
    ensures IsAdrp(WithAdrp(instr, y)) && !IsBl(WithAdrp(instr, y)) && IsNear(AdrpPage(WithAdrp(instr, y)))
    ensures Fixed(WithAdrp(instr, y)) == Fixed(instr)
  {
    hide IsNear, AdrpPage;
    NearIs(WithAdrp(instr, y));
  }

  function LowField(instr: bv32): bv32 {
    instr & 0x6000_0000
  }

  function HighField(instr: bv32): bv32 {
    instr & 0x1F_FFE0
  }

  function SignField(instr: bv32): bv32 {
    instr & 0xE0_0000
  }

  lemma AdrpParts(instr: bv32)
    requires IsAdrp(instr)
    ensures Joined(Fixed(instr), LowField(instr), HighField(instr), SignField(instr)) == instr
  {
  }

  lemma PageParts(instr: bv32, z: bv32)
    requires Keep(z, 0x3_FFFF) == Keep(AdrpPage(instr), 0x3_FFFF)
    ensures LowPart(z) == LowField(instr) && HighPart(z) == HighField(instr)
  {
  }

  lemma SignOf(instr: bv32, z: bv32)
    requires HighPart(z) == HighField(instr) && IsNear(AdrpPage(instr))
    ensures SignPart(z) == SignField(instr)
  {
    hide IsNear, AdrpPage;
    NearIs(instr);
    if instr & 0xF0_0000 == 0 {
      assert z & 0x2_0000 == 0;
    } else {
      assert z & 0x2_0000 != 0;
    }
  }

  lemma AdrpRestores(instr: bv32, v: bv32, z: bv32)
    requires IsAdrp(instr) && IsNear(AdrpPage(instr)) && Fixed(v) == Fixed(instr)
    requires Keep(z, 0x3_FFFF) == Keep(AdrpPage(instr), 0x3_FFFF)
    ensures WithAdrp(v, z) == instr
  {
    hide IsAdrp, IsNear, AdrpPage, Keep, Fixed, LowPart, HighPart, SignPart, Joined, LowField, HighField, SignField;
    PageParts(instr, z);
    SignOf(instr, z);
    AdrpParts(instr);
  }

  lemma LeOfFour(w: Four)
    ensures FromLe(Le(w)) == w
  {
  }

  lemma FourOfLe(x: bv32)
    ensures Le(FromLe(x)) == x
  {
  }

  lemma BeOfFour(w: Four)
    ensures FromBe(Be(w)) == w
  {
  }

  lemma FourOfBe(x: bv32)
    ensures Be(FromBe(x)) == x
  {
  }

  lemma LeBack(w: Four, x: bv32)
    ensures FromLe(Le(w)) == w && Le(FromLe(x)) == x
    ensures FromBe(Be(w)) == w && Be(FromBe(x)) == x
  {
    hide Le, FromLe, Be, FromBe;
    LeOfFour(w);
    FourOfLe(x);
    BeOfFour(w);
    FourOfBe(x);
  }

  lemma Arm64WordInverts(instr: bv32, pc: bv32)
    ensures Arm64Word(false, Arm64Word(true, instr, pc), pc) == instr
  {
    hide IsBl, IsAdrp, IsNear, AdrpPage, WithBl, WithAdrp, Turn, Keep, Quarter, Page;
    if IsBl(instr) {
      var y := Turn(true, instr, Quarter(pc));
      BlKeeps(y);
      TurnsBack(instr, WithBl(y), Quarter(pc), 0x3FF_FFFF);
      BlRestores(instr, Turn(false, WithBl(y), Quarter(pc)));
    } else if IsAdrp(instr) && IsNear(AdrpPage(instr)) {
      var x := AdrpPage(instr);
      var y := Turn(true, x, Page(pc));
      var v := WithAdrp(instr, y);
      AdrpKeeps(instr, y);
      AdrpKeepsPage(instr, y);
      TurnsBack(x, AdrpPage(v), Page(pc), 0x3_FFFF);
      AdrpRestores(instr, v, Turn(false, AdrpPage(v), Page(pc)));
    }
  }

  lemma Arm64Inverts(w: Four, pc: bv32)
    ensures Arm64Step(false, Arm64Step(true, w, pc), pc) == w
  {
    hide Le, FromLe, Arm64Word;
    LeBack(w, Arm64Word(true, Le(w), pc));
    Arm64WordInverts(Le(w), pc);
  }
}
