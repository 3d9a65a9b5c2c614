/**
  The IA-64 converter. A bundle is a template and three 41-bit slots; a slot
  is read and written back as the six bytes it lies in, so neighbouring slots
  share a byte, but each changes only bits of its own.
 */
module Ia64 {
  import opened BranchWords

  datatype Five = Five(a: bv8, b: bv8, c: bv8, d: bv8, e: bv8)

  datatype Six = Six(first: bv8, rest: Five)

  /** The template is in `first`; a slot starts in the last byte before it. */
  datatype Bundle = Bundle(first: bv8, x: Five, y: Five, z: Five)

  type Place = k: nat | k < 3

  function Wide64(x: bv8): bv64 {
    x as bv64
  }

  function Byte64(x: bv64): bv8 {
    (x & 0xFF) as bv8
  }

  function Word(s: Six): bv64 {
    Wide64(s.first) | (Wide64(s.rest.a) << 8) | (Wide64(s.rest.b) << 16) | (Wide64(s.rest.c) << 24)
    | (Wide64(s.rest.d) << 32) | (Wide64(s.rest.e) << 40)
  }

  function FromWord(x: bv64): Six {
    Six(Byte64(x), Five(Byte64(x >> 8), Byte64(x >> 16), Byte64(x >> 24), Byte64(x >> 32), Byte64(x >> 40)))
  }

  // ─── A branch within its slot ────────────────────────────────────

  predicate IsBranch(n: bv64) {
    (n >> 37) & 0xF == 5 && (n >> 9) & 7 == 0
  }

  /** The two fields of a target. */
  function LowField(n: bv64): bv64 {
    (n >> 13) & 0xF_FFFF
  }

  function TopField(n: bv64): bv64 {
    (n >> 36) & 1
  }

  function Target(n: bv64): bv32 {
    ((LowField(n) as bv32) | ((TopField(n) as bv32) << 20)) << 4
  }

  function Others(n: bv64): bv64 {
    n & 0xFFFF_FFEE_0000_1FFF
  }

  function Placed(dest: bv32): bv64 {
    ((((dest >> 4) & 0xF_FFFF) as bv64) << 13) | ((((dest >> 4) & 0x10_0000) as bv64) << 16)
  }

  function WithTarget(n: bv64, dest: bv32): bv64 {
    Others(n) | Placed(dest)
  }

  function Branch(encode: bool, n: bv64, pc: bv32): bv64 {
    WithTarget(n, Turn(encode, Target(n), pc))
  }

  /** What six bytes leave of a word after the bits before the slot. */
  predicate Room(slot: Place, n: bv64) {
    if slot == 0 then n & 0xFFFF_F800_0000_0000 == 0
    else if slot == 1 then n & 0xFFFF_FC00_0000_0000 == 0
    else n & 0xFFFF_FE00_0000_0000 == 0
  }

  lemma BranchKeeps(n: bv64, y: bv32)
    ensures Others(WithTarget(n, y)) == Others(n)
  {
  }

  lemma PlacedBits(y: bv32)
    ensures Placed(y) & 0x1E0_0000_0E00 == 0
  {
  }

  lemma StaysBranch(n: bv64, y: bv32)
    ensures IsBranch(WithTarget(n, y)) == IsBranch(n)
  {
    hide Placed;
    PlacedBits(y);
  }

  lemma TargetPlaced(n: bv64, y: bv32)
    requires Divides(15, y)
    ensures Keep(Target(WithTarget(n, y)), 0x1FF_FFFF) == Keep(y, 0x1FF_FFFF)
  {
  }

  lemma TargetAligned(n: bv64)
    ensures Divides(15, Target(n))
  {
  }

  lemma BranchRestores(n: bv64, v: bv64, z: bv32)
    requires Others(v) == Others(n) && Keep(z, 0x1FF_FFFF) == Keep(Target(n), 0x1FF_FFFF)
    ensures WithTarget(v, z) == n
  {
  }

  lemma BranchInverts(n: bv64, pc: bv32)
    requires Divides(15, pc)
    ensures Branch(false, Branch(true, n, pc), pc) == n
  {
    hide Target, WithTarget, Others, Turn, Keep, Divides;
    var x := Target(n);
    var y := Turn(true, x, pc);
    var v := WithTarget(n, y);
    TargetAligned(n);
    TurnAligned(x, pc);
    BranchKeeps(n, y);
    TargetPlaced(n, y);
    TurnsBack(x, Target(v), pc, 0x1FF_FFFF);
    BranchRestores(n, v, Turn(false, Target(v), pc));
  }

  function Low(n: bv64): bv64 {
    n & 7
  }

  lemma BranchKeepsLow(n: bv64, y: bv32)
    ensures Low(WithTarget(n, y)) == Low(n)
  {
  }

  // ─── A slot within its bytes ─────────────────────────────────────

  function Inner(slot: Place, x: bv64): bv64 {
    if slot == 0 then x >> 5 else if slot == 1 then x >> 6 else x >> 7
  }

  function Around(slot: Place, x: bv64): bv64 {
    if slot == 0 then x & 0x1F else if slot == 1 then x & 0x3F else x & 0x7F
  }

  function Outer(slot: Place, n: bv64): bv64 {
    if slot == 0 then n << 5 else if slot == 1 then n << 6 else n << 7
  }

  function Joined(slot: Place, x: bv64, n: bv64): bv64 {
    Around(slot, x) | Outer(slot, n)
  }

  function SlotWord(encode: bool, slot: Place, x: bv64, pc: bv32): bv64 {
    if IsBranch(Inner(slot, x)) then Joined(slot, x, Branch(encode, Inner(slot, x), pc)) else x
  }

  function Slot(encode: bool, slot: Place, s: Six, pc: bv32): Six {
    FromWord(SlotWord(encode, slot, Word(s), pc))
  }

  predicate Fits48(x: bv64) {
    x & 0xFFFF_0000_0000_0000 == 0
  }

  lemma WordBack(s: Six, x: bv64)
    ensures FromWord(Word(s)) == s && Fits48(Word(s))
    ensures Fits48(x) ==> Word(FromWord(x)) == x
  {
  }

  function RestBytes(x: bv64): bv64 {
    x >> 8
  }

  lemma Slot0Room(x: bv64, n: bv64)
    requires Fits48(x) && n == Inner(0, x)
    ensures Room(0, n)
  {
  }

  lemma Slot0Fits(x: bv64, n: bv64, y: bv64)
    requires Room(0, n) && y == Joined(0, x, n)
    ensures Fits48(y)
  {
  }

  lemma Slot0Again(x: bv64, n: bv64, m: bv64, y: bv64)
    requires y == Joined(0, x, n)
    ensures Joined(0, y, m) == Joined(0, x, m)
  {
  }

  lemma Slot0Low(x: bv64, n: bv64, m: bv64)
    requires m == Inner(0, x) && Low(n) == Low(m)
    ensures FirstByte(Joined(0, x, n)) == FirstByte(x)
  {
  }

  lemma Slot0Back(x: bv64, n: bv64)
    ensures Joined(0, x, Inner(0, x)) == x
    ensures Room(0, n) ==> Inner(0, Joined(0, x, n)) == n
  {
  }

  lemma Slot0Small(n: bv64, y: bv32)
    requires Room(0, n)
    ensures Room(0, WithTarget(n, y))
  {
  }

  lemma Slot1Room(x: bv64, n: bv64)
    requires Fits48(x) && n == Inner(1, x)
    ensures Room(1, n)
  {
  }

  lemma Slot1Fits(x: bv64, n: bv64, y: bv64)
    requires Room(1, n) && y == Joined(1, x, n)
    ensures Fits48(y)
  {
  }

  lemma Slot1Again(x: bv64, n: bv64, m: bv64, y: bv64)
    requires y == Joined(1, x, n)
    ensures Joined(1, y, m) == Joined(1, x, m)
  {
  }

  lemma Slot1Low(x: bv64, n: bv64, m: bv64)
    requires m == Inner(1, x) && Low(n) == Low(m)
    ensures FirstByte(Joined(1, x, n)) == FirstByte(x)
  {
  }

  lemma Slot1Back(x: bv64, n: bv64)
    ensures Joined(1, x, Inner(1, x)) == x
    ensures Room(1, n) ==> Inner(1, Joined(1, x, n)) == n
  {
  }

  lemma Slot1Small(n: bv64, y: bv32)
    requires Room(1, n)
    ensures Room(1, WithTarget(n, y))
  {
  }

  lemma Slot2Room(x: bv64, n: bv64)
    requires Fits48(x) && n == Inner(2, x)
    ensures Room(2, n)
  {
  }

  lemma Slot2Fits(x: bv64, n: bv64, y: bv64)
    requires Room(2, n) && y == Joined(2, x, n)
    ensures Fits48(y)
  {
  }

  lemma Slot2Again(x: bv64, n: bv64, m: bv64, y: bv64)
    requires y == Joined(2, x, n)
    ensures Joined(2, y, m) == Joined(2, x, m)
  {
  }

  lemma Slot2Low(x: bv64, n: bv64, m: bv64)
    requires m == Inner(2, x) && Low(n) == Low(m)
    ensures FirstByte(Joined(2, x, n)) == FirstByte(x)
  {
  }

  lemma Slot2Back(x: bv64, n: bv64)
    ensures Joined(2, x, Inner(2, x)) == x
    ensures Room(2, n) ==> Inner(2, Joined(2, x, n)) == n
  {
  }

  lemma Slot2Small(n: bv64, y: bv32)
    requires Room(2, n)
    ensures Room(2, WithTarget(n, y))
  {
  }

  lemma Slot0Rest(x: bv64, z: bv64, n: bv64, m: bv64, y: bv32)
    requires RestBytes(x) == RestBytes(z)
    requires n == WithTarget(Inner(0, x), y) && m == WithTarget(Inner(0, z), y)
    ensures RestBytes(Joined(0, x, n)) == RestBytes(Joined(0, z, m))
  {
    hide Placed;
  }

  lemma Slot1Rest(x: bv64, z: bv64, n: bv64, m: bv64, y: bv32)
    requires RestBytes(x) == RestBytes(z)
    requires n == WithTarget(Inner(1, x), y) && m == WithTarget(Inner(1, z), y)
    ensures RestBytes(Joined(1, x, n)) == RestBytes(Joined(1, z, m))
  {
    hide Placed;
  }

  lemma Slot2Rest(x: bv64, z: bv64, n: bv64, m: bv64, y: bv32)
    requires RestBytes(x) == RestBytes(z)
    requires n == WithTarget(Inner(2, x), y) && m == WithTarget(Inner(2, z), y)
    ensures RestBytes(Joined(2, x, n)) == RestBytes(Joined(2, z, m))
  {
    hide Placed;
  }

  lemma InnerRoom(slot: Place, x: bv64, n: bv64)
    requires Fits48(x) && Room(slot, n)
    ensures Room(slot, Inner(slot, x)) && Fits48(Joined(slot, x, n))
    ensures Joined(slot, x, Inner(slot, x)) == x && Inner(slot, Joined(slot, x, n)) == n
  {
    hide Room, Inner, Joined, Fits48;
    if slot == 0 {
      Slot0Room(x, Inner(slot, x));
      Slot0Fits(x, n, Joined(slot, x, n));
      Slot0Back(x, n);
    } else if slot == 1 {
      Slot1Room(x, Inner(slot, x));
      Slot1Fits(x, n, Joined(slot, x, n));
      Slot1Back(x, n);
    } else {
      Slot2Room(x, Inner(slot, x));
      Slot2Fits(x, n, Joined(slot, x, n));
      Slot2Back(x, n);
    }
  }

  lemma StaysSmall(slot: Place, n: bv64, y: bv32)
    requires Room(slot, n)
    ensures Room(slot, WithTarget(n, y))
  {
    hide Room, WithTarget;
    if slot == 0 {
      Slot0Small(n, y);
    } else if slot == 1 {
      Slot1Small(n, y);
    } else {
      Slot2Small(n, y);
    }
  }

  lemma JoinedAgain(slot: Place, x: bv64, n: bv64, m: bv64)
    ensures Joined(slot, Joined(slot, x, n), m) == Joined(slot, x, m)
  {
    hide Joined;
    if slot == 0 {
      Slot0Again(x, n, m, Joined(slot, x, n));
    } else if slot == 1 {
      Slot1Again(x, n, m, Joined(slot, x, n));
    } else {
      Slot2Again(x, n, m, Joined(slot, x, n));
    }
  }

  lemma RoomForNone(slot: Place)
    ensures Room(slot, 0)
  {
  }

  lemma SlotWordInverts(slot: Place, x: bv64, pc: bv32)
    requires Divides(15, pc) && Fits48(x)
    ensures Fits48(SlotWord(true, slot, x, pc)) && SlotWord(false, slot, SlotWord(true, slot, x, pc), pc) == x
  {
    hide IsBranch, Target, WithTarget, Room, Inner, Joined, Fits48, Turn, Divides;
    var n := Inner(slot, x);
    RoomForNone(slot);
    InnerRoom(slot, x, 0);
    if IsBranch(n) {
      var y := Turn(true, Target(n), pc);
      var v := WithTarget(n, y);
      StaysBranch(n, y);
      StaysSmall(slot, n, y);
      BranchInverts(n, pc);
      InnerRoom(slot, x, v);
      JoinedAgain(slot, x, v, n);
    }
  }

  lemma SlotInverts(slot: Place, s: Six, pc: bv32)
    requires Divides(15, pc)
    ensures Slot(false, slot, Slot(true, slot, s, pc), pc) == s
  {
    hide SlotWord, Word, FromWord, Fits48, Divides;
    var x := Word(s);
    WordBack(s, SlotWord(true, slot, x, pc));
    SlotWordInverts(slot, x, pc);
  }

  // ─── Slots keep to themselves ────────────────────────────────────

  function FirstByte(x: bv64): bv64 {
    x & 0xFF
  }

  lemma JoinedLow(slot: Place, x: bv64, n: bv64)
    requires Low(n) == Low(Inner(slot, x))
    ensures FirstByte(Joined(slot, x, n)) == FirstByte(x)
  {
    hide Inner, Joined, Low, FirstByte;
    if slot == 0 {
      Slot0Low(x, n, Inner(slot, x));
    } else if slot == 1 {
      Slot1Low(x, n, Inner(slot, x));
    } else {
      Slot2Low(x, n, Inner(slot, x));
    }
  }

  /** Without the first byte. */
  function Bare(x: bv64): bv64 {
    x & 0xFFFF_FFFF_FFFF_FF00
  }

  lemma Slot0Bare(x: bv64)
    ensures IsBranch(Inner(0, x)) == IsBranch(Inner(0, Bare(x)))
  {
  }

  lemma Slot0Low20(x: bv64)
    ensures LowField(Inner(0, x)) == LowField(Inner(0, Bare(x)))
  {
    calc {
      LowField(Inner(0, x));
      LowField(x >> 5);
      ((x >> 5) >> 13) & 0xF_FFFF;
      (((x & 0xFFFF_FFFF_FFFF_FF00) >> 5) >> 13) & 0xF_FFFF;
      LowField((x & 0xFFFF_FFFF_FFFF_FF00) >> 5);
      LowField(Inner(0, x & 0xFFFF_FFFF_FFFF_FF00));
      LowField(Inner(0, Bare(x)));
    }
  }

  lemma Slot0Top(x: bv64)
    ensures TopField(Inner(0, x)) == TopField(Inner(0, Bare(x)))
  {
  }

  lemma Slot1Bare(x: bv64)
    ensures IsBranch(Inner(1, x)) == IsBranch(Inner(1, Bare(x)))
  {
  }

  lemma Slot1Low20(x: bv64)
    ensures LowField(Inner(1, x)) == LowField(Inner(1, Bare(x)))
  {
    calc {
      LowField(Inner(1, x));
      LowField(x >> 6);
      ((x >> 6) >> 13) & 0xF_FFFF;
      (((x & 0xFFFF_FFFF_FFFF_FF00) >> 6) >> 13) & 0xF_FFFF;
      LowField((x & 0xFFFF_FFFF_FFFF_FF00) >> 6);
      LowField(Inner(1, x & 0xFFFF_FFFF_FFFF_FF00));
      LowField(Inner(1, Bare(x)));
    }
  }

  lemma Slot1Top(x: bv64)
    ensures TopField(Inner(1, x)) == TopField(Inner(1, Bare(x)))
  {
  }

  lemma Slot2Bare(x: bv64)
    ensures IsBranch(Inner(2, x)) == IsBranch(Inner(2, Bare(x)))
  {
  }

  lemma Slot2Low20(x: bv64)
    ensures LowField(Inner(2, x)) == LowField(Inner(2, Bare(x)))
  {
    calc {
      LowField(Inner(2, x));
      LowField(x >> 7);
      ((x >> 7) >> 13) & 0xF_FFFF;
      (((x & 0xFFFF_FFFF_FFFF_FF00) >> 7) >> 13) & 0xF_FFFF;
      LowField((x & 0xFFFF_FFFF_FFFF_FF00) >> 7);
      LowField(Inner(2, x & 0xFFFF_FFFF_FFFF_FF00));
      LowField(Inner(2, Bare(x)));
    }
  }

  lemma Slot2Top(x: bv64)
    ensures TopField(Inner(2, x)) == TopField(Inner(2, Bare(x)))
  {
  }

  /** Neither whether there is a branch nor where to depends on the first byte. */
  lemma BareBranch(slot: Place, x: bv64)
    ensures IsBranch(Inner(slot, x)) == IsBranch(Inner(slot, Bare(x)))
    ensures Target(Inner(slot, x)) == Target(Inner(slot, Bare(x)))
  {
    hide Inner, IsBranch, LowField, TopField, Bare;
    if slot == 0 {
      Slot0Bare(x);
      Slot0Low20(x);
      Slot0Top(x);
    } else if slot == 1 {
      Slot1Bare(x);
      Slot1Low20(x);
      Slot1Top(x);
    } else {
      Slot2Bare(x);
      Slot2Low20(x);
      Slot2Top(x);
    }
  }

  /** The bytes after the first, when the branch is given the same target. */
  lemma JoinedRest(slot: Place, x: bv64, z: bv64, y: bv32)
    requires RestBytes(x) == RestBytes(z)
    ensures RestBytes(Joined(slot, x, WithTarget(Inner(slot, x), y)))
         == RestBytes(Joined(slot, z, WithTarget(Inner(slot, z), y)))
  {
    hide Inner, Joined, RestBytes, WithTarget;
    var n, m := WithTarget(Inner(slot, x), y), WithTarget(Inner(slot, z), y);
    if slot == 0 {
      Slot0Rest(x, z, n, m, y);
    } else if slot == 1 {
      Slot1Rest(x, z, n, m, y);
    } else {
      Slot2Rest(x, z, n, m, y);
    }
  }

  lemma WordRest(s: Six, f: bv8)
    ensures RestBytes(Word(s)) == RestBytes(Word(s.(first := f)))
  {
  }

  lemma WordBare(s: Six, f: bv8)
    ensures Bare(Word(s)) == Bare(Word(s.(first := f)))
  {
  }

  lemma FirstOf(x: bv64, z: bv64)
    ensures FirstByte(x) == FirstByte(z) ==> FromWord(x).first == FromWord(z).first
  {
  }

  lemma RestOf(x: bv64, z: bv64)
    ensures RestBytes(x) == RestBytes(z) ==> FromWord(x).rest == FromWord(z).rest
  {
  }

  lemma WordBytes(s: Six, f: bv8, x: bv64, z: bv64)
    ensures RestBytes(Word(s)) == RestBytes(Word(s.(first := f)))
    ensures Bare(Word(s)) == Bare(Word(s.(first := f)))
    ensures FirstByte(x) == FirstByte(z) ==> FromWord(x).first == FromWord(z).first
    ensures RestBytes(x) == RestBytes(z) ==> FromWord(x).rest == FromWord(z).rest
  {
    hide RestBytes, Word, Bare, FirstByte, FromWord;
    WordRest(s, f);
    WordBare(s, f);
    FirstOf(x, z);
    RestOf(x, z);
  }

  /** The shared byte is written back as it was, and read for nothing. */
  lemma SlotIsOwn(encode: bool, slot: Place, s: Six, f: bv8, pc: bv32)
    ensures Slot(encode, slot, s, pc).first == s.first
    ensures Slot(encode, slot, s.(first := f), pc).rest == Slot(encode, slot, s, pc).rest
  {
    hide IsBranch, Target, WithTarget, Inner, Joined, Word, FromWord, FirstByte, RestBytes, Bare, Low, Turn, Fits48;
    var x, z := Word(s), Word(s.(first := f));
    var n, m := Inner(slot, x), Inner(slot, z);
    var y := Turn(encode, Target(n), pc);
    WordBytes(s, f, SlotWord(encode, slot, x, pc), SlotWord(encode, slot, z, pc));
    WordBytes(s, f, SlotWord(encode, slot, x, pc), x);
    WordBack(s, x);
    BareBranch(slot, x);
    BareBranch(slot, z);
    JoinedRest(slot, x, z, y);
    BranchKeepsLow(n, y);
    JoinedLow(slot, x, WithTarget(n, y));
  }

  // ─── Bundles ─────────────────────────────────────────────────────

  /** Which slots of a template hold branches, a bit for each. */
  const BRANCH_TABLE: seq<nat> := [
    0, 0, 0, 0, 0, 0, 0, 0, 0, 0, 0, 0, 0, 0, 0, 0,
    4, 4, 6, 6, 0, 0, 7, 7, 4, 4, 0, 0, 4, 4, 0, 0
  ]

  function Template(first: bv8): (t: nat)
    ensures t < 32
  {
    (first & 0x1F) as nat
  }

  predicate HasBranch(mask: nat, slot: Place) {
    (if slot == 0 then mask else if slot == 1 then mask / 2 else mask / 4) % 2 == 1
  }

  function Slot0(encode: bool, mask: nat, b: Bundle, pc: bv32): Bundle {
    if !HasBranch(mask, 0) then b else
    var s := Slot(encode, 0, Six(b.first, b.x), pc);
    b.(first := s.first, x := s.rest)
  }

  function Slot1(encode: bool, mask: nat, b: Bundle, pc: bv32): Bundle {
    if !HasBranch(mask, 1) then b else
    var s := Slot(encode, 1, Six(b.x.e, b.y), pc);
    b.(x := b.x.(e := s.first), y := s.rest)
  }

  function Slot2(encode: bool, mask: nat, b: Bundle, pc: bv32): Bundle {
    if !HasBranch(mask, 2) then b else
    var s := Slot(encode, 2, Six(b.y.e, b.z), pc);
    b.(y := b.y.(e := s.first), z := s.rest)
  }

  function Slots(encode: bool, mask: nat, b: Bundle, pc: bv32): Bundle {
    Slot2(encode, mask, Slot1(encode, mask, Slot0(encode, mask, b, pc), pc), pc)
  }

  function Convert(encode: bool, b: Bundle, pc: bv32): Bundle {
    Slots(encode, BRANCH_TABLE[Template(b.first)], b, pc)
  }

  /** The bytes of one slot, less the one before it. */
  function Rest(encode: bool, mask: nat, slot: Place, f: bv8, r: Five, pc: bv32): Five {
    if HasBranch(mask, slot) then Slot(encode, slot, Six(f, r), pc).rest else r
  }

  lemma RestIsOwn(encode: bool, mask: nat, slot: Place, f: bv8, g: bv8, r: Five, pc: bv32)
    ensures Rest(encode, mask, slot, f, r, pc) == Rest(encode, mask, slot, g, r, pc)
    ensures Slot(encode, slot, Six(f, r), pc).first == f
  {
    hide Slot, HasBranch;
    SlotIsOwn(encode, slot, Six(f, r), g, pc);
  }

  lemma RestInverts(mask: nat, slot: Place, f: bv8, r: Five, pc: bv32)
    requires Divides(15, pc)
    ensures Rest(false, mask, slot, f, Rest(true, mask, slot, f, r, pc), pc) == r
  {
    hide Slot, HasBranch, Divides;
    SlotInverts(slot, Six(f, r), pc);
    RestIsOwn(true, mask, slot, f, f, r, pc);
  }

  /** The slots do not disturb each other. */
  lemma SlotsAre(encode: bool, mask: nat, b: Bundle, pc: bv32)
    ensures Slots(encode, mask, b, pc)
         == Bundle(b.first, Rest(encode, mask, 0, b.first, b.x, pc), Rest(encode, mask, 1, b.x.e, b.y, pc),
                   Rest(encode, mask, 2, b.y.e, b.z, pc))
  {
    var x := Rest(encode, mask, 0, b.first, b.x, pc);
    RestIsOwn(encode, mask, 0, b.first, b.first, b.x, pc);
    assert Slot0(encode, mask, b, pc) == b.(x := x) by {
      hide Slot, HasBranch;
    }
    var y := Rest(encode, mask, 1, x.e, b.y, pc);
    RestIsOwn(encode, mask, 1, x.e, b.x.e, b.y, pc);
    assert Slot1(encode, mask, b.(x := x), pc) == b.(x := x, y := y) by {
      hide Slot, HasBranch;
    }
    RestIsOwn(encode, mask, 2, y.e, b.y.e, b.z, pc);
    hide Slot, HasBranch;
  }

  lemma SlotsInvert(mask: nat, b: Bundle, pc: bv32)
    requires Divides(15, pc)
    ensures Slots(true, mask, b, pc).first == b.first
    ensures Slots(false, mask, Slots(true, mask, b, pc), pc) == b
  {
    hide Slots, Rest, Divides;
    var v := Slots(true, mask, b, pc);
    SlotsAre(true, mask, b, pc);
    SlotsAre(false, mask, v, pc);
    RestInverts(mask, 0, b.first, b.x, pc);
    RestInverts(mask, 1, b.x.e, b.y, pc);
    RestIsOwn(false, mask, 1, v.x.e, b.x.e, v.y, pc);
    RestInverts(mask, 2, b.y.e, b.z, pc);
    RestIsOwn(false, mask, 2, v.y.e, b.y.e, v.z, pc);
  }

  lemma ConvertInverts(b: Bundle, pc: bv32)
    requires Divides(15, pc)
    ensures Convert(false, Convert(true, b, pc), pc) == b
  {
    hide Slots, Divides, Template;
    SlotsInvert(BRANCH_TABLE[Template(b.first)], b, pc);
  }
}
