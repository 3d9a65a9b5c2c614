/**
  What the x86 conversion does to the bytes of a stream, said without the
  conversion's own parts: which markers convert and what their operands become.
 */
module X86Operands {
  import opened Arithmetic
  import opened Bytes
  import opened Sequences
  import opened X86Branch

  /** The first four bytes from `k` on, least significant first. */
  function Word(s: seq<byte>, k: nat): int
    requires k + 4 <= |s|
  {
    s[k] as int + 0x100 * (s[k + 1] as int) + 0x1_0000 * (s[k + 2] as int) + 0x100_0000 * (s[k + 3] as int)
  }

  /** CALL or JMP. */
  predicate Branches(s: seq<byte>, i: nat)
    requires i < |s|
  {
    s[i] == 0xE8 || s[i] == 0xE9
  }

  predicate NoBranch(s: seq<byte>, from: nat, to: nat)
    requires to <= |s|
  {
    forall j :: from <= j < to ==> !Branches(s, j)
  }

  /** The top byte of its operand is 00 or FF. */
  predicate Near(s: seq<byte>, i: nat)
    requires i + 5 <= |s|
  {
    s[i + 4] == 0 || s[i + 4] == 0xFF
  }

  /** Bits 0 to 24 of the operand at `k` of `t` are those of `n`, and the others
      are bit 24. */
  predicate Means(t: seq<byte>, k: nat, n: int)
    requires k + 4 <= |t|
  {
    && Word(t, k) % 0x200_0000 == n % 0x200_0000
    && (Word(t, k) < 0x100_0000 || 0xFF00_0000 <= Word(t, k) < 0x1_0000_0000)
  }

  /** The target: absolute when encoded, relative to the next instruction else. */
  function Retargeted(encode: bool, n: int, next: nat): int {
    if encode then n + next else n - next
  }

  lemma WordIs(s: seq<byte>, k: nat)
    requires k + 4 <= |s|
    ensures FromLe4(s[k..k + 4]) == Word(s, k)
  {
  }

  lemma ExtendedIs(w: u32)
    ensures SignExtend25(w) % 0x200_0000 == w % 0x200_0000
    ensures SignExtend25(w) < 0x100_0000 || 0xFF00_0000 <= SignExtend25(w)
  {
    SignExtendAlike(w, w);
  }

  /** With nothing to guard, an operand moves by the position after it. */
  lemma OperandMoves(encode: bool, s: seq<byte>, pos: nat)
    requires |s| >= 5
    ensures var t := [s[0]] + ConvertOperand(encode, s[1..5], 0, pos);
            Means(t, 1, Retargeted(encode, Word(s, 1), pos + 5))
  {
    WordIs(s, 1);
    MovedIs(encode, s[1..5], pos);
    var out := ConvertOperand(encode, s[1..5], 0, pos);
    var t := [s[0]] + out;
    assert t[1..5] == out;
    WordIs(t, 1);
  }

  lemma MovedIs(encode: bool, operand: seq<byte>, pos: nat)
    requires |operand| == 4
    ensures var w, d := FromLe4(operand), FromLe4(ConvertOperand(encode, operand, 0, pos));
            && d % 0x200_0000 == Retargeted(encode, w, pos + 5) % 0x200_0000
            && (d < 0x100_0000 || 0xFF00_0000 <= d)
  {
    hide SignExtend25, FromLe4, ToLe4, ByteAt;
    var w, base := FromLe4(operand), Wrap32(pos + 5);
    var once := Move(encode, w, base);
    ExtendedIs(once);
    MoveMod(encode, w, base, 0x200_0000, 0x80);
    ModMod(pos + 5, 0x200_0000, 0x80);
    if encode {
      ModAdd(w, pos + 5, 0x200_0000);
    } else {
      ModSub(w, pos + 5, 0x200_0000);
    }
  }

  // ─── Up to the first branch ──────────────────────────────────────

  lemma PlainByte(encode: bool, s: seq<byte>, pos: nat)
    requires |s| >= 5 && !Branches(s, 0)
    ensures Convert(encode, s, 0, pos) == [s[0]] + Convert(encode, s[1..], 0, pos + 1)
  {
  }

  /** Bytes before the first branch stay, and what follows is as at a start. */
  lemma {:induction false} BeforeFirst(encode: bool, s: seq<byte>, pos: nat, i: nat)
    requires i + 4 <= |s| && NoBranch(s, 0, i)
    ensures Convert(encode, s, 0, pos) == s[..i] + Convert(encode, s[i..], 0, pos + i)
    decreases i
  {
    hide Convert;
    if i == 0 {
      assert s[..0] + Convert(encode, s, 0, pos) == Convert(encode, s, 0, pos) && s[0..] == s;
    } else {
      PlainByte(encode, s, pos);
      assert forall j :: 0 <= j < i - 1 ==> s[1..][j] == s[j + 1];
      assert forall j :: 0 <= j < i - 1 && Branches(s[1..], j) ==> Branches(s, j + 1);
      BeforeFirst(encode, s[1..], pos + 1, i - 1);
      assert s[1..][i - 1..] == s[i..];
      Associates([s[0]], s[1..][..i - 1], Convert(encode, s[i..], 0, pos + i));
      assert [s[0]] + s[1..][..i - 1] == s[..i];
    }
  }

  /** Without a branch that has its whole operand, nothing changes. */
  lemma NoneConverts(encode: bool, s: seq<byte>, pos: nat)
    requires |s| >= 4 ==> NoBranch(s, 0, |s| - 4)
    ensures Convert(encode, s, 0, pos) == s
  {
    if |s| >= 4 {
      BeforeFirst(encode, s, pos, |s| - 4);
      assert Convert(encode, s[|s| - 4..], 0, pos + |s| - 4) == s[|s| - 4..];
    }
  }

  lemma HeadConverts(encode: bool, s: seq<byte>, pos: nat)
    requires |s| >= 5 && Branches(s, 0) && Near(s, 0)
    ensures var t := Convert(encode, s, 0, pos);
            && t[0] == s[0] && Means(t, 1, Retargeted(encode, Word(s, 1), pos + 5))
            && t[5..] == Convert(encode, s[5..], 0, pos + 5)
  {
    OperandMoves(encode, s, pos);
    AtFront([s[0]] + ConvertOperand(encode, s[1..5], 0, pos), Convert(encode, s[5..], 0, pos + 5));
  }

  /** What five bytes say, they say with others behind them. */
  lemma AtFront(head: seq<byte>, rest: seq<byte>)
    requires |head| == 5
    ensures (head + rest)[0] == head[0] && (head + rest)[5..] == rest && Word(head + rest, 1) == Word(head, 1)
    ensures forall n :: Means(head + rest, 1, n) <==> Means(head, 1, n)
  {
  }

  /** And with others before them. */
  lemma Behind(before: seq<byte>, u: seq<byte>, i: nat)
    requires |u| >= 5 && i == |before|
    ensures var t := before + u;
            && t[..i + 1] == before + [u[0]] && t[i + 5..] == u[5..] && Word(t, i + 1) == Word(u, 1)
            && (forall n :: Means(t, i + 1, n) <==> Means(u, 1, n))
  {
    var t := before + u;
    assert t[i + 1] == u[1] && t[i + 2] == u[2] && t[i + 3] == u[3] && t[i + 4] == u[4];
  }

  /** The first branch of a stream, if its operand is near: the operand becomes
      the target, all before it stays, and what follows is as at a start. */
  lemma FirstConverts(encode: bool, s: seq<byte>, pos: nat, i: nat)
    requires i + 5 <= |s| && NoBranch(s, 0, i) && Branches(s, i) && Near(s, i)
    ensures var t := Convert(encode, s, 0, pos);
            && t[..i + 1] == s[..i + 1] && Means(t, i + 1, Retargeted(encode, Word(s, i + 1), pos + i + 5))
            && t[i + 5..] == Convert(encode, s[i + 5..], 0, pos + i + 5)
  {
    hide *;
    BeforeFirst(encode, s, pos, i);
    var r := s[i..];
    var u := Convert(encode, r, 0, pos + i);
    NothingAfter(s, i);
    HeadConverts(encode, r, pos + i);
    assert s == s[..i] + r;
    Behind(s[..i], u, i);
    Behind(s[..i], r, i);
    assert pos + (i + 5) == pos + i + 5;
  }

  // ─── After a branch that was left ────────────────────────────────

  /** The mask `d` places after a branch whose operand is not near. */
  function Trace(d: nat): bv8 {
    if d == 1 then 2 else if d == 2 then 4 else if d == 3 then 8 else 0
  }

  lemma HeadStays(encode: bool, s: seq<byte>, pos: nat)
    requires |s| >= 5 && Branches(s, 0) && !Near(s, 0)
    ensures Convert(encode, s, 0, pos) == [s[0]] + Convert(encode, s[1..], Trace(1), pos + 1)
  {
    assert Shifted(Marked(0, false)) == 2;
  }

  lemma PlainAfter(encode: bool, s: seq<byte>, pos: nat, d: nat)
    requires |s| >= 1 && !Branches(s, 0) && 1 <= d <= 3
    ensures Convert(encode, s, Trace(d), pos) == [s[0]] + Convert(encode, s[1..], Trace(d + 1), pos + 1)
  {
    assert Shifted(2) == 4 && Shifted(4) == 8 && Shifted(8) == 0;
    if |s| < 5 {
      assert s == [s[0]] + s[1..];
    }
  }

  /** From the branch on, `d` bytes stay if no other branch is among them. */
  lemma {:induction false} Fades(encode: bool, s: seq<byte>, pos: nat, d: nat)
    requires |s| >= 5 && Branches(s, 0) && !Near(s, 0) && 1 <= d <= 4 && NoBranch(s, 1, d)
    ensures Convert(encode, s, 0, pos) == s[..d] + Convert(encode, s[d..], Trace(d), pos + d)
    decreases d
  {
    hide Convert, Near;
    if d == 1 {
      HeadStays(encode, s, pos);
      assert s[..1] == [s[0]];
    } else {
      var e := d - 1;
      Fades(encode, s, pos, e);
      assert Branches(s[e..], 0) == Branches(s, e);
      PlainAfter(encode, s[e..], pos + e, e);
      assert s[e..][1..] == s[d..] && s[..d] == s[..e] + [s[e]];
      Associates(s[..e], [s[e]], Convert(encode, s[d..], Trace(d), pos + d));
    }
  }

  /** A first branch whose operand is not near stays, and with no other in the
      three bytes after it, what follows is as at a start. */
  lemma FirstStays(encode: bool, s: seq<byte>, pos: nat, i: nat)
    requires i + 5 <= |s| && NoBranch(s, 0, i) && Branches(s, i) && !Near(s, i) && NoBranch(s, i + 1, i + 4)
    ensures Convert(encode, s, 0, pos) == s[..i + 4] + Convert(encode, s[i + 4..], 0, pos + i + 4)
  {
    hide *;
    BeforeFirst(encode, s, pos, i);
    var r := s[i..];
    NoneAfter(s, i, 4);
    FadesAway(encode, r, pos + i);
    var front, rest := r[..4], Convert(encode, r[4..], 0, pos + i + 4);
    assert s[..i] + front == s[..i + 4] && r[4..] == s[i + 4..];
    Associates(s[..i], front, rest);
  }

  lemma FadesAway(encode: bool, s: seq<byte>, pos: nat)
    requires |s| >= 5 && Branches(s, 0) && !Near(s, 0) && NoBranch(s, 1, 4)
    ensures Convert(encode, s, 0, pos) == s[..4] + Convert(encode, s[4..], 0, pos + 4)
  {
    hide Convert, Near;
    Fades(encode, s, pos, 4);
  }

  lemma NoneAfter(s: seq<byte>, i: nat, d: nat)
    requires i + 5 <= |s| && d <= 4 && NoBranch(s, i + 1, i + d)
    ensures NoBranch(s[i..], 1, d) && Branches(s[i..], 0) == Branches(s, i) && Near(s[i..], 0) == Near(s, i)
  {
    assert forall j :: 0 <= j < |s| - i ==> Branches(s[i..], j) == Branches(s, i + j);
  }

  lemma NothingAfter(s: seq<byte>, i: nat)
    requires i + 5 <= |s|
    ensures Branches(s[i..], 0) == Branches(s, i) && Near(s[i..], 0) == Near(s, i)
  {
  }

  /** Bytes 0 to `j` of a word complemented. */
  function Flipped(w: int, j: nat): int
    requires j <= 2
  {
    var p := if j == 0 then 0x100 else if j == 1 then 0x1_0000 else 0x100_0000;
    w - w % p + (p - 1 - w % p)
  }

  function Digit(w: int, j: nat): int
    requires j <= 2
  {
    if j == 0 then w % 0x100 else if j == 1 then w / 0x100 % 0x100 else w / 0x1_0000 % 0x100
  }

  /** The target when byte `j` may not come out as 00 or FF: then the move is
      made once more, from the complement of bytes 0 to `j`. */
  function Guarded(encode: bool, n: int, next: nat, j: nat): int
    requires j <= 2
  {
    var w := Retargeted(encode, n, next) % 0x1_0000_0000;
    if Digit(w, j) == 0 || Digit(w, j) == 0xFF then Retargeted(encode, Flipped(w, j), next) else w
  }

  lemma GuardedIs(encode: bool, operand: seq<byte>, pos: nat, d: nat)
    requires |operand| == 4 && 1 <= d <= 3
    ensures MayConvert(Trace(d)) && Guard(Trace(d)) == 3 - d
    ensures var w, e := FromLe4(operand), FromLe4(ConvertOperand(encode, operand, Trace(d), pos));
            && e % 0x200_0000 == Guarded(encode, w, pos + 5, 3 - d) % 0x200_0000
            && (e < 0x100_0000 || 0xFF00_0000 <= e)
  {
    assert MayConvert(Trace(d)) && Guard(Trace(d)) == 3 - d by { TraceGuards(d); }
    hide SignExtend25, FromLe4, ToLe4, Trace, MayConvert, Guard, BitNumber, Move;
    var w, base, j := FromLe4(operand), Wrap32(pos + 5), 3 - d;
    var once := Move(encode, w, base);
    MoveIs(encode, w, pos + 5);
    MoveIs(encode, FlipLow(once, j), pos + 5);
    ExtendedIs(Converted(encode, w, base, j));
    ByteAtIs(once, j);
  }

  lemma ByteAtIs(w: u32, j: nat)
    requires j <= 2
    ensures ByteAt(w, j) == Digit(w, j) && FlipLow(w, j) == Flipped(w, j)
  {
  }

  lemma MoveIs(encode: bool, w: u32, next: nat)
    ensures Move(encode, w, Wrap32(next)) == Retargeted(encode, w, next) % 0x1_0000_0000
    ensures Move(encode, w, Wrap32(next)) % 0x200_0000 == Retargeted(encode, w, next) % 0x200_0000
  {
    MoveMod(encode, w, Wrap32(next), 0x1_0000_0000, 1);
    var x := Retargeted(encode, w, next);
    TargetMod(encode, w, next);
    hide Retargeted;
    ModMod(x, 0x200_0000, 0x80);
  }

  lemma TargetMod(encode: bool, w: u32, next: nat)
    ensures (if encode then w + Wrap32(next) else w - Wrap32(next)) % 0x1_0000_0000
         == Retargeted(encode, w, next) % 0x1_0000_0000
  {
    if encode {
      ModShift(next, w, 0x1_0000_0000);
    } else {
      ModSub(w, next, 0x1_0000_0000);
    }
  }

  lemma TraceGuards(d: nat)
    requires 1 <= d <= 3
    ensures MayConvert(Trace(d)) && Guard(Trace(d)) == 3 - d
  {
  }

  /** A branch up to three bytes after a first one that stays: if its operand is
      near, it becomes the target, kept away from 00 and FF in the byte that the
      first one had for its top. */
  lemma SecondConverts(encode: bool, s: seq<byte>, pos: nat, i: nat, d: nat)
    requires i + d + 5 <= |s| && NoBranch(s, 0, i) && Branches(s, i) && !Near(s, i)
    requires 1 <= d <= 3 && NoBranch(s, i + 1, i + d) && Branches(s, i + d) && Near(s, i + d)
    ensures var t, k := Convert(encode, s, 0, pos), i + d + 1;
            && t[..k] == s[..k] && Means(t, k, Guarded(encode, Word(s, k), pos + k + 4, 3 - d))
            && t[k + 4..] == Convert(encode, s[k + 4..], 0, pos + k + 4)
  {
    hide *;
    BeforeFirst(encode, s, pos, i);
    var r := s[i..];
    NoneAfter(s, i, d);
    Fades(encode, r, pos + i, d);
    var q, at := s[i + d..], pos + i + d;
    assert r[d..] == q && s[..i] + r[..d] == s[..i + d];
    Associates(s[..i], r[..d], Convert(encode, q, Trace(d), at));
    NothingAfter(s, i + d);
    SecondHead(encode, q, at, d);
    var u := Convert(encode, q, Trace(d), at);
    assert s == s[..i + d] + q;
    Behind(s[..i + d], u, i + d);
    Behind(s[..i + d], q, i + d);
  }

  lemma SecondHead(encode: bool, s: seq<byte>, pos: nat, d: nat)
    requires |s| >= 5 && Branches(s, 0) && Near(s, 0) && 1 <= d <= 3
    ensures var t := Convert(encode, s, Trace(d), pos);
            && t[0] == s[0] && Means(t, 1, Guarded(encode, Word(s, 1), pos + 5, 3 - d))
            && t[5..] == Convert(encode, s[5..], 0, pos + 5)
  {
    GuardedIs(encode, s[1..5], pos, d);
    WordIs(s, 1);
    var t := Convert(encode, s, Trace(d), pos);
    hide Guarded, Trace, ConvertOperand, SignExtend25, FromLe4, ToLe4, MayConvert;
    var head := [s[0]] + ConvertOperand(encode, s[1..5], Trace(d), pos);
    assert t == head + Convert(encode, s[5..], 0, pos + 5);
    assert head[1..5] == ConvertOperand(encode, s[1..5], Trace(d), pos);
    WordIs(head, 1);
    AtFront(head, Convert(encode, s[5..], 0, pos + 5));
  }

  /** Of the three bytes before a branch, at most one may be a branch that was
      left, and the top byte of its operand may not be 00 or FF. */
  lemma MayConvertIff(mask: bv8)
    requires mask & 0x11 == 0
    ensures MayConvert(mask) <==>
              && (forall d, e :: Skipped(mask, d) && Skipped(mask, e) ==> d == e)
              && (forall d :: !SkippedEdge(mask, d))
  {
    if MayConvert(mask) {
      MayConvertNamesOne(mask);
    } else {
      assert || SkippedEdge(mask, 1) || SkippedEdge(mask, 2) || SkippedEdge(mask, 3)
             || (Skipped(mask, 1) && Skipped(mask, 2)) || (Skipped(mask, 1) && Skipped(mask, 3))
             || (Skipped(mask, 2) && Skipped(mask, 3));
    }
  }
}
