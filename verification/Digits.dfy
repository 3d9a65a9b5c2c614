/** Numbers written as ASCII digits in fixed-width fields. */
module Digits {
  import opened Arithmetic
  import opened Bytes
  import opened Wrappers

  const SPACE: byte := 0x20
  const ZERO: byte := 0x30
  const PLUS: byte := 0x2B
  const MAX_U64 := 0xFFFF_FFFF_FFFF_FFFF

  function DigitOf(b: byte, radix: nat): Option<nat> {
    var d := if 0x30 <= b <= 0x39 then b - 0x30
             else if 0x41 <= b <= 0x5A then b - 0x41 + 10
             else if 0x61 <= b <= 0x7A then b - 0x61 + 10
             else radix;
    if d < radix then Some(d) else None
  }

  /** The value of digits, most significant first. */
  function Folded(s: seq<byte>, radix: nat): Option<nat> {
    if s == [] then Some(0) else
    match (Folded(s[..|s| - 1], radix), DigitOf(s[|s| - 1], radix))
    case (Some(high), Some(d)) => Some(high * radix + d)
    case _ => None
  }

  /** An unsigned 64-bit number; a plus sign may come first. */
  function ParseUnsigned(s: seq<byte>, radix: nat): Option<nat> {
    var digits := if s != [] && s[0] == PLUS then s[1..] else s;
    if digits == [] then None else
    match Folded(digits, radix)
    case Some(n) => if n <= MAX_U64 then Some(n) else None
    case None => None
  }

  function TrimEnd(s: seq<byte>, b: byte): (t: seq<byte>)
    ensures |t| <= |s| && t == s[..|t|]
    ensures t == [] || t[|t| - 1] != b
  {
    if s != [] && s[|s| - 1] == b then TrimEnd(s[..|s| - 1], b) else s
  }

  // ─── Writing numbers ─────────────────────────────────────────────

  function Written(n: nat, radix: nat): (s: seq<byte>)
    requires 2 <= radix <= 10
    ensures s != [] && forall i :: 0 <= i < |s| ==> 0x30 <= s[i] < 0x30 + radix
    decreases n
  {
    if n < radix then [ZERO + n] else
    QuotientLess(n, radix);
    Written(Quotient(n, radix), radix) + [ZERO + Remainder(n, radix)]
  }

  lemma QuotientLess(n: nat, radix: nat)
    requires 2 <= radix <= n
    ensures Quotient(n, radix) < n && Remainder(n, radix) < radix
    ensures n == Quotient(n, radix) * radix + Remainder(n, radix)
  {
    var q := n / radix;
    assert n == radix * q + n % radix;
    MulMono(2, radix, q);
  }

  lemma FoldedAppends(s: seq<byte>, d: nat, radix: nat)
    requires d < radix <= 10 && Folded(s, radix).Some?
    ensures Folded(s + [ZERO + d], radix) == Some(Folded(s, radix).value * radix + d)
  {
    var t := s + [ZERO + d];
    assert t[..|t| - 1] == s;
  }

  lemma {:induction false} WrittenFolds(n: nat, radix: nat)
    requires 2 <= radix <= 10
    ensures Folded(Written(n, radix), radix) == Some(n)
    decreases n
  {
    if n < radix {
      FoldedAppends([], n, radix);
      assert [] + [ZERO + n] == [ZERO + n] && 0 * radix == 0;
    } else {
      hide Quotient, Remainder, Folded;
      QuotientLess(n, radix);
      WrittenFolds(Quotient(n, radix), radix);
      FoldedAppends(Written(Quotient(n, radix), radix), Remainder(n, radix), radix);
    }
  }

  lemma WrittenParses(n: nat, radix: nat)
    requires 2 <= radix <= 10 && n <= MAX_U64
    ensures ParseUnsigned(Written(n, radix), radix) == Some(n)
  {
    hide Folded, Written;
    WrittenFolds(n, radix);
    assert Written(n, radix)[0] != PLUS;
  }

  function Pow(radix: nat, k: nat): nat {
    if k > 0 then Pow(radix, k - 1) * radix else 1
  }

  /** A number below `radix` to the `k` fits in `k` digits. */
  lemma {:induction false} WrittenFits(n: nat, radix: nat, k: nat)
    requires 2 <= radix <= 10 && k >= 1 && n < Pow(radix, k)
    ensures |Written(n, radix)| <= k
    decreases k
  {
    if n >= radix && k > 1 {
      hide Quotient, Remainder;
      QuotientLess(n, radix);
      var q, p := Quotient(n, radix), Pow(radix, k - 1);
      MulLess(q, p, radix);
      WrittenFits(q, radix, k - 1);
    }
  }

  /** Digits past nine are upper-case letters. */
  function DigitByte(d: nat): (b: byte)
    requires d < 36
    ensures b >= ZERO
  {
    if d < 10 then ZERO + d else 0x41 + (d - 10)
  }

  /** Exactly `width` digits, with zeros in front. */
  function Zeroed(n: nat, radix: nat, width: nat): (s: seq<byte>)
    requires 2 <= radix <= 36
    ensures |s| == width && forall i :: 0 <= i < width ==> s[i] >= ZERO
    decreases width
  {
    if width > 0 then Zeroed(Quotient(n, radix), radix, width - 1) + [DigitByte(Remainder(n, radix))] else []
  }

  lemma FoldedNext(s: seq<byte>, d: nat, radix: nat)
    requires d < radix <= 36 && Folded(s, radix).Some?
    ensures Folded(s + [DigitByte(d)], radix) == Some(Folded(s, radix).value * radix + d)
  {
    var t := s + [DigitByte(d)];
    assert t[..|t| - 1] == s;
  }

  lemma QuotientBelow(n: nat, radix: nat, p: nat)
    requires 2 <= radix && n < p * radix
    ensures Quotient(n, radix) < p && Remainder(n, radix) < radix
    ensures n == Quotient(n, radix) * radix + Remainder(n, radix)
  {
    assert n == radix * (n / radix) + n % radix;
    MulLess(n / radix, p, radix);
  }

  lemma {:induction false} ZeroedFolds(n: nat, radix: nat, width: nat)
    requires 2 <= radix <= 36 && n < Pow(radix, width)
    ensures Folded(Zeroed(n, radix, width), radix) == Some(n)
    decreases width
  {
    if width > 0 {
      hide Quotient, Remainder, Folded, DigitByte;
      QuotientBelow(n, radix, Pow(radix, width - 1));
      ZeroedFolds(Quotient(n, radix), radix, width - 1);
      FoldedNext(Zeroed(Quotient(n, radix), radix, width - 1), Remainder(n, radix), radix);
    }
  }

  lemma ZeroedParses(n: nat, radix: nat, width: nat)
    requires 2 <= radix <= 36 && 1 <= width && n < Pow(radix, width) && n <= MAX_U64
    ensures ParseUnsigned(Zeroed(n, radix, width), radix) == Some(n)
  {
    hide Folded, Zeroed;
    ZeroedFolds(n, radix, width);
  }

  // ─── Fields ──────────────────────────────────────────────────────

  function Spaces(n: nat): (s: seq<byte>)
    ensures |s| == n
  {
    seq(n, _ => SPACE)
  }

  function Padded(s: seq<byte>, width: nat): (f: seq<byte>)
    requires |s| <= width
    ensures |f| == width
  {
    s + Spaces(width - |s|)
  }

  lemma {:induction false} TrimSpaces(s: seq<byte>, n: nat)
    requires s == [] || s[|s| - 1] != SPACE
    ensures TrimEnd(s + Spaces(n), SPACE) == s
    decreases n
  {
    if n == 0 {
      assert s + Spaces(0) == s;
    } else {
      var f := s + Spaces(n);
      assert f[..|f| - 1] == s + Spaces(n - 1);
      TrimSpaces(s, n - 1);
    }
  }

  lemma PaddedTrims(s: seq<byte>, width: nat)
    requires |s| <= width && (s == [] || s[|s| - 1] != SPACE)
    ensures TrimEnd(Padded(s, width), SPACE) == s
  {
    TrimSpaces(s, width - |s|);
  }
}
