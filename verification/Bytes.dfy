/** Bytes, 32-bit words and their encodings as digit strings. */
module Bytes {
  import opened Arithmetic

  type byte = b: nat | b < 0x100
  type u32 = w: nat | w < 0x1_0000_0000

  const TWO_32 := 0x1_0000_0000

  /** Reduction of a wrapping 32-bit computation. */
  function Wrap32(x: int): u32 {
    x % TWO_32
  }

  lemma WrapAdds(k: nat, n: nat)
    ensures Wrap32(Wrap32(k) + n) == Wrap32(k + n)
  {
  }

  lemma WrapCancels(w: u32, k: nat)
    ensures Wrap32(Wrap32(w + k) - Wrap32(k)) == w
  {
  }

  /** Wrapping addition of bytes. */
  function AddBytes(a: int, b: int): byte {
    (a + b) % 0x100
  }

  function Zeros(n: nat): (s: seq<byte>)
    ensures |s| == n && forall i :: 0 <= i < n ==> s[i] == 0
  {
    seq(n, _ => 0)
  }

  function FromLe4(s: seq<byte>): u32
    requires |s| == 4
  {
    0x100 * (0x100 * (0x100 * (s[3] as int) + s[2]) + s[1]) + s[0]
  }

  function FromBe4(s: seq<byte>): u32
    requires |s| == 4
  {
    0x100 * (0x100 * (0x100 * (s[0] as int) + s[1]) + s[2]) + s[3]
  }

  function ToLe4(w: u32): (s: seq<byte>)
    ensures |s| == 4 && FromLe4(s) == w
  {
    var q := w / 0x100;
    var r := q / 0x100;
    [w % 0x100, q % 0x100, r % 0x100, r / 0x100]
  }

  function ToBe4(w: u32): (s: seq<byte>)
    ensures |s| == 4 && FromBe4(s) == w
  {
    var q := w / 0x100;
    var r := q / 0x100;
    [r / 0x100, r % 0x100, q % 0x100, w % 0x100]
  }

  lemma Le4RoundTrip(s: seq<byte>)
    requires |s| == 4
    ensures ToLe4(FromLe4(s)) == s
  {
    var w: int, a: int, b: int, c: int, d: int := FromLe4(s), s[0], s[1], s[2], s[3];
    assert w == 0x100 * (0x100 * (0x100 * d + c) + b) + a;
    DivModUnique(w, 0x100, 0x100 * (0x100 * d + c) + b, a);
    DivModUnique(0x100 * (0x100 * d + c) + b, 0x100, 0x100 * d + c, b);
  }

  /** The number a digit string writes in base 256, most significant first. */
  function Value(s: seq<byte>): nat {
    if s == [] then 0 else 0x100 * Value(s[..|s| - 1]) + s[|s| - 1]
  }

  lemma ValueAppend(s: seq<byte>, b: byte)
    ensures Value(s + [b]) == 0x100 * Value(s) + b
  {
    assert (s + [b])[..|s|] == s;
  }

  lemma ValuePrefixStep(s: seq<byte>, n: nat)
    requires n < |s|
    ensures Value(s[..n + 1]) == 0x100 * Value(s[..n]) + s[n]
  {
    assert s[..n + 1] == s[..n] + [s[n]];
    ValueAppend(s[..n], s[n]);
  }

  function Pow256(k: nat): (p: nat)
    ensures p >= 1
  {
    if k > 0 then 0x100 * Pow256(k - 1) else 1
  }

  lemma Rescale(a: int, p: int)
    ensures 0x100 * a * p == a * (0x100 * p)
  {
  }

  /** A prefix fixes the value up to the weight of the digits left out. */
  lemma {:induction false} ValuePrefix(s: seq<byte>, n: nat)
    requires n <= |s|
    ensures Value(s[..n]) * Pow256(|s| - n) <= Value(s)
    ensures Value(s) < (Value(s[..n]) + 1) * Pow256(|s| - n)
    decreases |s| - n
  {
    if n == |s| {
      assert s[..n] == s;
    } else {
      ValuePrefix(s, n + 1);
      ValuePrefixStep(s, n);
      var v, w, p := Value(s[..n]), Value(s[..n + 1]), Pow256(|s| - n - 1);
      MulMono(0x100 * v, w, p);
      MulMono(w + 1, 0x100 * (v + 1), p);
      Rescale(v, p);
      Rescale(v + 1, p);
    }
  }

  /** Copies `src` into `dst` at `at`. */
  method CopyInto(src: seq<byte>, dst: array<byte>, at: nat)
    requires at + |src| <= dst.Length
    modifies dst
    ensures dst[..at] == old(dst[..at])
    ensures dst[..at + |src|] == old(dst[..at]) + src
    ensures dst[at + |src|..] == old(dst[at + |src|..])
  {
    for k := 0 to |src|
      invariant dst[..at] == old(dst[..at])
      invariant dst[at..at + k] == src[..k]
      invariant dst[at + k..] == old(dst[at + k..])
    {
      dst[at + k] := src[k];
    }
  }

  /** Copies `src` to the front of `dst`. */
  method CopyFront(src: seq<byte>, dst: array<byte>)
    requires |src| <= dst.Length
    modifies dst
    ensures dst[..|src|] == src && dst[|src|..] == old(dst[|src|..])
  {
    CopyInto(src, dst, 0);
    assert old(dst[..0]) + src == src;
  }
}
