/** Powers of two, and division by them. */
module Powers {
  import opened Arithmetic

  /** The bits from `k` on, and the `k` bits below. */
  function Shr(x: nat, k: nat): nat {
    Quotient(x, Pow2(k))
  }

  function Low(x: nat, k: nat): nat {
    Remainder(x, Pow2(k))
  }

  /** The number moved up by `k` bits. */
  function Up(x: nat, k: nat): nat {
    x * Pow2(k)
  }

  lemma Digits(l: nat, m: nat, p: nat, q: nat)
    requires l < p && m < q
    ensures p * m + l < p * q
  {
    MulMono(m + 1, q, p);
    assert (m + 1) * p == p * m + p;
    assert q * p == p * q;
  }

  /** Two digits, of `q` and `p`, above and below. */
  lemma Nested(p: nat, q: nat, z: nat, m: nat, l: nat)
    requires l < p && m < q
    ensures (p * (q * z + m) + l) / (p * q) == z && (p * (q * z + m) + l) % (p * q) == p * m + l
  {
    Digits(l, m, p, q);
    assert p * (q * z + m) == p * (q * z) + p * m;
    assert p * (q * z) == p * q * z;
    DivModUnique(p * (q * z + m) + l, p * q, z, p * m + l);
  }

  lemma Euclid(x: nat, p: nat)
    requires p > 0
    ensures x == p * (x / p) + x % p && x % p < p
  {
  }

  /** Both digits of a number. */
  lemma NestedOf(x: nat, p: nat, q: nat)
    requires p > 0 && q > 0
    ensures p * q > 0 && x / p / q == x / (p * q) && x % (p * q) == p * (x / p % q) + x % p
  {
    Euclid(x, p);
    Euclid(x / p, q);
    Nested(p, q, x / p / q, x / p % q, x % p);
  }

  lemma ShrShr(x: nat, a: nat, b: nat)
    ensures Shr(Shr(x, a), b) == Shr(x, a + b)
  {
    Pow2Add(a, b);
    NestedOf(x, Pow2(a), Pow2(b));
  }

  /** The low `a + b` bits are `b` bits above the low `a`. */
  lemma LowSplit(x: nat, a: nat, b: nat)
    ensures Low(x, a + b) == Up(Low(Shr(x, a), b), a) + Low(x, a)
  {
    Pow2Add(a, b);
    NestedOf(x, Pow2(a), Pow2(b));
  }

  lemma UpParts(h: nat, l: nat, a: nat)
    requires l < Pow2(a)
    ensures Shr(Up(h, a) + l, a) == h && Low(Up(h, a) + l, a) == l
  {
    DivModUnique(Up(h, a) + l, Pow2(a), h, l);
  }

  lemma LowBound(x: nat, k: nat)
    ensures Low(x, k) < Pow2(k)
    ensures x < Pow2(k) ==> Low(x, k) == x && Shr(x, k) == 0
  {
    if x < Pow2(k) {
      DivModUnique(x, Pow2(k), 0, x);
    }
  }

  /** Taking bits off the top, then off the bottom, or the other way round. */
  lemma LowShr(x: nat, a: nat, b: nat)
    ensures Shr(Low(x, a + b), a) == Low(Shr(x, a), b) && Low(Low(x, a + b), a) == Low(x, a)
  {
    LowSplit(x, a, b);
    LowBound(x, a);
    UpParts(Low(Shr(x, a), b), Low(x, a), a);
  }

  lemma ScaledMod(x: nat, p: nat, q: nat)
    requires p > 0 && q > 0
    ensures p * q > 0 && x * p % (p * q) == x % q * p
  {
    Euclid(x, q);
    Nested(p, q, x / q, x % q, 0);
    assert x * p == p * (q * (x / q) + x % q) + 0;
  }

  /** Moving up drops the bits that no longer fit. */
  lemma LowUp(x: nat, a: nat, b: nat)
    ensures Low(Up(x, a), a + b) == Up(Low(x, b), a)
  {
    Pow2Add(a, b);
    ScaledMod(x, Pow2(a), Pow2(b));
  }

  lemma UpUp(x: nat, a: nat, b: nat)
    ensures Up(Up(x, a), b) == Up(x, a + b)
  {
    Pow2Add(a, b);
    var p, q := Pow2(a), Pow2(b);
    assert x * p * q == x * (p * q);
  }

  lemma UpAdd(x: nat, y: nat, a: nat)
    ensures Up(x + y, a) == Up(x, a) + Up(y, a)
  {
    MulAdd(x, y, Pow2(a));
  }

  lemma ByOne(x: nat)
    ensures Up(x, 1) == 2 * x && Low(x, 1) == x % 2 && Shr(x, 1) == x / 2
    ensures Up(x, 0) == x && Low(x, 0) == 0 && Shr(x, 0) == x
  {
    SmallPowers();
  }

  lemma ByEight(x: nat)
    ensures Low(x, 8) == x % 0x100 && Shr(x, 8) == x / 0x100 && Up(x, 8) == x * 0x100
  {
    SmallPowers();
  }
}
