/** Small facts about products that the solver should not have to find. */
module Arithmetic {
  function Min(a: nat, b: nat): nat {
    if a <= b then a else b
  }

  function Quotient(a: nat, b: nat): nat
    requires b > 0
  {
    a / b
  }

  function Remainder(a: nat, b: nat): nat
    requires b > 0
  {
    a % b
  }

  lemma MulMono(a: nat, b: nat, c: nat)
    requires a <= b
    ensures a * c <= b * c
  {
  }

  lemma MulSwap(a: int, b: int, c: int)
    ensures a * (b * c) == b * (a * c)
  {
  }

  lemma MulAdd(a: int, b: int, c: int)
    ensures (a + b) * c == a * c + b * c
  {
  }

  /** A product strictly below another leaves its smaller factor below. */
  lemma MulLess(a: nat, b: nat, c: nat)
    requires a * c < b * c
    ensures a < b
  {
    if b <= a {
      MulMono(b, a, c);
    }
  }

  lemma DivModUnique(x: int, p: nat, h: int, l: nat)
    requires l < p && x == p * h + l
    ensures x / p == h && x % p == l
  {
    var d := x / p - h;
    assert p * d == l - x % p by {
      assert p * d == p * (x / p) - p * h;
    }
    MulReaches(p, d);
  }

  lemma MulReaches(p: nat, d: int)
    ensures d >= 1 ==> p * d >= p
    ensures d <= -1 ==> p * d <= 0 - p
  {
  }

  lemma ModMultiple(p: nat, m: int, r: int)
    requires p > 0
    ensures (p * m + r) % p == r % p
  {
    assert p * m + r == p * (m + r / p) + r % p by {
      assert p * (m + r / p) == p * m + p * (r / p);
    }
    DivModUnique(p * m + r, p, m + r / p, r % p);
  }

  lemma ModShift(x: int, b: int, p: nat)
    requires p > 0
    ensures (x % p + b) % p == (x + b) % p
  {
    var m, r := x / p, x % p + b;
    assert p * m + r == x + b;
    ModMultiple(p, m, r);
  }

  /** A modulus that divides another one survives reduction by it. */
  lemma ModMod(x: int, p: nat, c: nat)
    requires p > 0 && c > 0
    ensures p * c > 0 && x % (p * c) % p == x % p
  {
    var q, r := x / (p * c), x % (p * c);
    assert x == p * (c * q) + r by {
      assert p * (c * q) == p * c * q;
    }
    ModMultiple(p, c * q, r);
  }

  lemma ModAdd(x: int, y: int, p: nat)
    requires p > 0
    ensures (x % p + y % p) % p == (x + y) % p
  {
    var m := x / p + y / p;
    MulAdd(x / p, y / p, p);
    assert x + y == p * m + (x % p + y % p);
    ModMultiple(p, m, x % p + y % p);
  }

  lemma ModSub(x: int, y: int, p: nat)
    requires p > 0
    ensures (x % p - y % p) % p == (x - y) % p
  {
    var m := x / p - y / p;
    MulAdd(x / p, -(y / p), p);
    assert x - y == p * m + (x % p - y % p);
    ModMultiple(p, m, x % p - y % p);
  }

  // ─── Powers of two ───────────────────────────────────────────────

  function Pow2(k: nat): (p: nat)
    ensures p >= 1
  {
    if k > 0 then 2 * Pow2(k - 1) else 1
  }

  lemma {:induction false} Pow2Mono(m: nat, n: nat)
    requires m <= n
    ensures Pow2(m) <= Pow2(n)
    decreases n
  {
    if m < n {
      Pow2Mono(m, n - 1);
    }
  }

  lemma {:induction false} Pow2Add(m: nat, n: nat)
    ensures Pow2(m + n) == Pow2(m) * Pow2(n)
    decreases n
  {
    if n > 0 {
      Pow2Add(m, n - 1);
      assert Pow2(m) * (2 * Pow2(n - 1)) == 2 * (Pow2(m) * Pow2(n - 1));
    }
  }

  lemma SmallPowers()
    ensures Pow2(0) == 1 && Pow2(1) == 2 && Pow2(2) == 4 && Pow2(3) == 8 && Pow2(4) == 16 && Pow2(5) == 32
    ensures Pow2(6) == 64 && Pow2(7) == 128 && Pow2(8) == 256
  {
    assert Pow2(2) == 4;
    assert Pow2(4) == 16;
    assert Pow2(6) == 64;
  }
}
