/** Bytes as numbers and bytes as bits, a hexadecimal digit at a time. */
module ByteBits {
  import opened Bytes

  function Digit(n: nat): bv8
    requires n < 16
  {
    (if n >= 8 then 8 else 0) | (if n % 8 >= 4 then 4 else 0) | (if n % 4 >= 2 then 2 else 0)
    | (if n % 2 == 1 then 1 else 0)
  }

  function Number(x: bv8): (n: nat)
    ensures n < 16
  {
    (if x & 8 != 0 then 8 else 0) + (if x & 4 != 0 then 4 else 0)
    + (if x & 2 != 0 then 2 else 0) + (if x & 1 != 0 then 1 else 0)
  }

  function BitsOf(b: byte): bv8 {
    (Digit(b / 16) << 4) | Digit(b % 16)
  }

  function ByteOf(x: bv8): byte {
    16 * Number(x >> 4) + Number(x & 15)
  }

  lemma DigitBack(n: nat)
    requires n < 16
    ensures Number(Digit(n)) == n
  {
  }

  lemma NumberBack(x: bv8)
    requires x & 0xF0 == 0
    ensures Digit(Number(x)) == x
  {
  }

  lemma DigitIsLow(n: nat)
    requires n < 16
    ensures Digit(n) & 0xF0 == 0
  {
  }

  lemma TwoDigits(h: bv8, l: bv8)
    requires h & 0xF0 == 0 && l & 0xF0 == 0
    ensures ((h << 4) | l) >> 4 == h && ((h << 4) | l) & 15 == l
  {
  }

  lemma CutInDigits(x: bv8)
    ensures (x >> 4) & 0xF0 == 0 && (x & 15) & 0xF0 == 0 && ((x >> 4) << 4) | (x & 15) == x
  {
  }

  lemma ByteBack(b: byte)
    ensures ByteOf(BitsOf(b)) == b
  {
    hide Digit, Number;
    DigitIsLow(b / 16);
    DigitIsLow(b % 16);
    TwoDigits(Digit(b / 16), Digit(b % 16));
    DigitBack(b / 16);
    DigitBack(b % 16);
  }

  lemma BitsBack(x: bv8)
    ensures BitsOf(ByteOf(x)) == x
  {
    hide Digit, Number;
    CutInDigits(x);
    NumberBack(x >> 4);
    NumberBack(x & 15);
  }

  lemma LowDigit(n: nat)
    requires n < 16
    ensures n % 2 == 0 ==> Digit(n) & 1 == 0
    ensures n % 4 == 0 ==> Digit(n) & 3 == 0
    ensures n == 0 ==> Digit(n) & 15 == 0
  {
  }

  lemma LowBits(b: byte)
    ensures b % 2 == 0 ==> BitsOf(b) & 1 == 0
    ensures b % 4 == 0 ==> BitsOf(b) & 3 == 0
    ensures b % 16 == 0 ==> BitsOf(b) & 15 == 0
  {
    hide Digit;
    LowDigit(b % 16);
  }
}
