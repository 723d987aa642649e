/** The 256-bit words of the EVM (Ethereum Yellow Paper, Appendix H.2). */
module Words {

  const WORD_MODULUS: nat := 0x1_0000000000000000_0000000000000000_0000000000000000_0000000000000000
  const HALF_MODULUS: nat := 0x8000000000000000_0000000000000000_0000000000000000_0000000000000000

  type Word = w: nat | w < WORD_MODULUS
  type Uint64 = w: nat | w < 0x1_0000_0000_0000_0000

  function FromBool(b: bool): Word {
    if b then 1 else 0
  }

  function Add(a: Word, b: Word): Word {
    (a + b) % WORD_MODULUS
  }

  function Sub(a: Word, b: Word): Word {
    (a - b) % WORD_MODULUS
  }

  function Mul(a: Word, b: Word): Word {
    Product(a, b) % WORD_MODULUS
  }

  function Div(a: Word, b: Word): Word {
    if b == 0 then 0 else Quotient(a, b)
  }

  function Mod(a: Word, b: Word): Word {
    if b == 0 then 0 else Remainder(a, b)
  }

  // Products and quotients by repeated addition and subtraction: proofs about
  // code that merely passes words around then meet no nonlinear arithmetic.

  function Product(a: nat, b: nat): nat {
    if b == 0 then 0 else a + Product(a, b - 1)
  }

  function Quotient(a: nat, b: nat): (q: nat)
    requires b > 0
    ensures q <= a
  {
    if a < b then 0 else 1 + Quotient(a - b, b)
  }

  function Remainder(a: nat, b: nat): (r: nat)
    requires b > 0
    ensures r <= a && r < b
  {
    if a < b then a else Remainder(a - b, b)
  }

  lemma {:induction false} ProductIs(a: nat, b: nat)
    ensures Product(a, b) == a * b
  {
    if b > 0 {
      ProductIs(a, b - 1);
      assert a * b == a * (b - 1) + a;
    }
  }

  lemma {:induction false} QuotientIs(a: nat, b: nat)
    requires b > 0
    ensures b * Quotient(a, b) + Remainder(a, b) == a
  {
    if a >= b {
      QuotientIs(a - b, b);
      assert b * Quotient(a, b) == b * Quotient(a - b, b) + b;
    }
  }

  // ---------------------------------------------------------------------------
  // Bitwise operations, bit by bit
  // ---------------------------------------------------------------------------

  function AndBits(a: nat, b: nat): (r: nat)
    ensures r <= a
  {
    if a == 0 then 0 else 2 * AndBits(a / 2, b / 2) + (if a % 2 == 1 && b % 2 == 1 then 1 else 0)
  }

  function OrBits(a: nat, b: nat): (r: nat)
    decreases a + b
  {
    if a == 0 && b == 0 then 0
    else 2 * OrBits(a / 2, b / 2) + (if a % 2 == 1 || b % 2 == 1 then 1 else 0)
  }

  function PowerOfTwo(k: nat): nat {
    if k == 0 then 1 else 2 * PowerOfTwo(k - 1)
  }

  lemma {:induction false} OrBitsBound(a: nat, b: nat, k: nat)
    requires a < PowerOfTwo(k) && b < PowerOfTwo(k)
    ensures OrBits(a, b) < PowerOfTwo(k)
    decreases k
  {
    if k > 0 {
      OrBitsBound(a / 2, b / 2, k - 1);
    }
  }

  lemma {:induction false} PowerSum(i: nat, j: nat)
    ensures PowerOfTwo(i + j) == PowerOfTwo(i) * PowerOfTwo(j)
    decreases i
  {
    if i > 0 {
      PowerSum(i - 1, j);
      assert PowerOfTwo(i + j) == 2 * PowerOfTwo(i - 1 + j);
    }
  }

  lemma ModulusIsPower()
    ensures PowerOfTwo(256) == WORD_MODULUS
  {
    assert PowerOfTwo(4) == 16 by { assert PowerOfTwo(2) == 4; }
    PowerSum(4, 4);
    assert PowerOfTwo(8) == 0x100;
    PowerSum(8, 8);
    assert PowerOfTwo(16) == 0x1_0000;
    PowerSum(16, 16);
    assert PowerOfTwo(32) == 0x1_0000_0000;
    PowerSum(32, 32);
    assert PowerOfTwo(64) == 0x1_0000_0000_0000_0000;
    PowerSum(64, 64);
    assert PowerOfTwo(128) == 0x1_0000_0000_0000_0000_0000_0000_0000_0000;
    PowerSum(128, 128);
  }

  function And(a: Word, b: Word): Word {
    AndBits(a, b)
  }

  function Or(a: Word, b: Word): Word {
    ModulusIsPower();
    OrBitsBound(a, b, 256);
    OrBits(a, b)
  }

  /** Sums, differences and products are right up to multiples of the modulus, of which a word has only one. */
  lemma ArithmeticIs(a: Word, b: Word)
    ensures (Add(a, b) - (a + b)) % WORD_MODULUS == 0 && (Sub(a, b) - (a - b)) % WORD_MODULUS == 0
    ensures (Mul(a, b) - a * b) % WORD_MODULUS == 0
  {
    ProductIs(a, b);
    Congruent(a + b);
    Congruent(a - b);
    Congruent(a * b);
  }

  /** Quotient and remainder, and what division by 0 gives (Yellow Paper, Appendix H.2). */
  lemma DivisionIs(a: Word, b: Word)
    ensures b > 0 ==> b * Div(a, b) + Mod(a, b) == a && Mod(a, b) < b
    ensures b == 0 ==> Div(a, b) == 0 && Mod(a, b) == 0
  {
    if b > 0 {
      QuotientIs(a, b);
    }
  }

  lemma Congruent(n: int)
    ensures (n % WORD_MODULUS - n) % WORD_MODULUS == 0
  {
    var q := n / WORD_MODULUS;
    assert n == q * WORD_MODULUS + n % WORD_MODULUS;
    assert n % WORD_MODULUS - n == (-q) * WORD_MODULUS;
  }

  predicate Bit(n: nat, k: nat) {
    if k == 0 then n % 2 == 1 else Bit(n / 2, k - 1)
  }

  /** Bitwise operations, at every bit. */
  lemma {:induction false} BitwiseIs(a: nat, b: nat, k: nat)
    ensures Bit(AndBits(a, b), k) <==> Bit(a, k) && Bit(b, k)
    ensures Bit(OrBits(a, b), k) <==> Bit(a, k) || Bit(b, k)
    decreases k
  {
    if k > 0 {
      BitwiseIs(a / 2, b / 2, k - 1);
      HalfAnd(a, b);
      HalfOr(a, b);
    }
  }

  lemma HalfAnd(a: nat, b: nat)
    ensures AndBits(a, b) / 2 == AndBits(a / 2, b / 2)
  {
  }

  lemma HalfOr(a: nat, b: nat)
    ensures OrBits(a, b) / 2 == OrBits(a / 2, b / 2)
  {
  }

  /** On the encodings of booleans the bitwise operations are the logical ones. */
  lemma BitwiseOnBooleans(p: bool, q: bool)
    ensures And(FromBool(p), FromBool(q)) == FromBool(p && q)
    ensures Or(FromBool(p), FromBool(q)) == FromBool(p || q)
  {
    assert AndBits(0, 0) == 0 && OrBits(0, 0) == 0;
  }
}
