/** The MIPS simulator's shift-and-add multiplier.

  C's 32-bit words are integers here: `int32` is the signed reading of a word, `word` the unsigned one, and
  every operation that can leave 32 bits is wrapped explicitly. On an `int32`, Euclidean `% 2` is the
  low bit and `/ 2` is the arithmetic shift `>>= 1`, for negative values as well. */
module Multiplier {
  import opened Bytes

  const WORD: int := 0x1_0000_0000

  /** C's unary minus on an int: the most negative value is its own negation. */
  function Negate(x: int32): int32 {
    if x == -0x8000_0000 then x else -x
  }

  function Abs(x: int): nat {
    if x < 0 then -x else x
  }

  /** The double word whose halves are `hi` and `lo`. */
  function Double(hi: word, lo: word): nat {
    hi * WORD + lo
  }

  /** Multiplication as repeated addition, which keeps the loop's arithmetic linear. */
  function Times(b: nat, n: nat): nat {
    if n == 0 then 0 else b + Times(b, n - 1)
  }

  lemma {:induction false} TimesIsProduct(b: nat, n: nat)
    ensures Times(b, n) == b * n
  {
    if n > 0 {
      TimesIsProduct(b, n - 1);
      assert b * n == b * (n - 1) + b;
    }
  }

  lemma {:induction false} HalveRest(b: nat, rest: nat)
    ensures Times(b, rest) == Times(2 * b, rest / 2) + (if rest % 2 == 1 then b else 0)
  {
    if rest >= 2 {
      HalveRest(b, rest - 2);
      assert (rest - 2) / 2 == rest / 2 - 1;
      assert Times(b, rest) == b + Times(b, rest - 1) == b + b + Times(b, rest - 2);
    }
  }

  /** Before step i of the main loop: `rest` holds the bits of the multiplier not read yet, `a` is what the
      arithmetic shifts have left of it, and the sum so far plus `rest` copies of the shifted
      multiplicand is the product. */
  ghost predicate LoopInvariant(i: nat, rest: nat, product: nat, neg: bool, a: int32, b: nat, sum: nat) {
    && i <= 32
    && rest < Pow2(32 - i)
    && rest == (if neg then a + Pow2(32 - i) else a)
    && b <= (WORD - 1) * Pow2(i)
    && sum + Times(b, rest) == product < WORD * WORD
  }

  /** Reading one bit: afterwards the sum is short of the product by what the shifted operands still make. */
  lemma BitStep(i: nat, rest: nat, product: nat, neg: bool, a: int32, b: nat, sum: nat)
    requires i < 32 && LoopInvariant(i, rest, product, neg, a, b, sum)
    ensures (if a % 2 == 1 then sum + b else sum) + Times(2 * b, rest / 2) == product
    ensures a == 1 ==> rest / 2 == 0
  {
    assert Pow2(32 - i) == 2 * Pow2(31 - i);
    HalveRest(b, rest);
  }

  /** Double-word addition by halves: the low sum carries exactly when it wraps below an addend. */
  method AddDouble(hi: word, lo: word, bHi: word, bLo: word) returns (hi': word, lo': word)
    requires Double(hi, lo) + Double(bHi, bLo) < WORD * WORD
    ensures Double(hi', lo') == Double(hi, lo) + Double(bHi, bLo)
  {
    hi', lo' := hi, (lo + bLo) % WORD;
    if lo' < bLo {
      hi' := (hi' + 1) % WORD;
    }
    hi' := (hi' + bHi) % WORD;
  }

  /** One left shift of a double word whose top bit is clear. */
  method ShiftDouble(bHi: word, bLo: word) returns (bHi': word, bLo': word)
    requires 2 * Double(bHi, bLo) < WORD * WORD
    ensures Double(bHi', bLo') == 2 * Double(bHi, bLo)
  {
    bHi' := (2 * bHi) % WORD;
    if bLo >= 0x8000_0000 {
      bHi' := bHi' + 1;
    }
    bLo' := (2 * bLo) % WORD;
  }

  /** Shifting both operands keeps the invariant; the sign bits shifted into `a` are never read. */
  lemma ShiftStep(i: nat, rest: nat, product: nat, neg: bool, a: int32, b: nat, sum: nat)
    requires i < 32
    requires rest < Pow2(32 - i) && rest == (if neg then a + Pow2(32 - i) else a)
    requires b <= (WORD - 1) * Pow2(i)
    requires sum + Times(2 * b, rest / 2) == product < WORD * WORD
    ensures 2 * b < WORD * WORD
    ensures LoopInvariant(i + 1, rest / 2, product, neg, a / 2, 2 * b, sum)
  {
    Pow2Of32();
    Pow2Increases(i + 1, 32);
    assert Pow2(32 - i) == 2 * Pow2(31 - i);
    assert Pow2(i + 1) == 2 * Pow2(i);
  }

  lemma {:induction false} Pow2Increases(m: nat, n: nat)
    requires m <= n
    ensures Pow2(m) <= Pow2(n)
    decreases n
  {
    if m < n {
      Pow2Increases(m, n - 1);
    }
  }

  lemma {:induction false} ProductFits(x: nat, y: word)
    ensures Times(y, x) <= (WORD - 1) * x
  {
    if x > 0 {
      ProductFits(x - 1, y);
    }
  }

  /** The main loop: add up shifted copies of `b0`, one for every set bit of `a0`. */
  method MultiplyMagnitudes(a0: int32, b0: int32) returns (hi: word, lo: word)
    ensures Double(hi, lo) == Times(ToWord(b0), ToWord(a0))
  {
    var a: int32 := a0;
    var bLo: word, bHi: word := ToWord(b0), 0;
    lo, hi := 0, 0;
    ghost var product, rest := Times(ToWord(b0), ToWord(a0)), ToWord(a0);
    Pow2Of32();
    ProductFits(ToWord(a0), ToWord(b0));
    for i := 0 to 32
      invariant LoopInvariant(i, rest, product, a0 < 0, a, Double(bHi, bLo), Double(hi, lo))
    {
      BitStep(i, rest, product, a0 < 0, a, Double(bHi, bLo), Double(hi, lo));
      if a % 2 == 1 {
        hi, lo := AddDouble(hi, lo, bHi, bLo);
        if a == 1 {
          return;
        }
      }
      ShiftStep(i, rest, product, a0 < 0, a, Double(bHi, bLo), Double(hi, lo));
      bHi, bLo := ShiftDouble(bHi, bLo);
      a := a / 2;
      rest := rest / 2;
    }
  }

  /** The halves read together, as an unsigned number and as two's complement. */
  function UnsignedPair(hi: int32, lo: int32): int {
    ToWord(hi) * WORD + ToWord(lo)
  }

  function SignedPair(hi: int32, lo: int32): int {
    hi * WORD + ToWord(lo)
  }

  /** Mult: `hi` and `lo` hold the exact 64-bit product, for every pair of operands. */
  method Mult(a0: int32, b0: int32, signedArith: bool) returns (hi: int32, lo: int32)
    ensures !signedArith ==> UnsignedPair(hi, lo) == ToWord(a0) * ToWord(b0)
    ensures signedArith ==> SignedPair(hi, lo) == a0 * b0
  {
    if a0 == 0 || b0 == 0 {
      return 0, 0;
    }
    var a: int32, b: int32 := a0, b0;
    var negative := false;
    if signedArith {
      if a < 0 {
        negative := !negative;
        a := Negate(a);
      }
      if b < 0 {
        negative := !negative;
        b := Negate(b);
      }
    }
    var uHi, uLo := MultiplyMagnitudes(a, b);
    if signedArith {
      SignedMagnitude(a0, b0, uHi, uLo);
    } else {
      TimesIsProduct(ToWord(b), ToWord(a));
    }
    if negative {
      uHi, uLo := TwosComplement(uHi, uLo);
    }
    hi, lo := ToInt(uHi), ToInt(uLo);
  }

  method TwosComplement(hi: word, lo: word) returns (hi': word, lo': word)
    requires Double(hi, lo) > 0
    ensures Double(hi', lo') == WORD * WORD - Double(hi, lo)
  {
    hi', lo' := WORD - 1 - hi, WORD - 1 - lo;
    lo' := (lo' + 1) % WORD;
    if lo' == 0 {
      hi' := (hi' + 1) % WORD;
    }
  }

  /** Signed operands multiply to at most 2^62 in magnitude, so the product's sign fits in bit 63. */
  lemma SignedMagnitude(a: int32, b: int32, hi: word, lo: word)
    requires a != 0 && b != 0
    requires Double(hi, lo) == Times(Abs(b), Abs(a))
    ensures Double(hi, lo) == if (a < 0) != (b < 0) then -(a * b) else a * b
    ensures 0 < Double(hi, lo) <= 0x8000_0000 * 0x8000_0000
  {
    var m, n := Abs(a), Abs(b);
    MagnitudeBounds(m, n);
    TimesIsProduct(n, m);
    var x: int, y: int := a, b;
    if x < 0 && y < 0 {
      assert (-x) * (-y) == x * y;
    } else if x < 0 {
      assert (-x) * y == -(x * y);
    } else if y < 0 {
      assert x * (-y) == -(x * y);
    }
  }

  lemma MagnitudeBounds(m: nat, n: nat)
    requires 1 <= m <= 0x8000_0000 && 1 <= n <= 0x8000_0000
    ensures 0 < m * n <= 0x8000_0000 * 0x8000_0000
  {
    assert m * n <= 0x8000_0000 * n;
  }

  /** A pair of words is determined by the number it stands for, so Mult's contract admits one result. */
  lemma ResultIsUnique(hi: int32, lo: int32, hi': int32, lo': int32)
    requires UnsignedPair(hi, lo) == UnsignedPair(hi', lo') || SignedPair(hi, lo) == SignedPair(hi', lo')
    ensures hi == hi' && lo == lo'
  {}
}
