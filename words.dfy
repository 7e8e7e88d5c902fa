/**
 * 24-bit machine words and the C integer operations that all three Vulcan engines share:
 * the `& 0xffffff` mask applied on every push, two's-complement `to_signed`, the shift
 * operators, the `ARSHIFT` sign-filling loop and C's truncating division.
 */
module Words {
  /** Number of distinct 24-bit words; the source's mask 0xffffff is WORD - 1. */
  const WORD: int := 0x100_0000
  /** Bit 23, the sign bit of a word (the source's 0x800000). */
  const SIGN: int := 0x80_0000

  type Byte = x: int | 0 <= x < 256
  type Word = x: int | 0 <= x < 0x100_0000

  /** Why an instruction could not be given a meaning: these are the cases where the
      C code has undefined behaviour. The model stops the cycle and reports them. */
  datatype Fault = DivideByZero | ShiftTooWide | StackIndexOutOfRange

  /** Result of one instruction cycle. */
  datatype Status = Ok | Failed(fault: Fault)

  /** A decoded value, or none. */
  datatype Option<T> = None | Some(value: T)

  /** `x & 0xffffff` on a two's-complement C integer: the unique word congruent to x. */
  function Mask24(x: int): Word
  {
    x % WORD
  }

  /** The push mask leaves a word as it is. */
  lemma MaskWord(w: Word)
    ensures Mask24(w) == w
  {
  }

  /** `to_signed`: sign-extend bit 23 of a word. */
  function ToSigned(w: Word): (r: int)
    ensures -SIGN <= r < SIGN
    ensures Mask24(r) == w
    ensures (r < 0) <==> (w >= SIGN)
  {
    // For a 24-bit w, (w ^ 0xffffff) is 0xffffff - w.
    if w >= SIGN then -((WORD - 1 - w) + 1) else w
  }

  /** Encoding a value of [-2^23, 2^23) and decoding it again gives the value back. */
  lemma SignedRoundTrip(x: int)
    requires -SIGN <= x < SIGN
    ensures ToSigned(Mask24(x)) == x
  {
    if x < 0 {
      assert Mask24(x) == x + WORD;
    }
  }

  /** The two's-complement encoding of -1 is the all-ones word. */
  lemma MinusOne()
    ensures ToSigned(0xFF_FFFF) == -1
    ensures Mask24(-1) == 0xFF_FFFF
  {
  }

  function Pow2(n: nat): (r: nat)
    ensures r >= 1
  {
    if n == 0 then 1 else 2 * Pow2(n - 1)
  }

  lemma {:induction false} Pow2Add(m: nat, n: nat)
    ensures Pow2(m + n) == Pow2(m) * Pow2(n)
  {
    if n > 0 {
      Pow2Add(m, n - 1);
      assert Pow2(m + n) == 2 * Pow2(m + n - 1);
    }
  }

  lemma {:induction false} Pow2Monotone(m: nat, n: nat)
    requires m <= n
    ensures Pow2(m) <= Pow2(n)
  {
    if m < n {
      Pow2Monotone(m, n - 1);
    }
  }

  lemma Pow2Of24()
    ensures Pow2(24) == WORD
  {
    assert Pow2(8) == 256;
    assert Pow2(16) == 65536 by { Pow2Add(8, 8); }
    Pow2Add(16, 8);
  }

  /** The words a push of each value leaves: each value masked to 24 bits. */
  function Masked(ws: seq<int>): (r: seq<Word>)
    ensures |r| == |ws|
    ensures forall i :: 0 <= i < |ws| ==> r[i] == Mask24(ws[i])
  {
    if |ws| == 0 then [] else Masked(ws[..|ws| - 1]) + [Mask24(ws[|ws| - 1])]
  }

  /** `a & b`, `a | b` and `a ^ b` on two words. */
  function And(a: Word, b: Word): Word { ((a as bv24) & (b as bv24)) as int }
  function Or(a: Word, b: Word): Word { ((a as bv24) | (b as bv24)) as int }
  function Xor(a: Word, b: Word): Word { ((a as bv24) ^ (b as bv24)) as int }

  /** `a << b` followed by the push mask, for a shift count the C operator defines. */
  function Shl(a: Word, b: nat): Word
    requires b < 32
  {
    Mask24(a * Pow2(b))
  }

  /** `a >> b` on a non-negative word, for a shift count the C operator defines. */
  function Shr(a: Word, b: nat): Word
    requires b < 32
  {
    DivBelow(a, Pow2(b));
    a / Pow2(b)
  }

  /** Dividing a natural number by a positive one does not make it larger. */
  lemma DivBelow(a: nat, p: int)
    requires p >= 1
    ensures 0 <= a / p <= a
  {
    var q := a / p;
    assert q * p <= a;
    if q > a {
      MulAtLeast(p, q);
    }
  }

  /** Every bit shifted past bit 23 is lost: a left shift by 24 or more gives 0. */
  lemma ShlFar(a: Word, b: nat)
    requires 24 <= b < 32
    ensures Shl(a, b) == 0
  {
    var p := Pow2(b - 24);
    Pow2Add(24, b - 24);
    Pow2Of24();
    var x := a * Pow2(b);
    assert x == (a * p) * WORD by { MulAssoc(a, p, WORD); }
    DivUnique(x, WORD, a * p, 0);
  }

  lemma MulAssoc(a: int, p: int, w: int)
    ensures a * (p * w) == (a * p) * w
  {
  }

  /** A right shift by 24 or more clears a word. */
  lemma ShrFar(a: Word, b: nat)
    requires 24 <= b < 32
    ensures Shr(a, b) == 0
  {
    Pow2Monotone(24, b);
    Pow2Of24();
    DivUnique(a, Pow2(b), 0, a);
  }

  /** Arithmetic right shift: the signed value divided by 2^b, rounded toward minus infinity,
      encoded again as a word. */
  function ArShift(a: Word, b: nat): Word
  {
    Mask24(ToSigned(a) / Pow2(b))
  }

  /** On a word whose sign bit is clear the source uses `a >> b`, which agrees with ArShift. */
  lemma ArShiftNonNegative(a: Word, b: nat)
    requires a < SIGN && b < 32
    ensures Shr(a, b) == ArShift(a, b)
  {
  }

  /** With the sign bit set an arithmetic shift by 23 or more yields all ones (-1). */
  lemma {:induction false} ArShiftNegativeFar(a: Word, b: nat)
    requires a >= SIGN && b >= 23
    ensures ArShift(a, b) == WORD - 1
  {
    var s := ToSigned(a);
    Pow2Monotone(23, b);
    assert Pow2(23) == SIGN by { Pow2Of24(); }
    FloorDivNegative(s, Pow2(b));
    assert s / Pow2(b) == -1;
  }

  lemma FloorDivNegative(s: int, p: int)
    requires -p <= s < 0 && p >= 1
    ensures s / p == -1
  {
  }

  lemma MulAtLeast(k: int, d: int)
    requires k >= 1 && d > 0
    ensures k * d >= d
  {
  }

  /** Division is determined by a quotient and an in-range remainder. */
  lemma DivUnique(s: int, d: int, q: int, r: int)
    requires d > 0 && 0 <= r < d && s == q * d + r
    ensures s / d == q && s % d == r
  {
    var q', r' := s / d, s % d;
    var k := q - q';
    assert k * d == r' - r by {
      assert s == q' * d + r';
      assert k * d == q * d - q' * d;
    }
    if k > 0 {
      MulAtLeast(k, d);
    } else if k < 0 {
      MulAtLeast(-k, d);
    }
  }

  lemma FloorDivStep(s: int, p: int)
    requires p >= 1
    ensures s / (p * 2) == (s / p) / 2
  {
    var q, r := s / p, s % p;
    var q2, r2 := q / 2, q % 2;
    assert s == q * p + r;
    assert q == q2 * 2 + r2;
    assert s == q2 * (p * 2) + (r2 * p + r) by {
      assert q * p == (q2 * 2 + r2) * p == q2 * (p * 2) + r2 * p;
    }
    assert 0 <= r2 * p + r < p * 2 by {
      assert 0 <= r2 * p <= p;
    }
    DivUnique(s, p * 2, q2, r2 * p + r);
  }

  lemma FloorDivStaysNegative(s: int, p: int)
    requires -SIGN <= s < 0 && p >= 1
    ensures -SIGN <= s / p < 0
  {
    assert s / p * p <= s;
  }

  /** The `ARSHIFT` loop of the source for a word whose sign bit is set:
      `for (n = 0; n < b; n++) a = (a >> 1) | 0x800000;` */
  method ArShiftLoop(a: Word, b: nat) returns (r: Word)
    requires a >= SIGN
    ensures r == ArShift(a, b)
    ensures r >= SIGN
  {
    var x: Word := a;
    var n := 0;
    ghost var t := ToSigned(a);
    while n < b
      invariant 0 <= n <= b
      invariant t == ToSigned(a) / Pow2(n)
      invariant -SIGN <= t < 0
      invariant x == t + WORD
    {
      FloorDivStep(ToSigned(a), Pow2(n));
      assert Pow2(n + 1) == Pow2(n) * 2;
      // x >> 1 is below 2^23, so or-ing in bit 23 adds it.
      x := x / 2 + SIGN;
      t := t / 2;
      n := n + 1;
    }
    r := x;
  }

  /** C's `/` on `int`, which truncates toward zero (Dafny's `/` is Euclidean). */
  function TruncDiv(a: int, b: int): (q: int)
    requires b > 0
    ensures a >= 0 ==> q == a / b
    ensures a < 0 ==> q * b - b < a <= q * b
  {
    if a >= 0 then a / b else -((-a) / b)
  }
}
