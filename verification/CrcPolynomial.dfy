/** What the CRC is, apart from how it is computed: the remainder of a division
    of polynomials over the field of two elements. */
module CrcPolynomial {
  import C = Crc16

  /** Coefficients, the highest power first. */
  type Polynomial = seq<bool>

  const DEGREE: nat := 16

  /** x^16 + x^12 + x^5 + 1 */
  const GENERATOR: Polynomial := [
    true, false, false, false, true, false, false, false, false, false, false, true, false, false, false, false, true]

  function Zero(n: nat): (p: Polynomial)
    ensures |p| == n && forall i :: 0 <= i < n ==> !p[i]
  {
    seq(n, _ => false)
  }

  function Sum(a: Polynomial, b: Polynomial): (p: Polynomial)
    requires |a| == |b|
    ensures |p| == |a| && forall i :: 0 <= i < |p| ==> p[i] == (a[i] != b[i])
  {
    seq(|a|, i requires 0 <= i < |a| => a[i] != b[i])
  }

  /** Coefficient i of a multiple of the generator by a constant. */
  predicate Multiple(factor: bool, i: nat) {
    factor && i < |GENERATOR| && GENERATOR[i]
  }

  /** One step of the division: subtract the generator from the top if the leading
      coefficient is one, and drop the leading coefficient. */
  function Reduce(p: Polynomial): (r: Polynomial)
    requires |p| > DEGREE
    ensures |r| == |p| - 1 && forall i :: 0 <= i < |r| ==> r[i] == (p[i + 1] != Multiple(p[0], i + 1))
  {
    seq(|p| - 1, i requires 0 <= i < |p| - 1 => p[i + 1] != Multiple(p[0], i + 1))
  }

  function Remainder(p: Polynomial): (r: Polynomial)
    requires |p| >= DEGREE
    ensures |r| == DEGREE
    decreases |p|
  {
    if |p| == DEGREE then p else Remainder(Reduce(p))
  }

  // ------------------------------------------------------------------
  // It is the remainder
  // ------------------------------------------------------------------

  /** The product of a polynomial and the generator. */
  function Product(q: Polynomial): (p: Polynomial)
    ensures |p| == |q| + DEGREE
  {
    if q == [] then Zero(DEGREE) else PlusLeading(q[0], Product(q[1..]))
  }

  /** The generator times the factor and a power of x, added to p. */
  function PlusLeading(factor: bool, p: Polynomial): (r: Polynomial)
    requires |p| >= DEGREE
    ensures |r| == |p| + 1
  {
    Sum(Scaled(factor, |p| - DEGREE), [false] + p)
  }

  /** The generator or nothing, times x^n. */
  function Scaled(factor: bool, n: nat): (p: Polynomial)
    ensures |p| == |GENERATOR| + n && forall i :: 0 <= i < |p| ==> p[i] == Multiple(factor, i)
  {
    seq(|GENERATOR| + n, i requires 0 <= i < |GENERATOR| + n => Multiple(factor, i))
  }

  lemma ProductFirst(factor: bool, rest: Polynomial)
    ensures Product([factor] + rest) == PlusLeading(factor, Product(rest))
  {
    hide PlusLeading, Zero;
    assert ([factor] + rest)[1..] == rest;
  }

  /** Undoing one step of the division. */
  lemma Unreduced(p: Polynomial, product: Polynomial, r: Polynomial, i: nat)
    requires |p| > DEGREE && |product| == |p| - 1 && |r| == DEGREE && i < |p|
    requires Reduce(p) == Sum(product, Zero(|p| - DEGREE - 1) + r)
    ensures p[i] == Sum(PlusLeading(p[0], product), Zero(|p| - DEGREE) + r)[i]
  {
    hide Multiple, Reduce, Zero, Sum, Scaled;
    if i == 0 {
      LeadingCoefficient(p[0]);
    } else {
      assert Reduce(p)[i - 1] == (p[i] != Multiple(p[0], i));
      assert (Zero(|p| - DEGREE) + r)[i] == (Zero(|p| - DEGREE - 1) + r)[i - 1];
    }
  }

  lemma LeadingCoefficient(factor: bool)
    ensures Multiple(factor, 0) == factor
  {
  }

  /** Every polynomial is a multiple of the generator plus its remainder. */
  lemma {:induction false} RemainderIs(p: Polynomial) returns (q: Polynomial)
    requires |p| >= DEGREE
    ensures |q| == |p| - DEGREE && p == Sum(Product(q), Zero(|q|) + Remainder(p))
    decreases |p|
  {
    if |p| == DEGREE {
      q := [];
    } else {
      var rest := RemainderIs(Reduce(p));
      q := [p[0]] + rest;
      ProductFirst(p[0], rest);
      hide Product, PlusLeading, Sum, Zero, Reduce;
      forall i | 0 <= i < |p|
        ensures p[i] == Sum(Product(q), Zero(|q|) + Remainder(p))[i]
      {
        Unreduced(p, Product(rest), Remainder(p), i);
      }
    }
  }

  // ------------------------------------------------------------------
  // Messages and registers as polynomials
  // ------------------------------------------------------------------

  function ByteBits(b: bv8): (p: Polynomial)
    ensures |p| == 8
  {
    [b & 0x80 != 0, b & 0x40 != 0, b & 0x20 != 0, b & 0x10 != 0, b & 0x08 != 0, b & 0x04 != 0, b & 0x02 != 0, b & 0x01 != 0]
  }

  /** w shifted left n times. */
  function Lefts(w: bv16, n: nat): bv16
    decreases n
  {
    if n == 0 then w else Lefts(C.Left(w), n - 1)
  }

  /** Each coefficient of a register is its top bit after some left shifts. */
  function WordBits(w: bv16): (p: Polynomial)
    ensures |p| == DEGREE && forall i :: 0 <= i < DEGREE ==> p[i] == C.TopBit(Lefts(w, i))
  {
    seq(DEGREE, i requires 0 <= i < DEGREE => C.TopBit(Lefts(w, i)))
  }

  function MessageBits(data: seq<bv8>): (p: Polynomial)
    ensures |p| == 8 * |data|
  {
    if data == [] then [] else ByteBits(data[0]) + MessageBits(data[1..])
  }

  /** m(x)·x^16 + w(x)·x^|m| */
  function Augmented(w: Polynomial, m: Polynomial): (p: Polynomial)
    requires |w| == DEGREE
    ensures |p| == |m| + DEGREE
    ensures forall i :: 0 <= i < |p| ==> p[i] == ((i < |m| && m[i]) != (i < DEGREE && w[i]))
  {
    seq(|m| + DEGREE, i requires 0 <= i < |m| + DEGREE => (i < |m| && m[i]) != (i < DEGREE && w[i]))
  }

  lemma {:induction false} LeftsOneMore(w: bv16, n: nat)
    ensures Lefts(w, n + 1) == C.Left(Lefts(w, n))
    decreases n
  {
    hide C.Left;
    if n > 0 {
      LeftsOneMore(C.Left(w), n - 1);
    }
  }

  lemma {:induction false} LeftsXor(a: bv16, b: bv16, n: nat)
    ensures Lefts(C.XorBits(a, b), n) == C.XorBits(Lefts(a, n), Lefts(b, n))
    decreases n
  {
    hide C.Left, C.XorBits;
    if n > 0 {
      C.LeftXor(a, b);
      LeftsXor(C.Left(a), C.Left(b), n - 1);
    }
  }

  lemma XorWord(a: bv16, b: bv16, i: nat)
    requires i < DEGREE
    ensures WordBits(C.XorBits(a, b))[i] == (WordBits(a)[i] != WordBits(b)[i])
  {
    hide C.Left, C.XorBits, C.TopBit;
    LeftsXor(a, b, i);
    C.TopBitXor(Lefts(a, i), Lefts(b, i));
  }

  lemma FourMore(w: bv16, n: nat)
    ensures Lefts(w, n + 4) == C.Left(C.Left(C.Left(C.Left(Lefts(w, n)))))
  {
    hide C.Left;
    LeftsOneMore(w, n); LeftsOneMore(w, n + 1); LeftsOneMore(w, n + 2); LeftsOneMore(w, n + 3);
  }

  lemma AllShiftedOut(w: bv16)
    ensures Lefts(w, DEGREE) == 0
  {
    FourMore(w, 0); FourMore(w, 4); FourMore(w, 8); FourMore(w, 12);
    Sixteen(w, Lefts(w, 4), Lefts(w, 8), Lefts(w, 12), Lefts(w, 16));
  }

  lemma Sixteen(a: bv16, b: bv16, c: bv16, d: bv16, e: bv16)
    requires b == C.Left(C.Left(C.Left(C.Left(a)))) && c == C.Left(C.Left(C.Left(C.Left(b))))
    requires d == C.Left(C.Left(C.Left(C.Left(c)))) && e == C.Left(C.Left(C.Left(C.Left(d))))
    ensures e == 0
  {
  }

  lemma {:induction false} LeftsZero(n: nat)
    ensures Lefts(0, n) == 0
    decreases n
  {
    assert C.Left(0) == 0;
    if n > 0 {
      LeftsZero(n - 1);
    }
  }

  lemma PolyBits(i: nat)
    requires i < DEGREE
    ensures C.TopBit(Lefts(C.POLY, i)) == GENERATOR[i + 1]
  {
    LeftsOneMore(C.POLY, 0); assert Lefts(C.POLY, 1) == 0x2042;
    LeftsOneMore(C.POLY, 1); assert Lefts(C.POLY, 2) == 0x4084;
    LeftsOneMore(C.POLY, 2); assert Lefts(C.POLY, 3) == 0x8108;
    LeftsOneMore(C.POLY, 3); assert Lefts(C.POLY, 4) == 0x0210;
    LeftsOneMore(C.POLY, 4); assert Lefts(C.POLY, 5) == 0x0420;
    LeftsOneMore(C.POLY, 5); assert Lefts(C.POLY, 6) == 0x0840;
    LeftsOneMore(C.POLY, 6); assert Lefts(C.POLY, 7) == 0x1080;
    LeftsOneMore(C.POLY, 7); assert Lefts(C.POLY, 8) == 0x2100;
    LeftsOneMore(C.POLY, 8); assert Lefts(C.POLY, 9) == 0x4200;
    LeftsOneMore(C.POLY, 9); assert Lefts(C.POLY, 10) == 0x8400;
    LeftsOneMore(C.POLY, 10); assert Lefts(C.POLY, 11) == 0x0800;
    LeftsOneMore(C.POLY, 11); assert Lefts(C.POLY, 12) == 0x1000;
    LeftsOneMore(C.POLY, 12); assert Lefts(C.POLY, 13) == 0x2000;
    LeftsOneMore(C.POLY, 13); assert Lefts(C.POLY, 14) == 0x4000;
    LeftsOneMore(C.POLY, 14); assert Lefts(C.POLY, 15) == 0x8000;
  }

  /** Shifting the register is a step of the division. */
  lemma ShiftBits(w: bv16, i: nat)
    requires i < DEGREE
    ensures WordBits(C.Shift(w))[i] == ((i < DEGREE - 1 && WordBits(w)[i + 1]) != Multiple(WordBits(w)[0], i + 1))
  {
    AllShiftedOut(w);
    assert !C.TopBit(0);
    PolyBits(i);
    hide C.Left, C.XorBits, C.TopBit;
    XorWord(C.Left(w), C.POLY, i);
    assert Lefts(C.Left(w), i) == Lefts(w, i + 1);
  }

  lemma LiftTops(b: bv8, x: bv16)
    requires x == C.Lift(b).bits
    ensures C.TopBit(x) == ByteBits(b)[0]
    ensures C.TopBit(C.Left(x)) == ByteBits(b)[1]
    ensures C.TopBit(C.Left(C.Left(x))) == ByteBits(b)[2]
    ensures C.TopBit(C.Left(C.Left(C.Left(x)))) == ByteBits(b)[3]
    ensures C.TopBit(C.Left(C.Left(C.Left(C.Left(x))))) == ByteBits(b)[4]
    ensures C.TopBit(C.Left(C.Left(C.Left(C.Left(C.Left(x)))))) == ByteBits(b)[5]
    ensures C.TopBit(C.Left(C.Left(C.Left(C.Left(C.Left(C.Left(x))))))) == ByteBits(b)[6]
    ensures C.TopBit(C.Left(C.Left(C.Left(C.Left(C.Left(C.Left(C.Left(x)))))))) == ByteBits(b)[7]
    ensures C.Left(C.Left(C.Left(C.Left(C.Left(C.Left(C.Left(C.Left(x)))))))) == 0
  {
  }

  lemma LiftWord(b: bv8, i: nat)
    requires i < DEGREE
    ensures WordBits(C.Lift(b).bits)[i] == (i < 8 && ByteBits(b)[i])
  {
    var x := C.Lift(b).bits;
    LiftTops(b, x);
    assert !C.TopBit(0);
    hide C.Left, C.TopBit, C.Lift, ByteBits;
    LeftsOneMore(x, 0); LeftsOneMore(x, 1); LeftsOneMore(x, 2); LeftsOneMore(x, 3);
    LeftsOneMore(x, 4); LeftsOneMore(x, 5); LeftsOneMore(x, 6); LeftsOneMore(x, 7);
    if i >= 8 {
      LeftsAgain(x, 8, i - 8);
      LeftsZero(i - 8);
    }
  }

  lemma {:induction false} LeftsAgain(w: bv16, m: nat, n: nat)
    ensures Lefts(w, m + n) == Lefts(Lefts(w, m), n)
    decreases m
  {
    hide C.Left;
    if m > 0 {
      LeftsAgain(C.Left(w), m - 1, n);
    }
  }

  /** A byte xored into the upper half of the register. */
  lemma LiftBits(w: bv16, b: bv8, i: nat)
    requires i < DEGREE
    ensures WordBits(C.Xor(C.Register(w), C.Lift(b)).bits)[i] == (WordBits(w)[i] != (i < 8 && ByteBits(b)[i]))
  {
    hide C.XorBits, C.Lift, WordBits, ByteBits;
    XorWord(w, C.Lift(b).bits, i);
    LiftWord(b, i);
  }

  lemma OneStepAt(w: bv16, m: Polynomial, i: nat)
    requires i < |m| + DEGREE
    ensures Reduce(Augmented(WordBits(w), Zero(1) + m))[i] == Augmented(WordBits(C.Shift(w)), m)[i]
  {
    hide WordBits, C.Shift, Multiple, Augmented, Reduce, Zero;
    var x := Zero(1) + m;
    assert !x[0] && forall j :: 0 <= j < |m| ==> x[j + 1] == m[j];
    var before := Augmented(WordBits(w), x);
    assert before[0] == WordBits(w)[0];
    if i < DEGREE {
      ShiftBits(w, i);
    } else {
      BeyondGenerator(before[0], i + 1);
    }
  }

  lemma OneStep(w: bv16, m: Polynomial)
    ensures Remainder(Augmented(WordBits(w), Zero(1) + m)) == Remainder(Augmented(WordBits(C.Shift(w)), m))
  {
    hide WordBits, C.Shift, Multiple, Augmented, Reduce, Zero;
    var before, after := Augmented(WordBits(w), Zero(1) + m), Augmented(WordBits(C.Shift(w)), m);
    assert Reduce(before) == after by {
      hide Remainder;
      forall i | 0 <= i < |after|
        ensures Reduce(before)[i] == after[i]
      {
        OneStepAt(w, m, i);
      }
    }
  }

  lemma BeyondGenerator(factor: bool, i: nat)
    requires i > DEGREE
    ensures !Multiple(factor, i)
  {
  }

  lemma {:induction false} Steps(r: C.Register, n: nat, m: Polynomial)
    ensures Remainder(Augmented(WordBits(r.bits), Zero(n) + m)) ==
      Remainder(Augmented(WordBits(C.BitSteps(r, n).bits), m))
  {
    hide Remainder, Augmented, WordBits, C.Shift;
    if n == 0 {
      assert Zero(0) + m == m;
    } else {
      assert Zero(n) + m == Zero(n - 1) + (Zero(1) + m);
      Steps(r, n - 1, Zero(1) + m);
      OneStep(C.BitSteps(r, n - 1).bits, m);
    }
  }

  lemma Absorb(w: bv16, b: bv8, m: Polynomial)
    ensures Augmented(WordBits(w), ByteBits(b) + m) ==
      Augmented(WordBits(C.Xor(C.Register(w), C.Lift(b)).bits), Zero(8) + m)
  {
    hide WordBits, ByteBits, C.Xor, C.Lift;
    var x, y := ByteBits(b) + m, Zero(8) + m;
    var u, v := Augmented(WordBits(w), x), Augmented(WordBits(C.Xor(C.Register(w), C.Lift(b)).bits), y);
    forall i | 0 <= i < |u|
      ensures u[i] == v[i]
    {
      if i < DEGREE {
        LiftBits(w, b, i);
      }
    }
  }

  lemma {:induction false} FoldIsRemainder(r: C.Register, data: seq<bv8>)
    ensures WordBits(C.Fold(r, data).bits) == Remainder(Augmented(WordBits(r.bits), MessageBits(data)))
    decreases |data|
  {
    if data == [] {
      assert Augmented(WordBits(r.bits), []) == WordBits(r.bits);
    } else {
      hide Remainder, Augmented, WordBits, ByteBits, C.BitSteps;
      var m, x := MessageBits(data[1..]), C.Xor(r, C.Lift(data[0]));
      Absorb(r.bits, data[0], m);
      assert C.Register(r.bits) == r;
      Steps(x, 8, m);
      FoldIsRemainder(C.ByteStep(r, data[0]), data[1..]);
    }
  }

  /** The CRC of a message of n bytes is the remainder of
      message(x)·x^16 + 0xFFFF·x^(8n) by the generator. */
  lemma CrcIsRemainder(data: seq<bv8>)
    ensures WordBits(C.Crc(data)) == Remainder(Augmented(WordBits(0xFFFF), MessageBits(data)))
  {
    FoldIsRemainder(C.Register(0xFFFF), data);
  }

  // ------------------------------------------------------------------
  // The published check value
  // ------------------------------------------------------------------

  lemma ByteStepIs(r: bv16, b: bv8, t: bv16)
    requires C.Shift(C.Shift(C.Shift(C.Shift(C.Shift(C.Shift(C.Shift(C.Shift(C.XorBits(r, C.Lift(b).bits))))))))) == t
    ensures C.ByteStep(C.Register(r), b) == C.Register(t)
  {
    var x := C.Xor(C.Register(r), C.Lift(b));
    hide C.Shift, C.XorBits, C.Lift;
    C.OneMore(x, 0); C.OneMore(x, 1); C.OneMore(x, 2); C.OneMore(x, 3);
    C.OneMore(x, 4); C.OneMore(x, 5); C.OneMore(x, 6); C.OneMore(x, 7);
  }

  lemma FoldFirst(r: bv16, data: seq<bv8>, t: bv16)
    requires data != [] && C.ByteStep(C.Register(r), data[0]) == C.Register(t)
    ensures C.Fold(C.Register(r), data) == C.Fold(C.Register(t), data[1..])
  {
  }

  predicate Moves(r: bv16, b: bv8, t: bv16) {
    C.ByteStep(C.Register(r), b) == C.Register(t)
  }

  lemma OneToFour()
    ensures Moves(0xFFFF, 0x31, 0xC782) && Moves(0xC782, 0x32, 0x3DBA)
    ensures Moves(0x3DBA, 0x33, 0x5BCE) && Moves(0x5BCE, 0x34, 0x5349)
  {
    ByteStepIs(0xFFFF, 0x31, 0xC782);
    ByteStepIs(0xC782, 0x32, 0x3DBA);
    ByteStepIs(0x3DBA, 0x33, 0x5BCE);
    ByteStepIs(0x5BCE, 0x34, 0x5349);
  }

  lemma FiveToNine()
    ensures Moves(0x5349, 0x35, 0x4560) && Moves(0x4560, 0x36, 0x2EF4) && Moves(0x2EF4, 0x37, 0x7718)
    ensures Moves(0x7718, 0x38, 0xA12B) && Moves(0xA12B, 0x39, 0x29B1)
  {
    ByteStepIs(0x5349, 0x35, 0x4560);
    ByteStepIs(0x4560, 0x36, 0x2EF4);
    ByteStepIs(0x2EF4, 0x37, 0x7718);
    ByteStepIs(0x7718, 0x38, 0xA12B);
    ByteStepIs(0xA12B, 0x39, 0x29B1);
  }

  /** The digits 1 to 9 give 0x29B1, and no bytes at all give 0xFFFF. */
  lemma CheckValue()
    ensures C.Crc([0x31, 0x32, 0x33, 0x34, 0x35, 0x36, 0x37, 0x38, 0x39]) == 0x29B1
    ensures C.Crc([]) == 0xFFFF
  {
    var d: seq<bv8> := [0x31, 0x32, 0x33, 0x34, 0x35, 0x36, 0x37, 0x38, 0x39];
    OneToFour();
    FiveToNine();
    hide C.ByteStep, C.Shift, C.XorBits, C.Lift;
    FoldFirst(0xFFFF, d, 0xC782);
    FoldFirst(0xC782, d[1..], 0x3DBA);
    assert d[1..][1..] == d[2..];
    FoldFirst(0x3DBA, d[2..], 0x5BCE);
    assert d[2..][1..] == d[3..];
    FoldFirst(0x5BCE, d[3..], 0x5349);
    assert d[3..][1..] == d[4..];
    FoldFirst(0x5349, d[4..], 0x4560);
    assert d[4..][1..] == d[5..];
    FoldFirst(0x4560, d[5..], 0x2EF4);
    assert d[5..][1..] == d[6..];
    FoldFirst(0x2EF4, d[6..], 0x7718);
    assert d[6..][1..] == d[7..];
    FoldFirst(0x7718, d[7..], 0xA12B);
    assert d[7..][1..] == d[8..];
    FoldFirst(0xA12B, d[8..], 0x29B1);
    assert d[8..][1..] == [];
  }
}
