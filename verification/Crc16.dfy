/** CRC-16/CCITT-FALSE as the two cores compute it: polynomial 0x1021, initial
    value 0xFFFF, most significant bit first. */
module Crc16 {

  /** The shift register, kept apart from plain bit vectors so that proofs above
      the bit level do not look inside. */
  datatype Register = Register(bits: bv16)

  const POLY: bv16 := 0x1021
  const INIT := Register(0xFFFF)
  const ZERO := Register(0)
  const BITS: nat := 8

  function XorBits(a: bv16, b: bv16): bv16 {
    a ^ b
  }

  predicate TopBit(crc: bv16) {
    crc & 0x8000 != 0
  }

  function Left(crc: bv16): bv16 {
    crc << 1
  }

  function Xor(a: Register, b: Register): Register {
    Register(XorBits(a.bits, b.bits))
  }

  function Shift(crc: bv16): bv16 {
    if TopBit(crc) then XorBits(Left(crc), POLY) else Left(crc)
  }

  /** One shift of the register. */
  function BitStep(r: Register): Register {
    Register(Shift(r.bits))
  }

  function BitSteps(r: Register, n: nat): Register {
    if n == 0 then r else BitStep(BitSteps(r, n - 1))
  }

  /** A byte lined up with the upper half of the register. */
  function Lift(data: bv8): Register {
    Register((data as bv16) << 8)
  }

  function ByteStep(r: Register, data: bv8): Register {
    BitSteps(Xor(r, Lift(data)), BITS)
  }

  function Fold(r: Register, data: seq<bv8>): Register
    decreases |data|
  {
    if data == [] then r else Fold(ByteStep(r, data[0]), data[1..])
  }

  function Crc(data: seq<bv8>): bv16 {
    Fold(INIT, data).bits
  }

  lemma {:induction false} FoldConcat(r: Register, a: seq<bv8>, b: seq<bv8>)
    ensures Fold(r, a + b) == Fold(Fold(r, a), b)
    decreases |a|
  {
    if a == [] {
      assert a + b == b;
    } else {
      assert (a + b)[0] == a[0] && (a + b)[1..] == a[1..] + b;
      FoldConcat(ByteStep(r, a[0]), a[1..], b);
    }
  }

  /** The byte and bit loops of the implementation compute Crc. */
  method Compute(data: seq<bv8>) returns (crc: bv16)
    ensures crc == Crc(data)
  {
    crc := 0xFFFF;
    for i := 0 to |data|
      invariant Register(crc) == Fold(INIT, data[..i])
    {
      FoldOne(INIT, data, i);
      crc := crc ^ ((data[i] as bv16) << 8);
      ghost var start := Register(crc);
      for bit := 0 to 8
        invariant Register(crc) == BitSteps(start, bit)
      {
        OneMore(start, bit);
        if crc & 0x8000 != 0 {
          crc := (crc << 1) ^ 0x1021;
        } else {
          crc := crc << 1;
        }
      }
    }
    assert data[..|data|] == data;
  }

  lemma OneMore(r: Register, n: nat)
    ensures BitSteps(r, n + 1) == BitStep(BitSteps(r, n))
  {
  }

  lemma FoldOne(r: Register, data: seq<bv8>, i: nat)
    requires i < |data|
    ensures Fold(r, data[..i + 1]) == ByteStep(Fold(r, data[..i]), data[i])
  {
    assert data[..i + 1] == data[..i] + [data[i]];
    FoldConcat(r, data[..i], [data[i]]);
    assert Fold(Fold(r, data[..i]), [data[i]]) == ByteStep(Fold(r, data[..i]), data[i]);
  }

  // ------------------------------------------------------------------
  // The register step is linear and loses nothing
  // ------------------------------------------------------------------

  lemma BitStepXor(a: Register, b: Register)
    ensures BitStep(Xor(a, b)) == Xor(BitStep(a), BitStep(b))
  {
    hide Shift, XorBits;
    ShiftXor(a.bits, b.bits);
  }

  lemma ShiftXor(a: bv16, b: bv16)
    ensures Shift(XorBits(a, b)) == XorBits(Shift(a), Shift(b))
  {
    hide XorBits, TopBit, Left;
    LeftXor(a, b);
    TopBitXor(a, b);
    PolyXor(Left(a), Left(b));
  }

  lemma LeftXor(a: bv16, b: bv16)
    ensures Left(XorBits(a, b)) == XorBits(Left(a), Left(b))
  {
  }

  lemma TopBitXor(a: bv16, b: bv16)
    ensures TopBit(XorBits(a, b)) == (TopBit(a) != TopBit(b))
  {
  }

  lemma PolyXor(x: bv16, y: bv16)
    ensures XorBits(XorBits(x, POLY), XorBits(y, POLY)) == XorBits(x, y)
    ensures XorBits(XorBits(x, POLY), y) == XorBits(XorBits(x, y), POLY)
    ensures XorBits(x, XorBits(y, POLY)) == XorBits(XorBits(x, y), POLY)
  {
    hide XorBits;
    Exchange(x, POLY, y, POLY);
    SelfXor(POLY);
    ZeroXor(XorBits(x, y));
    Assoc(x, POLY, y);
    Commutes(POLY, y);
    Assoc(x, y, POLY);
  }

  lemma Assoc(a: bv16, b: bv16, c: bv16)
    ensures XorBits(XorBits(a, b), c) == XorBits(a, XorBits(b, c))
  {
  }

  lemma Commutes(a: bv16, b: bv16)
    ensures XorBits(a, b) == XorBits(b, a)
  {
  }

  lemma SelfXor(a: bv16)
    ensures XorBits(a, a) == 0
  {
  }

  lemma ZeroXor(a: bv16)
    ensures XorBits(a, 0) == a && XorBits(0, a) == a
  {
  }

  lemma BitStepZero(a: Register)
    ensures BitStep(a) == ZERO <==> a == ZERO
  {
  }

  lemma {:induction false} BitStepsXor(a: Register, b: Register, n: nat)
    ensures BitSteps(Xor(a, b), n) == Xor(BitSteps(a, n), BitSteps(b, n))
  {
    hide BitStep, Xor;
    if n > 0 {
      BitStepsXor(a, b, n - 1);
      BitStepXor(BitSteps(a, n - 1), BitSteps(b, n - 1));
    }
  }

  lemma {:induction false} BitStepsZero(a: Register, n: nat)
    ensures BitSteps(a, n) == ZERO <==> a == ZERO
  {
    hide BitStep;
    if n > 0 {
      BitStepsZero(a, n - 1);
      BitStepZero(BitSteps(a, n - 1));
    }
  }

  lemma XorZero(a: Register, b: Register)
    ensures Xor(a, b) == ZERO <==> a == b
  {
  }

  /** The differences of two steps: states that differ by x are fed bytes that
      differ by d. */
  lemma ByteStepDifference(r: Register, s: Register, a: bv8, b: bv8)
    ensures Xor(ByteStep(r, a), ByteStep(s, b)) == BitSteps(Xor(Xor(r, s), Lift(a ^ b)), BITS)
  {
    BitStepsXor(Xor(r, Lift(a)), Xor(s, Lift(b)), BITS);
    XorSwaps(r, s, a, b);
  }

  lemma XorSwaps(r: Register, s: Register, a: bv8, b: bv8)
    ensures Xor(Xor(r, Lift(a)), Xor(s, Lift(b))) == Xor(Xor(r, s), Lift(a ^ b))
  {
    hide XorBits;
    Exchange(r.bits, Lift(a).bits, s.bits, Lift(b).bits);
    LiftXor(a, b);
  }

  lemma Exchange(a: bv16, b: bv16, c: bv16, d: bv16)
    ensures XorBits(XorBits(a, b), XorBits(c, d)) == XorBits(XorBits(a, c), XorBits(b, d))
  {
    hide XorBits;
    Assoc(a, b, XorBits(c, d));
    Assoc(b, c, d);
    Commutes(b, c);
    Assoc(c, b, d);
    Assoc(a, c, XorBits(b, d));
  }

  lemma LiftXor(a: bv8, b: bv8)
    ensures Lift(a ^ b).bits == XorBits(Lift(a).bits, Lift(b).bits)
  {
  }

  /** Equal tails neither hide a difference nor make one. */
  lemma {:induction false} FoldInjective(r: Register, s: Register, tail: seq<bv8>)
    ensures Fold(r, tail) == Fold(s, tail) <==> r == s
    decreases |tail|
  {
    if tail != [] {
      var d := tail[0];
      FoldInjective(ByteStep(r, d), ByteStep(s, d), tail[1..]);
      ByteStepDifference(r, s, d, d);
      XorZero(ByteStep(r, d), ByteStep(s, d));
      BitStepsZero(Xor(Xor(r, s), Lift(d ^ d)), BITS);
      SameByte(r, s, d);
    }
  }

  lemma SameByte(r: Register, s: Register, d: bv8)
    ensures Xor(Xor(r, s), Lift(d ^ d)) == ZERO <==> r == s
  {
  }

  /** A byte difference shifted through the register always reaches the lower
      half, where the next byte cannot cancel it. */
  lemma ByteReachesLowHalf(d: bv8, e: bv8)
    requires BitSteps(Lift(d), BITS) == Lift(e)
    ensures d == 0 && e == 0
  {
    EightSteps(Lift(d));
    LowHalf(Lift(d));
  }

  function TwoSteps(r: Register): Register {
    BitStep(BitStep(r))
  }

  lemma EightSteps(r: Register)
    ensures BitSteps(r, BITS) == TwoSteps(TwoSteps(TwoSteps(TwoSteps(r))))
  {
    hide BitStep;
    OneMore(r, 0); OneMore(r, 1); OneMore(r, 2); OneMore(r, 3);
    OneMore(r, 4); OneMore(r, 5); OneMore(r, 6); OneMore(r, 7);
  }

  lemma LowHalf(r: Register)
    requires r.bits & 0x00FF == 0
    requires TwoSteps(TwoSteps(TwoSteps(TwoSteps(r)))).bits & 0x00FF == 0
    ensures r.bits == 0
  {
  }

  /** Two adjacent bytes: different pairs always move the register apart. */
  lemma TwoBytes(r: Register, a: bv8, b: bv8, c: bv8, d: bv8)
    requires ByteStep(ByteStep(r, a), b) == ByteStep(ByteStep(r, c), d)
    ensures a == c && b == d
  {
    var s, t := ByteStep(r, a), ByteStep(r, c);
    ByteStepDifference(s, t, b, d);
    XorZero(ByteStep(s, b), ByteStep(t, d));
    BitStepsZero(Xor(Xor(s, t), Lift(b ^ d)), BITS);
    ByteStepDifference(r, r, a, c);
    CancelsOnly(Xor(s, t), b ^ d);
    SelfCancels(r, a ^ c);
    ByteReachesLowHalf(a ^ c, b ^ d);
    SameBytes(a, c);
    SameBytes(b, d);
  }

  lemma CancelsOnly(x: Register, d: bv8)
    requires Xor(x, Lift(d)) == ZERO
    ensures x == Lift(d)
  {
  }

  lemma SelfCancels(r: Register, d: bv8)
    ensures Xor(Xor(r, r), Lift(d)) == Lift(d)
  {
  }

  lemma SameBytes(a: bv8, b: bv8)
    requires a ^ b == 0
    ensures a == b
  {
  }

  /** Corruption confined to two adjacent bytes is always detected, wherever it
      sits and however long the data is. */
  lemma BurstDetected(x: seq<bv8>, y: seq<bv8>, i: nat)
    requires |x| == |y| && x != y
    requires forall j :: 0 <= j < |x| && j != i && j != i + 1 ==> x[j] == y[j]
    ensures Crc(x) != Crc(y)
  {
    if i + 1 >= |x| {
      LastByte(x, y);
    } else {
      var head := Fold(INIT, x[..i]);
      assert x[..i] == y[..i];
      assert x[i + 2..] == y[i + 2..];
      FoldAt(x, i);
      FoldAt(y, i);
      FoldInjective(ByteStep(ByteStep(head, x[i]), x[i + 1]), ByteStep(ByteStep(head, y[i]), y[i + 1]), x[i + 2..]);
      if Crc(x) == Crc(y) {
        assert Fold(INIT, x) == Fold(INIT, y);
        TwoBytes(head, x[i], x[i + 1], y[i], y[i + 1]);
        SameSequence(x, y, i);
        assert false;
      }
    }
  }

  lemma SameSequence(x: seq<bv8>, y: seq<bv8>, i: nat)
    requires i + 1 < |x| == |y| && x[i] == y[i] && x[i + 1] == y[i + 1]
    requires forall j :: 0 <= j < |x| && j != i && j != i + 1 ==> x[j] == y[j]
    ensures x == y
  {
  }

  lemma FoldAt(x: seq<bv8>, i: nat)
    requires i + 1 < |x|
    ensures Fold(INIT, x) == Fold(ByteStep(ByteStep(Fold(INIT, x[..i]), x[i]), x[i + 1]), x[i + 2..])
  {
    FoldOne(INIT, x, i);
    FoldOne(INIT, x, i + 1);
    assert x == x[..i + 2] + x[i + 2..];
    FoldConcat(INIT, x[..i + 2], x[i + 2..]);
  }

  lemma LastByte(x: seq<bv8>, y: seq<bv8>)
    requires |x| == |y| && x != y
    requires forall j :: 0 <= j < |x| - 1 ==> x[j] == y[j]
    ensures Crc(x) != Crc(y)
  {
    var n := |x| - 1;
    assert x[..n] == y[..n];
    assert x[..n + 1] == x && y[..n + 1] == y;
    assert x[n] != y[n];
    FoldOne(INIT, x, n);
    FoldOne(INIT, y, n);
    var r := Fold(INIT, x[..n]);
    if Crc(x) == Crc(y) {
      TwoBytes(r, x[n], 0, y[n], 0);
    }
  }
}
