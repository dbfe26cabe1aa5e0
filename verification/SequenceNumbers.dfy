/** Arithmetic of 32-bit sequence numbers that index a ring of `depth` slots. */
module SequenceNumbers {
  import opened Types

  predicate DepthOk(depth: nat) {
    0 < depth < U32 && U32 % depth == 0
  }

  function Next(w: u32): u32 {
    (w + 1) % U32
  }

  lemma ModUnique(x: int, d: int, q: int, r: int)
    requires 0 <= r < d && x == q * d + r
    ensures x % d == r
  {
    var q', r' := x / d, x % d;
    if q' > q {
      MulAtLeast(q' - q, d);
    } else if q' < q {
      MulAtLeast(q - q', d);
    }
  }

  lemma MulAtLeast(k: int, d: int)
    requires k >= 1 && d >= 0
    ensures k * d >= d
  {
  }

  lemma MulDiv(d: nat)
    requires d > 0 && U32 % d == 0
    ensures U32 == (U32 / d) * d
  {
  }

  /** Reducing to 32 bits first does not move the slot index. */
  lemma IndexSurvivesWrap(n: nat, depth: nat)
    requires DepthOk(depth)
    ensures (n % U32) % depth == n % depth
  {
    var k, m := n / U32, U32 / depth;
    var w := n % U32;
    MulDiv(depth);
    assert n == (k * m + w / depth) * depth + w % depth by {
      assert k * U32 == (k * m) * depth;
    }
    ModUnique(n, depth, k * m + w / depth, w % depth);
  }

  lemma NextCounts(n: nat)
    ensures Next(n % U32) == (n + 1) % U32
  {
  }

  /** The unsigned difference of two sequence numbers is the true distance, as
      long as that is below 2^32. */
  lemma Distance(written: nat, taken: nat)
    requires taken <= written < taken + U32
    ensures (written % U32 - taken % U32) % U32 == written - taken
    ensures written % U32 == taken % U32 <==> written == taken
  {
  }

  lemma SameSlot(a: nat, b: nat, depth: nat)
    requires depth > 0 && a <= b < a + depth && a % depth == b % depth
    ensures a == b
  {
    var q := a / depth;
    if a % depth + (b - a) < depth {
      ModUnique(b, depth, q, a % depth + (b - a));
    } else {
      ModUnique(b, depth, q + 1, a % depth + (b - a) - depth);
    }
  }

  /** Consecutive sequence numbers use consecutive slots across the wrap exactly
      when the depth divides 2^32. */
  lemma SlotsContinueExactlyWhen(depth: nat)
    requires 0 < depth < U32
    ensures (forall w: u32 :: Next(w) % depth == (w % depth + 1) % depth) <==> U32 % depth == 0
  {
    SlotAfter(U32 - 1, depth);
    assert Next(U32 - 1) % depth == 0 by { assert Next(U32 - 1) == 0; }
    if U32 % depth == 0 {
      forall w: u32
        ensures Next(w) % depth == (w % depth + 1) % depth
      {
        SlotAfter(w, depth);
        IndexSurvivesWrap(w + 1, depth);
      }
    }
  }

  lemma SlotAfter(w: nat, depth: nat)
    requires depth > 0
    ensures (w + 1) % depth == (w % depth + 1) % depth
  {
    NextSlot(w, depth, w / depth, w % depth);
  }

  lemma NextSlot(w: nat, depth: nat, q: nat, r: nat)
    requires depth > 0 && w == q * depth + r && r < depth
    ensures (w + 1) % depth == (r + 1) % depth
  {
    if r + 1 < depth {
      ModUnique(w + 1, depth, q, r + 1);
      ModUnique(r + 1, depth, 0, r + 1);
    } else {
      Distribute(q, depth);
      ModUnique(w + 1, depth, q + 1, 0);
      ModUnique(r + 1, depth, 1, 0);
    }
  }

  lemma Distribute(q: nat, depth: nat)
    ensures (q + 1) * depth == q * depth + depth
  {
  }
}
