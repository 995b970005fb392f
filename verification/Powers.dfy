/** Powers of two, shifts and alignment, all by halving so that no proof multiplies two variables. */
module Powers {

  /** How many values a 64-bit word has. */
  const WORD_SIZE: int := 0x1_0000_0000_0000_0000

  function Pow2(n: nat): (r: nat)
    ensures r >= 1
    ensures n > 0 ==> r % 2 == 0
  {
    if n == 0 then 1 else 2 * Pow2(n - 1)
  }

  lemma Pow2Step(n: nat)
    ensures Pow2(n + 1) == 2 * Pow2(n)
  {
  }

  /** 63 - clz(v): the position of the highest set bit. */
  function Log2(v: nat): (l: nat)
    requires v > 0
    ensures Pow2(l) <= v < Pow2(l + 1)
  {
    if v == 1 then 0 else 1 + Log2(v / 2)
  }

  lemma {:induction false} Pow2Mono(a: nat, b: nat)
    requires a < b
    ensures 2 * Pow2(a) <= Pow2(b)
    decreases b
  {
    if a + 1 < b {
      Pow2Mono(a, b - 1);
    }
  }

  lemma Pow2Le(a: nat, b: nat)
    requires a <= b
    ensures Pow2(a) <= Pow2(b)
  {
    if a < b {
      Pow2Mono(a, b);
    }
  }

  /** A value lies between two neighbouring powers for one exponent only. */
  lemma Log2Unique(v: nat, l: nat)
    requires v > 0 && Pow2(l) <= v < Pow2(l + 1)
    ensures Log2(v) == l
  {
    if Log2(v) < l {
      Pow2Mono(Log2(v), l);
    } else if l < Log2(v) {
      Pow2Mono(l, Log2(v));
    }
  }

  lemma Log2OfPow2(l: nat)
    ensures Log2(Pow2(l)) == l
  {
    Log2Unique(Pow2(l), l);
  }

  lemma Log2Mono(a: nat, b: nat)
    requires 0 < a <= b
    ensures Log2(a) <= Log2(b)
  {
    if Log2(b) < Log2(a) {
      Pow2Mono(Log2(b), Log2(a));
    }
  }

  lemma Pow2Injective(a: nat, b: nat)
    requires Pow2(a) == Pow2(b)
    ensures a == b
  {
    if a < b {
      Pow2Mono(a, b);
    } else if b < a {
      Pow2Mono(b, a);
    }
  }

  /** v >> k. */
  function Shr(v: nat, k: nat): (r: nat)
    decreases k
  {
    if k == 0 then v else Shr(v / 2, k - 1)
  }

  /** Bit k of v. */
  predicate BitAt(v: nat, k: nat)
    decreases k
  {
    if k == 0 then v % 2 == 1 else BitAt(v / 2, k - 1)
  }

  /** The low k bits of v are clear. */
  predicate Aligned(v: nat, k: nat)
    decreases k
  {
    k == 0 || (v % 2 == 0 && Aligned(v / 2, k - 1))
  }

  lemma {:induction false} AlignedGap(a: nat, b: nat, k: nat)
    requires Aligned(a, k) && Aligned(b, k) && a < b
    ensures a + Pow2(k) <= b
    decreases k
  {
    if k > 0 {
      AlignedGap(a / 2, b / 2, k - 1);
    }
  }

  lemma {:induction false} AlignedWeaken(v: nat, j: nat, k: nat)
    requires j <= k && Aligned(v, k)
    ensures Aligned(v, j)
    decreases k
  {
    if j > 0 {
      AlignedWeaken(v / 2, j - 1, k - 1);
    }
  }

  lemma {:induction false} AlignedAdd(v: nat, w: nat, k: nat)
    requires Aligned(v, k) && Aligned(w, k)
    ensures Aligned(v + w, k)
    decreases k
  {
    if k > 0 {
      AlignedAdd(v / 2, w / 2, k - 1);
    }
  }

  lemma {:induction false} Pow2Aligned(j: nat, k: nat)
    requires j <= k
    ensures Aligned(Pow2(k), j)
    decreases k
  {
    if j > 0 {
      assert Pow2(k) / 2 == Pow2(k - 1);
      Pow2Aligned(j - 1, k - 1);
    }
  }

  lemma {:induction false} ZeroAligned(k: nat)
    ensures Aligned(0, k)
  {
    if k > 0 {
      ZeroAligned(k - 1);
    }
  }

  /** Stepping by 2^k flips bit k and clears the way to the next alignment. */
  lemma {:induction false} BitStep(v: nat, k: nat)
    requires Aligned(v, k)
    ensures !BitAt(v, k) ==> Aligned(v, k + 1) && Aligned(v + Pow2(k), k) && BitAt(v + Pow2(k), k)
    ensures BitAt(v, k) ==> v >= Pow2(k) && Aligned(v - Pow2(k), k + 1) && !BitAt(v - Pow2(k), k)
    ensures Aligned(v, k + 1) ==> !BitAt(v, k)
    decreases k
  {
    if k > 0 {
      BitStep(v / 2, k - 1);
      assert (v + Pow2(k)) / 2 == v / 2 + Pow2(k - 1);
      if BitAt(v, k) {
        assert (v - Pow2(k)) / 2 == v / 2 - Pow2(k - 1);
      }
    }
  }

  /** v << k, without a word's truncation. */
  function Shl(v: nat, k: nat): (r: nat)
    decreases k
  {
    if k == 0 then v else 2 * Shl(v, k - 1)
  }

  lemma {:induction false} ShlAdd(v: nat, w: nat, k: nat)
    ensures Shl(v + w, k) == Shl(v, k) + Shl(w, k)
  {
    if k > 0 {
      ShlAdd(v, w, k - 1);
    }
  }

  lemma {:induction false} ShlMono(v: nat, w: nat, k: nat)
    ensures v < w <==> Shl(v, k) < Shl(w, k)
  {
    if k > 0 {
      ShlMono(v, w, k - 1);
    }
  }

  lemma {:induction false} ShlPow2(o: nat, k: nat)
    ensures Shl(Pow2(o), k) == Pow2(o + k)
  {
    if k > 0 {
      ShlPow2(o, k - 1);
    }
  }

  lemma {:induction false} ShlDouble(v: nat, k: nat)
    ensures Shl(2 * v, k) == 2 * Shl(v, k)
  {
    if k > 0 {
      ShlDouble(v, k - 1);
    }
  }

  /** Shifting down rounds to the multiple of 2^k at or below v. */
  lemma {:induction false} ShrBounds(v: nat, k: nat)
    ensures Shl(Shr(v, k), k) <= v < Shl(Shr(v, k) + 1, k)
    decreases k
  {
    if k > 0 {
      ShrBounds(v / 2, k - 1);
    }
  }

  lemma {:induction false} ShrShl(u: nat, k: nat)
    ensures Shr(Shl(u, k), k) == u && Aligned(Shl(u, k), k)
  {
    if k > 0 {
      ShrShl(u, k - 1);
      assert Shl(u, k) / 2 == Shl(u, k - 1);
    }
  }

  lemma {:induction false} AlignedShr(v: nat, k: nat)
    requires Aligned(v, k)
    ensures Shl(Shr(v, k), k) == v
    decreases k
  {
    if k > 0 {
      AlignedShr(v / 2, k - 1);
    }
  }

  lemma {:induction false} ShlZero(k: nat)
    ensures Shl(0, k) == 0
  {
    if k > 0 {
      ShlZero(k - 1);
    }
  }

  lemma {:induction false} ShrSmaller(v: nat, k: nat)
    ensures Shr(v, k) <= v
    decreases k
  {
    if k > 0 {
      ShrSmaller(v / 2, k - 1);
    }
  }

  lemma {:induction false} Pow2Sum(a: nat, b: nat)
    ensures Pow2(a + b) == Pow2(a) * Pow2(b)
  {
    if a > 0 {
      Pow2Sum(a - 1, b);
      assert Pow2(a + b) == 2 * (Pow2(a - 1) * Pow2(b));
    }
  }

  lemma Pow2Values()
    ensures Pow2(5) == 32 && Pow2(16) == 0x1_0000 && Pow2(32) == 0x1_0000_0000
    ensures Pow2(64) == 0x1_0000_0000_0000_0000
  {
    assert Pow2(4) == 16;
    Pow2Sum(4, 4);
    Pow2Sum(8, 8);
    Pow2Sum(16, 16);
    Pow2Sum(32, 32);
  }
}
