/**
 Machine words as bounded naturals. The bitwise operators are defined digit by digit, so each fact
 about them is an induction on halving.
 */
module Words {
  import opened Powers

  predicate Fits(w: nat, n: nat)
  {
    w < Pow2(n)
  }

  /** a & b. */
  function And(a: nat, b: nat): nat
    decreases a
  {
    if a == 0 then 0 else 2 * And(a / 2, b / 2) + (if a % 2 == 1 && b % 2 == 1 then 1 else 0)
  }

  /** a | b. */
  function Or(a: nat, b: nat): nat
    decreases a + b
  {
    if a == 0 && b == 0 then 0 else 2 * Or(a / 2, b / 2) + (if a % 2 == 1 || b % 2 == 1 then 1 else 0)
  }

  /** a ^ b. */
  function Xor(a: nat, b: nat): nat
    decreases a + b
  {
    if a == 0 && b == 0 then 0 else 2 * Xor(a / 2, b / 2) + (if a % 2 != b % 2 then 1 else 0)
  }

  /** ~w in n bits. */
  function Not(w: nat, n: nat): nat
    requires Fits(w, n)
  {
    Pow2(n) - 1 - w
  }

  /** ~0 << i in n bits. */
  function From(i: nat, n: nat): nat
    requires i <= n
  {
    Pow2Le(i, n);
    Pow2(n) - Pow2(i)
  }

  /** w << 1 in n bits: the top bit falls out. */
  function Shl1(w: nat, n: nat): nat
    requires n > 0 && Fits(w, n)
  {
    if w >= Pow2(n - 1) then 2 * (w - Pow2(n - 1)) else 2 * w
  }

  lemma {:induction false} ZeroBit(j: nat)
    ensures !BitAt(0, j)
  {
    if j > 0 {
      ZeroBit(j - 1);
    }
  }

  lemma {:induction false} AndBit(a: nat, b: nat, j: nat)
    ensures BitAt(And(a, b), j) <==> BitAt(a, j) && BitAt(b, j)
    decreases j
  {
    if a == 0 {
      ZeroBit(j);
    } else if j > 0 {
      assert And(a, b) / 2 == And(a / 2, b / 2);
      AndBit(a / 2, b / 2, j - 1);
    }
  }

  lemma {:induction false} OrBit(a: nat, b: nat, j: nat)
    ensures BitAt(Or(a, b), j) <==> BitAt(a, j) || BitAt(b, j)
    decreases j
  {
    if a == 0 && b == 0 {
      ZeroBit(j);
    } else if j > 0 {
      assert Or(a, b) / 2 == Or(a / 2, b / 2);
      OrBit(a / 2, b / 2, j - 1);
    }
  }

  lemma {:induction false} NotBit(w: nat, n: nat, j: nat)
    requires Fits(w, n) && j < n
    ensures BitAt(Not(w, n), j) <==> !BitAt(w, j)
    decreases j
  {
    if j > 0 {
      assert Not(w, n) / 2 == Not(w / 2, n - 1);
      NotBit(w / 2, n - 1, j - 1);
    }
  }

  lemma {:induction false} OneBit(i: nat, j: nat)
    ensures BitAt(Pow2(i), j) <==> i == j
    decreases j
  {
    if i == 0 {
      if j > 0 {
        ZeroBit(j - 1);
      }
    } else if j > 0 {
      assert Pow2(i) / 2 == Pow2(i - 1);
      OneBit(i - 1, j - 1);
    }
  }

  lemma {:induction false} AllOnes(n: nat, j: nat)
    requires j < n
    ensures BitAt(Pow2(n) - 1, j)
    decreases j
  {
    if j > 0 {
      assert (Pow2(n) - 1) / 2 == Pow2(n - 1) - 1;
      AllOnes(n - 1, j - 1);
    }
  }

  lemma {:induction false} FromBit(i: nat, n: nat, j: nat)
    requires i <= n && j < n
    ensures BitAt(From(i, n), j) <==> i <= j
    decreases j
  {
    if i == 0 {
      AllOnes(n, j);
    } else {
      HalfFrom(i, n);
      if j > 0 {
        FromBit(i - 1, n - 1, j - 1);
      }
    }
  }

  lemma HalfFrom(i: nat, n: nat)
    requires 0 < i <= n
    ensures From(i, n) == 2 * From(i - 1, n - 1)
  {
  }

  /** A bit beyond the width is clear. */
  lemma {:induction false} HighBit(w: nat, n: nat, j: nat)
    requires Fits(w, n) && n <= j
    ensures !BitAt(w, j)
    decreases j
  {
    if j > 0 {
      if n > 0 {
        HighBit(w / 2, n - 1, j - 1);
      } else {
        ZeroBit(j);
      }
    }
  }

  lemma {:induction false} ShrBit(w: nat, i: nat, j: nat)
    ensures BitAt(Shr(w, i), j) <==> BitAt(w, i + j)
    decreases i
  {
    if i > 0 {
      ShrBit(w / 2, i - 1, j);
    }
  }

  /** The top bit of a word is its comparison with the top power. */
  lemma {:induction false} TopBit(w: nat, n: nat)
    requires n > 0 && Fits(w, n)
    ensures BitAt(w, n - 1) <==> w >= Pow2(n - 1)
    decreases n
  {
    if n > 1 {
      TopBit(w / 2, n - 1);
    }
  }

  lemma {:induction false} Shl1Bit(w: nat, n: nat, j: nat)
    requires n > 0 && Fits(w, n)
    ensures Fits(Shl1(w, n), n)
    ensures BitAt(Shl1(w, n), j) <==> 0 < j < n && BitAt(w, j - 1)
  {
    if j > 0 {
      if w >= Pow2(n - 1) {
        TopBit(w, n);
        TopClear(w, n - 1, j - 1);
        if j > n {
          HighBit(w, n, j - 1);
        }
      } else if j >= n {
        HighBit(w, n - 1, j - 1);
      }
    }
  }

  lemma {:induction false} TopClear(w: nat, k: nat, j: nat)
    requires Pow2(k) <= w < Pow2(k + 1)
    ensures BitAt(w - Pow2(k), j) <==> j != k && BitAt(w, j)
    decreases k
  {
    if k == 0 {
      ZeroBit(j);
      HighBit(w, 1, j + 1);
      if j > 0 {
        HighBit(w, 1, j);
      }
    } else if j > 0 {
      assert (w - Pow2(k)) / 2 == w / 2 - Pow2(k - 1);
      TopClear(w / 2, k - 1, j - 1);
    }
  }

  lemma {:induction false} OrFits(a: nat, b: nat, n: nat)
    requires Fits(a, n) && Fits(b, n)
    ensures Fits(Or(a, b), n)
    decreases n
  {
    if n > 0 && (a > 0 || b > 0) {
      OrFits(a / 2, b / 2, n - 1);
    }
  }

  lemma {:induction false} AndFits(a: nat, b: nat)
    ensures And(a, b) <= a
  {
    if a > 0 {
      AndFits(a / 2, b / 2);
    }
  }

  /** Words with the same bits are the same word. */
  lemma {:induction false} SameBits(a: nat, b: nat, n: nat)
    requires Fits(a, n) && Fits(b, n)
    requires forall j :: 0 <= j < n ==> BitAt(a, j) == BitAt(b, j)
    ensures a == b
    decreases n
  {
    if n > 0 {
      assert BitAt(a, 0) == BitAt(b, 0);
      forall j | 0 <= j < n - 1
        ensures BitAt(a / 2, j) == BitAt(b / 2, j)
      {
        assert BitAt(a, j + 1) == BitAt(b, j + 1);
      }
      SameBits(a / 2, b / 2, n - 1);
    }
  }

  /** Exclusive or with a power of two moves the offset by it, up if the bit is clear and down if it is set. */
  lemma {:induction false} XorPow2(v: nat, k: nat)
    ensures BitAt(v, k) ==> Xor(v, Pow2(k)) == v - Pow2(k)
    ensures !BitAt(v, k) ==> Xor(v, Pow2(k)) == v + Pow2(k)
    decreases k
  {
    if k == 0 {
      XorZero(v / 2);
    } else {
      assert Pow2(k) / 2 == Pow2(k - 1);
      XorPow2(v / 2, k - 1);
    }
  }

  lemma {:induction false} XorZero(v: nat)
    ensures Xor(v, 0) == v
  {
    if v > 0 {
      XorZero(v / 2);
    }
  }

  lemma {:induction false} AndSelf(a: nat)
    ensures And(a, a) == a
  {
    if a > 0 {
      AndSelf(a / 2);
    }
  }

  /** n & (n - 1) is zero exactly for powers of two. */
  lemma {:induction false} PowerTest(n: nat)
    requires n > 0
    ensures And(n, n - 1) == 0 <==> n == Pow2(Log2(n))
  {
    if n % 2 == 1 {
      AndSelf(n / 2);
    } else {
      assert (n - 1) / 2 == n / 2 - 1;
      PowerTest(n / 2);
    }
  }

  // ---- the idioms the books use on their masks ----

  /** mask | (1 << i). */
  function Set(w: nat, i: nat, n: nat): (r: nat)
    requires i < n && Fits(w, n)
    ensures Fits(r, n)
    ensures forall j :: 0 <= j < n ==> (BitAt(r, j) <==> i == j || BitAt(w, j))
  {
    Pow2Mono(i, n);
    OrFits(w, Pow2(i), n);
    SetBits(w, i, n);
    Or(w, Pow2(i))
  }

  lemma SetBits(w: nat, i: nat, n: nat)
    ensures forall j :: 0 <= j < n ==> (BitAt(Or(w, Pow2(i)), j) <==> i == j || BitAt(w, j))
  {
    forall j | 0 <= j < n
      ensures BitAt(Or(w, Pow2(i)), j) <==> i == j || BitAt(w, j)
    {
      OrBit(w, Pow2(i), j);
      OneBit(i, j);
    }
  }

  /** mask & ~(1 << i). */
  function Clear(w: nat, i: nat, n: nat): (r: nat)
    requires i < n && Fits(w, n)
    ensures Fits(r, n)
    ensures forall j :: 0 <= j < n ==> (BitAt(r, j) <==> i != j && BitAt(w, j))
  {
    Pow2Mono(i, n);
    AndFits(w, Not(Pow2(i), n));
    ClearBits(w, i, n);
    And(w, Not(Pow2(i), n))
  }

  lemma ClearBits(w: nat, i: nat, n: nat)
    requires i < n && Fits(w, n) && Fits(Pow2(i), n)
    ensures forall j :: 0 <= j < n ==> (BitAt(And(w, Not(Pow2(i), n)), j) <==> i != j && BitAt(w, j))
  {
    forall j | 0 <= j < n
      ensures BitAt(And(w, Not(Pow2(i), n)), j) <==> i != j && BitAt(w, j)
    {
      AndBit(w, Not(Pow2(i), n), j);
      NotBit(Pow2(i), n, j);
      OneBit(i, j);
    }
  }

  /** mask & (~0 << i). */
  function Above(w: nat, i: nat, n: nat): (r: nat)
    requires i < n && Fits(w, n)
    ensures Fits(r, n)
    ensures forall j :: 0 <= j < n ==> (BitAt(r, j) <==> i <= j && BitAt(w, j))
  {
    AndFits(w, From(i, n));
    AboveBits(w, i, n);
    And(w, From(i, n))
  }

  lemma AboveBits(w: nat, i: nat, n: nat)
    requires i < n
    ensures forall j :: 0 <= j < n ==> (BitAt(And(w, From(i, n)), j) <==> i <= j && BitAt(w, j))
  {
    forall j | 0 <= j < n
      ensures BitAt(And(w, From(i, n)), j) <==> i <= j && BitAt(w, j)
    {
      AndBit(w, From(i, n), j);
      FromBit(i, n, j);
    }
  }

  /** Count of trailing zeros: the lowest set bit of a nonzero word. */
  function Ctz(w: nat): (r: nat)
    requires w > 0
    ensures BitAt(w, r)
    ensures forall j :: 0 <= j < r ==> !BitAt(w, j)
  {
    if w % 2 == 1 then 0
    else
      var r := Ctz(w / 2);
      assert forall j :: 0 < j < 1 + r ==> (BitAt(w, j) <==> BitAt(w / 2, j - 1));
      1 + r
  }

  lemma CtzBound(w: nat, n: nat)
    requires w > 0 && Fits(w, n)
    ensures Ctz(w) < n
  {
    if n <= Ctz(w) {
      HighBit(w, n, Ctz(w));
    }
  }

  /** w & (w - 1) drops the lowest set bit and nothing else. */
  lemma {:induction false} DropLowest(w: nat, j: nat)
    requires w > 0
    ensures And(w, w - 1) < w
    ensures BitAt(And(w, w - 1), j) <==> j != Ctz(w) && BitAt(w, j)
    decreases w
  {
    if w % 2 == 1 {
      DropOdd(w);
      assert And(w, w - 1) / 2 == w / 2;
    } else {
      DropEven(w);
      DropLowest(w / 2, if j == 0 then 0 else j - 1);
    }
  }

  lemma DropOdd(w: nat)
    requires w % 2 == 1
    ensures And(w, w - 1) == w - 1
  {
    AndSelf(w / 2);
    assert (w - 1) / 2 == w / 2;
  }

  lemma DropEven(w: nat)
    requires w > 0 && w % 2 == 0
    ensures And(w, w - 1) == 2 * And(w / 2, w / 2 - 1)
  {
    assert (w - 1) / 2 == w / 2 - 1;
  }

  /** A word with every bit clear is zero. */
  lemma NoBits(w: nat, n: nat)
    requires Fits(w, n) && forall j :: 0 <= j < n ==> !BitAt(w, j)
    ensures w == 0
  {
    if w != 0 {
      CtzBound(w, n);
    }
  }
}
