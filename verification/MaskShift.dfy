/** One-bit shifts inside n-bit words, as the tier's availability mask makes them. */
module MaskShift {
  import opened Powers
  import opened Words

  /** (1 << i) - 1: the bits below i. */
  lemma LowOnes(i: nat, j: nat)
    ensures BitAt(Pow2(i) - 1, j) <==> j < i
  {
    if j < i {
      AllOnes(i, j);
    } else {
      HighBit(Pow2(i) - 1, i, j);
    }
  }

  lemma OnesFit(i: nat, n: nat)
    requires i <= n
    ensures Fits(Pow2(i) - 1, n)
  {
    Pow2Le(i, n);
  }

  /** ~((1 << i) - 1) in a word: the bits from i up. */
  lemma HighOnes(i: nat, j: nat, n: nat)
    requires i <= n && j < n
    ensures Fits(Pow2(i) - 1, n) && (BitAt(Not(Pow2(i) - 1, n), j) <==> i <= j)
  {
    hide Pow2, BitAt, Not;
    OnesFit(i, n);
    NotBit(Pow2(i) - 1, n, j);
    LowOnes(i, j);
  }

  lemma PowFits(bit: nat, n: nat)
    requires bit < n
    ensures Fits(Pow2(bit), n) && Fits(0, n)
  {
    Pow2Mono(bit, n);
  }

  lemma PowZero()
    ensures Pow2(0) == 1
  {
  }

  // ---- making room for a bit ----

  /** In r the bits of w from `bit` on have moved up by one, and bit `bit` is `value`. */
  ghost predicate Inserted(r: nat, w: nat, bit: nat, value: bool, n: nat)
  {
    forall j: nat :: j < n ==> (BitAt(r, j) <==> AfterInsert(w, bit, value, j))
  }

  ghost predicate AfterInsert(w: nat, bit: nat, value: bool, j: nat)
  {
    if j < bit then BitAt(w, j) else if j == bit then value else BitAt(w, j - 1)
  }

  function InsertBit(w: nat, bit: nat, value: bool, n: nat): (r: nat)
    requires Fits(w, n) && bit < n
    ensures Fits(r, n) && Inserted(r, w, bit, value, n)
  {
    OnesFit(bit + 1, n);
    var loMask := if bit == 0 then 0 else Pow2(bit) - 1;
    var hiKeep := if bit == n - 1 then 0 else Not(Pow2(bit + 1) - 1, n);
    var v := if value then Pow2(bit) else 0;
    var word := Or(Or(And(w, loMask), And(Shl1(w, n), hiKeep)), v);
    InsertBits(w, bit, value, loMask, hiKeep, v, word, n);
    word
  }

  lemma InsertBits(w: nat, bit: nat, value: bool, loMask: nat, hiKeep: nat, v: nat, r: nat, n: nat)
    requires Fits(w, n) && bit < n && Fits(Pow2(bit + 1) - 1, n)
    requires loMask == if bit == 0 then 0 else Pow2(bit) - 1
    requires hiKeep == if bit == n - 1 then 0 else Not(Pow2(bit + 1) - 1, n)
    requires v == if value then Pow2(bit) else 0
    requires r == Or(Or(And(w, loMask), And(Shl1(w, n), hiKeep)), v)
    ensures Fits(r, n) && Inserted(r, w, bit, value, n)
  {
    hide And, Or, Shl1, Not, Pow2, BitAt;
    var lo, hi := And(w, loMask), And(Shl1(w, n), hiKeep);
    PowFits(bit, n);
    AndFits(w, loMask);
    Shl1Bit(w, n, 0);
    AndFits(Shl1(w, n), hiKeep);
    OrFits(lo, hi, n);
    OrFits(Or(lo, hi), v, n);
    PowZero();
    forall j: nat | j < n
      ensures BitAt(r, j) <==> AfterInsert(w, bit, value, j)
    {
      OrBit(Or(lo, hi), v, j);
      OrBit(lo, hi, j);
      AndBit(w, loMask, j);
      AndBit(Shl1(w, n), hiKeep, j);
      LowOnes(bit, j);
      HighOnes(bit + 1, j, n);
      Shl1Bit(w, n, j);
      ZeroBit(j);
      OneBit(bit, j);
    }
  }

  /** (w << 1) | c: the word moves up by one and takes a carry. */
  function CarryUp(w: nat, c: bool, n: nat): (r: nat)
    requires n > 0 && Fits(w, n)
    ensures Fits(r, n) && Inserted(r, w, 0, c, n)
  {
    var v := if c then 1 else 0;
    CarryUpBits(w, c, v, n);
    Or(Shl1(w, n), v)
  }

  lemma CarryUpBits(w: nat, c: bool, v: nat, n: nat)
    requires n > 0 && Fits(w, n) && v == if c then 1 else 0
    ensures Fits(Or(Shl1(w, n), v), n) && Inserted(Or(Shl1(w, n), v), w, 0, c, n)
  {
    hide And, Or, Shl1, Not, BitAt, Pow2;
    PowFits(0, n);
    PowZero();
    Shl1Bit(w, n, 0);
    OrFits(Shl1(w, n), v, n);
    forall j: nat | j < n
      ensures BitAt(Or(Shl1(w, n), v), j) <==> AfterInsert(w, 0, c, j)
    {
      OrBit(Shl1(w, n), v, j);
      Shl1Bit(w, n, j);
      OneBit(0, j);
      ZeroBit(j);
    }
  }

  // ---- closing the gap of a bit ----

  /** In r the bits of w above `bit` have moved down by one, and the top bit is a carry. */
  ghost predicate Removed(r: nat, w: nat, bit: nat, carry: bool, n: nat)
  {
    forall j: nat :: j < n ==> (BitAt(r, j) <==> AfterRemove(w, bit, carry, n, j))
  }

  ghost predicate AfterRemove(w: nat, bit: nat, carry: bool, n: nat, j: nat)
  {
    if j < bit then BitAt(w, j) else if j < n - 1 then BitAt(w, j + 1) else carry
  }

  function RemoveBit(w: nat, bit: nat, carry: bool, n: nat): (r: nat)
    requires Fits(w, n) && bit < n
    ensures Fits(r, n) && Removed(r, w, bit, carry, n)
  {
    OnesFit(bit, n);
    var loMask := if bit == 0 then 0 else Pow2(bit) - 1;
    var hiKeep := if bit == 0 then Pow2(n - 1) - 1 else And(Pow2(n - 1) - 1, Not(Pow2(bit) - 1, n));
    var v := if carry then Pow2(n - 1) else 0;
    var word := Or(Or(And(w, loMask), And(Shr(w, 1), hiKeep)), v);
    RemoveBits(w, bit, carry, loMask, hiKeep, v, word, n);
    word
  }

  lemma KeepBits(bit: nat, j: nat, hiKeep: nat, n: nat)
    requires bit < n && j < n && Fits(Pow2(bit) - 1, n)
    requires hiKeep == if bit == 0 then Pow2(n - 1) - 1 else And(Pow2(n - 1) - 1, Not(Pow2(bit) - 1, n))
    ensures BitAt(hiKeep, j) <==> bit <= j < n - 1
  {
    hide And, Or, Not, Pow2, BitAt;
    AndBit(Pow2(n - 1) - 1, Not(Pow2(bit) - 1, n), j);
    LowOnes(n - 1, j);
    HighOnes(bit, j, n);
  }

  lemma RemoveBits(w: nat, bit: nat, carry: bool, loMask: nat, hiKeep: nat, v: nat, r: nat, n: nat)
    requires Fits(w, n) && bit < n && Fits(Pow2(bit) - 1, n)
    requires loMask == if bit == 0 then 0 else Pow2(bit) - 1
    requires hiKeep == if bit == 0 then Pow2(n - 1) - 1 else And(Pow2(n - 1) - 1, Not(Pow2(bit) - 1, n))
    requires v == if carry then Pow2(n - 1) else 0
    requires r == Or(Or(And(w, loMask), And(Shr(w, 1), hiKeep)), v)
    ensures Fits(r, n) && Removed(r, w, bit, carry, n)
  {
    hide And, Or, Shl1, Not, Pow2, BitAt, Shr;
    var lo, hi := And(w, loMask), And(Shr(w, 1), hiKeep);
    PowFits(n - 1, n);
    PowZero();
    AndFits(w, loMask);
    AndFits(Shr(w, 1), hiKeep);
    ShrSmaller(w, 1);
    OrFits(lo, hi, n);
    OrFits(Or(lo, hi), v, n);
    forall j: nat | j < n
      ensures BitAt(r, j) <==> AfterRemove(w, bit, carry, n, j)
    {
      OrBit(Or(lo, hi), v, j);
      OrBit(lo, hi, j);
      AndBit(w, loMask, j);
      AndBit(Shr(w, 1), hiKeep, j);
      KeepBits(bit, j, hiKeep, n);
      LowOnes(bit, j);
      ShrBit(w, 1, j);
      ZeroBit(j);
      OneBit(n - 1, j);
    }
  }

  /** (w >> 1) | (c << 63): the word moves down by one and takes a carry at the top. */
  function CarryDown(w: nat, c: bool, n: nat): (r: nat)
    requires n > 0 && Fits(w, n)
    ensures Fits(r, n) && Removed(r, w, 0, c, n)
  {
    var v := if c then Pow2(n - 1) else 0;
    CarryDownBits(w, c, v, n);
    Or(Shr(w, 1), v)
  }

  lemma CarryDownBits(w: nat, c: bool, v: nat, n: nat)
    requires n > 0 && Fits(w, n) && v == if c then Pow2(n - 1) else 0
    ensures Fits(Or(Shr(w, 1), v), n) && Removed(Or(Shr(w, 1), v), w, 0, c, n)
  {
    hide And, Or, Shl1, Not, Pow2, BitAt, Shr;
    PowFits(n - 1, n);
    ShrSmaller(w, 1);
    OrFits(Shr(w, 1), v, n);
    TopOfHalf(w, n);
    forall j: nat | j < n
      ensures BitAt(Or(Shr(w, 1), v), j) <==> AfterRemove(w, 0, c, n, j)
    {
      OrBit(Shr(w, 1), v, j);
      ShrBit(w, 1, j);
      ZeroBit(j);
      OneBit(n - 1, j);
    }
  }

  lemma TopOfHalf(w: nat, n: nat)
    requires Fits(w, n)
    ensures !BitAt(w, n)
  {
    HighBit(w, n, n);
  }

  /** mask &= mask - 1 clears the bit that count-trailing-zeros names. */
  lemma DropIsClear(w: nat, n: nat)
    requires w > 0 && Fits(w, n)
    ensures Ctz(w) < n && And(w, w - 1) == Clear(w, Ctz(w), n) < w
  {
    hide And, Pow2, BitAt, Clear, Ctz;
    CtzBound(w, n);
    DropLowest(w, 0);
    forall j: nat | j < n
      ensures BitAt(And(w, w - 1), j) == BitAt(Clear(w, Ctz(w), n), j)
    {
      DropLowest(w, j);
    }
    SameBits(And(w, w - 1), Clear(w, Ctz(w), n), n);
  }
}
