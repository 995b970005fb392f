/** Which of 2^k cells a running index falls in: `i & (N - 1)`. */
module RingIndex {
  import opened Powers
  import opened Words

  /** The low k bits of v. */
  function Low(v: nat, k: nat): (r: nat)
    ensures r < Pow2(k)
    decreases k
  {
    if k == 0 then 0 else 2 * Low(v / 2, k - 1) + v % 2
  }

  function CellOf(i: nat, k: nat): nat
  {
    And(i, Pow2(k) - 1)
  }

  lemma {:induction false} AndZero(v: nat)
    ensures And(v, 0) == 0
  {
    if v > 0 {
      AndZero(v / 2);
    }
  }

  lemma {:induction false} MaskIsLow(v: nat, k: nat)
    ensures CellOf(v, k) == Low(v, k)
    decreases k
  {
    if k == 0 {
      AndZero(v);
    } else {
      MaskIsLow(v / 2, k - 1);
      assert (Pow2(k) - 1) / 2 == Pow2(k - 1) - 1 && (Pow2(k) - 1) % 2 == 1;
      if v == 0 {
        LowZero(k);
      }
    }
  }

  lemma {:induction false} LowZero(k: nat)
    ensures Low(0, k) == 0
  {
    if k > 0 {
      LowZero(k - 1);
    }
  }

  lemma {:induction false} LowSplit(v: nat, k: nat)
    ensures v == Shl(Shr(v, k), k) + Low(v, k)
    decreases k
  {
    if k > 0 {
      LowSplit(v / 2, k - 1);
    }
  }

  lemma {:induction false} LowShift(v: nat, k: nat)
    ensures Low(v + Pow2(k), k) == Low(v, k)
    decreases k
  {
    if k > 0 {
      LowShift(v / 2, k - 1);
      assert (v + Pow2(k)) / 2 == v / 2 + Pow2(k - 1);
    }
  }

  lemma CellBound(i: nat, k: nat)
    ensures CellOf(i, k) < Pow2(k)
  {
    MaskIsLow(i, k);
  }

  /** Indices closer than the ring's size fall in different cells. */
  lemma CellsApart(i: nat, j: nat, k: nat)
    requires i < j < i + Pow2(k)
    ensures CellOf(i, k) != CellOf(j, k)
  {
    MaskIsLow(i, k);
    MaskIsLow(j, k);
    LowSplit(i, k);
    LowSplit(j, k);
    var a, b := Shr(i, k), Shr(j, k);
    ShlPow2(0, k);
    if CellOf(i, k) == CellOf(j, k) {
      ShlMono(a, b, k);
      ShlAdd(a, b - a, k);
      ShlMono(b - a, 1, k);
    }
  }

  lemma CellAgain(i: nat, k: nat)
    ensures CellOf(i + Pow2(k), k) == CellOf(i, k)
  {
    MaskIsLow(i, k);
    MaskIsLow(i + Pow2(k), k);
    LowShift(i, k);
  }

  /** Every window as wide as the ring has an index in the cell of a given earlier index. */
  lemma {:induction false} Twin(i: nat, from: nat, k: nat) returns (j: nat)
    requires i < from + Pow2(k)
    ensures from <= j < from + Pow2(k) && i <= j && CellOf(j, k) == CellOf(i, k)
    decreases from + Pow2(k) - i
  {
    if from <= i {
      j := i;
    } else {
      CellAgain(i, k);
      j := Twin(i + Pow2(k), from, k);
    }
  }

  lemma SmallIndex(i: nat, k: nat)
    requires i < Pow2(k)
    ensures CellOf(i, k) == i
  {
    MaskIsLow(i, k);
    LowSmall(i, k);
  }

  lemma {:induction false} LowSmall(i: nat, k: nat)
    requires i < Pow2(k)
    ensures Low(i, k) == i
    decreases k
  {
    if k > 0 {
      LowSmall(i / 2, k - 1);
    }
  }

  /** Stepping to the next cell, wrapping past the last. */
  lemma NextCell(h: nat, e: nat, k: nat)
    ensures CellOf(CellOf(h + e, k) + 1, k) == CellOf(h + e + 1, k)
  {
    MaskIsLow(h + e, k);
    MaskIsLow(h + e + 1, k);
    MaskIsLow(CellOf(h + e, k) + 1, k);
    LowNext(h + e, k);
  }

  lemma {:induction false} LowNext(v: nat, k: nat)
    ensures Low(Low(v, k) + 1, k) == Low(v + 1, k)
    decreases k
  {
    if k > 0 {
      LowNext(v / 2, k - 1);
      assert (v + 1) / 2 == if v % 2 == 0 then v / 2 else v / 2 + 1;
      assert (Low(v, k) + 1) / 2 == if v % 2 == 0 then Low(v / 2, k - 1) else Low(v / 2, k - 1) + 1;
      LowLow(v / 2, k - 1);
    }
  }

  lemma LowLow(v: nat, k: nat)
    ensures Low(Low(v, k), k) == Low(v, k)
  {
    LowSmall(Low(v, k), k);
  }

  /** Starting anywhere, N steps visit every cell. */
  lemma Reaches(h: nat, i: nat, k: nat) returns (e: nat)
    requires i < Pow2(k)
    ensures e < Pow2(k) && CellOf(h + e, k) == i
  {
    SmallIndex(i, k);
    var j := Twin(i, h, k);
    e := j - h;
  }
}
