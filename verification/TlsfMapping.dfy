/** The two-level size classes of the TLSF book: 16 linear steps inside each power of two. */
module TlsfMapping {
  import opened Powers

  const MIN_BLOCK: nat := 64
  const ALIGN: nat := 32
  const OVERHEAD: nat := 64
  const FL_SHIFT: nat := 6
  const SL_LOG2: nat := 4
  const SL_COUNT: nat := 16
  const FL_COUNT: nat := 26
  const LISTS: nat := 416

  /** Largest block size whose class can be searched for without the rounding sum wrapping. */
  const SEARCH_LIMIT: int := 0xF800_0000_0000_0000

  /** Sizes of at least a minimal block have six bits or more. */
  lemma SizeLog(size: nat)
    requires size >= MIN_BLOCK
    ensures Log2(size) >= FL_SHIFT
  {
    Pow2Values();
    Log2Mono(64, size);
    Log2Unique(64, 6);
  }

  /** The leading five bits of a size: a one, and the four that pick the step. */
  function Lead(size: nat): (q: nat)
    requires size >= MIN_BLOCK
    ensures SL_COUNT <= q < 2 * SL_COUNT
  {
    SizeLog(size);
    LeadRange(size, Log2(size));
    Shr(size, Log2(size) - SL_LOG2)
  }

  lemma LeadRange(size: nat, l: nat)
    requires l >= SL_LOG2 && Pow2(l) <= size < Pow2(l + 1)
    ensures SL_COUNT <= Shr(size, l - SL_LOG2) < 2 * SL_COUNT
    ensures Shl(SL_COUNT, l - SL_LOG2) == Pow2(l) && Shl(2 * SL_COUNT, l - SL_LOG2) == Pow2(l + 1)
  {
    var k := l - SL_LOG2;
    ShlPow2(4, k);
    ShlPow2(5, k);
    assert Pow2(4) == 16 && Pow2(5) == 32;
    ShrBounds(size, k);
    var q := Shr(size, k);
    if q < SL_COUNT {
      LeqShl(q + 1, SL_COUNT, k);
    } else if q >= 2 * SL_COUNT {
      LeqShl(2 * SL_COUNT, q, k);
    }
  }

  lemma LeqShl(a: nat, b: nat, k: nat)
    requires a <= b
    ensures Shl(a, k) <= Shl(b, k)
  {
    ShlMono(b, a, k);
  }

  /** First and second level index of the list that stores blocks of this size. */
  function MappingInsert(size: nat): (fs: (nat, nat))
    requires size >= MIN_BLOCK
    ensures fs.1 < SL_COUNT
  {
    SizeLog(size);
    var fl := Log2(size);
    (fl - FL_SHIFT, Shr(size, fl - SL_LOG2) % SL_COUNT)
  }

  function Idx(fi: nat, si: nat): nat
  {
    fi * SL_COUNT + si
  }

  /** The class of a size. */
  function Class(size: nat): nat
    requires size >= MIN_BLOCK
  {
    Idx(MappingInsert(size).0, MappingInsert(size).1)
  }

  /** The smallest size of class i. */
  function Floor(i: nat): (r: nat)
  {
    Shl(SL_COUNT + i % SL_COUNT, i / SL_COUNT + (FL_SHIFT - SL_LOG2))
  }

  /** Floors by their two levels; the last step of one level meets the first of the next. */
  lemma FloorAt(fi: nat, si: nat)
    requires si <= SL_COUNT
    ensures Floor(Idx(fi, si)) == Shl(SL_COUNT + si, fi + 2)
  {
    if si == SL_COUNT {
      assert Idx(fi, si) / SL_COUNT == fi + 1 && Idx(fi, si) % SL_COUNT == 0;
      ShlDouble(SL_COUNT, fi + 2);
    } else {
      assert Idx(fi, si) / SL_COUNT == fi && Idx(fi, si) % SL_COUNT == si;
    }
  }

  lemma ClassParts(size: nat)
    requires size >= MIN_BLOCK
    ensures Log2(size) >= FL_SHIFT
    ensures Class(size) == Idx(Log2(size) - FL_SHIFT, Lead(size) - SL_COUNT)
    ensures Class(size) / SL_COUNT == Log2(size) - FL_SHIFT && Class(size) % SL_COUNT == Lead(size) - SL_COUNT
  {
    hide Pow2, Log2, Shr;
    SizeLog(size);
    var q := Lead(size);
    assert q % SL_COUNT == q - SL_COUNT;
  }

  /** A size lies between its class's floor and the next one. */
  lemma ClassBounds(size: nat)
    requires size >= MIN_BLOCK
    ensures Floor(Class(size)) <= size < Floor(Class(size) + 1)
  {
    hide Class, Floor, Log2, Pow2, Shl;
    ClassParts(size);
    var l, q := Log2(size), Lead(size);
    ShrBounds(size, l - SL_LOG2);
    FloorAt(l - FL_SHIFT, q - SL_COUNT);
    FloorAt(l - FL_SHIFT, q - SL_COUNT + 1);
  }

  lemma FloorNext(i: nat)
    ensures Floor(i) < Floor(i + 1)
  {
    var fi, si := i / SL_COUNT, i % SL_COUNT;
    FloorAt(fi, si);
    FloorAt(fi, si + 1);
    ShlMono(SL_COUNT + si, SL_COUNT + si + 1, fi + 2);
  }

  lemma {:induction false} FloorMono(i: nat, j: nat)
    requires i <= j
    ensures Floor(i) <= Floor(j)
    ensures i < j ==> Floor(i) < Floor(j)
    decreases j
  {
    if i < j {
      FloorMono(i, j - 1);
      FloorNext(j - 1);
    }
  }

  /** A size is in class i or above exactly when it is at least the floor of i. */
  lemma ClassAtLeast(size: nat, i: nat)
    requires size >= MIN_BLOCK
    ensures i <= Class(size) <==> Floor(i) <= size
  {
    hide Class, Floor;
    ClassBounds(size);
    if i <= Class(size) {
      FloorMono(i, Class(size));
    } else {
      FloorMono(Class(size) + 1, i);
    }
  }

  lemma ClassMono(a: nat, b: nat)
    requires MIN_BLOCK <= a <= b
    ensures Class(a) <= Class(b)
  {
    hide Class, Floor;
    ClassBounds(a);
    ClassAtLeast(b, Class(a));
  }

  lemma ClassIs(size: nat, i: nat)
    requires size >= MIN_BLOCK && Floor(i) <= size < Floor(i + 1)
    ensures Class(size) == i
  {
    hide Class, Floor;
    ClassAtLeast(size, i);
    ClassAtLeast(size, i + 1);
  }

  /** How far apart two floors are. */
  function Width(i: nat): nat
  {
    Pow2(i / SL_COUNT + 2)
  }

  lemma FloorStep(i: nat)
    ensures Floor(i + 1) == Floor(i) + Width(i)
    ensures SL_COUNT * Width(i) <= Floor(i)
  {
    hide Floor, Shl, Pow2;
    var fi, si := i / SL_COUNT, i % SL_COUNT;
    FloorAt(fi, si);
    FloorAt(fi, si + 1);
    ShlAdd(SL_COUNT + si, 1, fi + 2);
    ShlAdd(SL_COUNT, si, fi + 2);
    ShlOne(fi + 2);
    ShlSixteen(fi + 2);
  }

  lemma ShlOne(k: nat)
    ensures Shl(1, k) == Pow2(k)
  {
    ShlPow2(0, k);
  }

  lemma ShlSixteen(k: nat)
    ensures Shl(SL_COUNT, k) == SL_COUNT * Pow2(k)
  {
    ShlDouble(8, k);
    ShlDouble(4, k);
    ShlDouble(2, k);
    ShlDouble(1, k);
    ShlOne(k);
  }

  lemma WidthMono(i: nat, j: nat)
    requires i <= j
    ensures Width(i) <= Width(j)
  {
    hide Pow2;
    if i / SL_COUNT < j / SL_COUNT {
      Pow2Mono(i / SL_COUNT + 2, j / SL_COUNT + 2);
    }
  }

  // ---- searching ----

  /** The size that is looked up: one step short of the next class, in 64-bit arithmetic. */
  function Rounded(size: nat): nat
    requires size >= MIN_BLOCK
  {
    SizeLog(size);
    (size + Pow2(Log2(size) - SL_LOG2) - 1) % WORD_SIZE
  }

  lemma StepOfSize(size: nat)
    requires size >= MIN_BLOCK
    ensures Log2(size) >= FL_SHIFT && Pow2(Log2(size) - SL_LOG2) == Width(Class(size))
  {
    hide Class, Log2, Pow2;
    ClassParts(size);
  }

  lemma HighPowers()
    ensures Pow2(59) == 0x0800_0000_0000_0000 && Pow2(63) == 0x8000_0000_0000_0000
  {
    Pow2Values();
    assert Pow2(64) == 2 * Pow2(63);
    assert Pow2(61) == 4 * Pow2(59);
    assert Pow2(63) == 4 * Pow2(61);
  }

  /** The rounding sum wraps for exactly the sizes above the limit. */
  lemma RoundedFits(size: nat)
    requires MIN_BLOCK <= size < WORD_SIZE
    ensures Rounded(size) >= size <==> size <= SEARCH_LIMIT
    ensures size <= SEARCH_LIMIT ==> Rounded(size) == size + Width(Class(size)) - 1
  {
    hide Class, Width, Log2, Pow2;
    StepOfSize(size);
    HighPowers();
    Pow2Values();
    var l := Log2(size);
    if l >= 64 {
      Pow2Le(64, l);
    } else if l == 63 {
      assert Width(Class(size)) == Pow2(59);
    } else {
      Pow2Le(l + 1, 63);
      Pow2Le(l - SL_LOG2, 59);
    }
  }

  /** The sum is large enough for its two indices to be counted from zero. */
  predicate Searchable(size: nat)
  {
    MIN_BLOCK <= size < WORD_SIZE && (size <= SEARCH_LIMIT || Rounded(size) >= MIN_BLOCK)
  }

  function MappingSearch(size: nat): (fs: (nat, nat))
    requires Searchable(size)
    ensures fs.1 < SL_COUNT
  {
    RoundedFits(size);
    MappingInsert(Rounded(size))
  }

  /** The class a search for `size` starts from. */
  function SearchClass(size: nat): nat
    requires Searchable(size)
  {
    Idx(MappingSearch(size).0, MappingSearch(size).1)
  }

  /** The search class is the class of the size itself if that is a floor, and otherwise the next. */
  lemma SearchStep(size: nat)
    requires MIN_BLOCK <= size <= SEARCH_LIMIT
    ensures SearchClass(size) == if size == Floor(Class(size)) then Class(size) else Class(size) + 1
  {
    hide Floor, Width, Rounded, MappingInsert;
    RoundedFits(size);
    var c, r := Class(size), Rounded(size);
    assert SearchClass(size) == Class(r);
    hide Class;
    ClassBounds(size);
    FloorStep(c);
    FloorStep(c + 1);
    WidthMono(c, c + 1);
    ClassIs(r, if size == Floor(c) then c else c + 1);
  }

  /** Good fit, the safe half: it is the least class all of whose blocks are large enough. */
  lemma SearchLeast(size: nat, i: nat)
    requires MIN_BLOCK <= size <= SEARCH_LIMIT
    ensures SearchClass(size) <= i <==> size <= Floor(i)
  {
    hide Floor, Class, SearchClass;
    SearchStep(size);
    ClassBounds(size);
    var c, s := Class(size), SearchClass(size);
    if s <= i {
      FloorMono(s, i);
    } else if i < c {
      FloorMono(i + 1, c);
      FloorMono(i, i + 1);
    }
  }

  /** Good fit, the tight half: no block a sixteenth larger than asked for is overlooked. */
  lemma SearchSlack(size: nat, block: nat)
    requires MIN_BLOCK <= size <= SEARCH_LIMIT && size + size / SL_COUNT <= block
    ensures SearchClass(size) <= Class(block)
  {
    hide Floor, Class, SearchClass, Width;
    SearchStep(size);
    ClassBounds(size);
    FloorStep(Class(size));
    ClassAtLeast(block, SearchClass(size));
  }

  /** Every block of a class found by a search holds the size searched for. */
  lemma SearchHolds(size: nat, block: nat)
    requires MIN_BLOCK <= size <= SEARCH_LIMIT && block >= MIN_BLOCK && SearchClass(size) <= Class(block)
    ensures size <= block
  {
    hide Floor, Class, SearchClass;
    SearchLeast(size, Class(block));
    ClassBounds(block);
  }

  /**
   The promise of the search, that every block of the classes it looks through is large enough, is kept
   for exactly the sizes up to the limit.
   */
  lemma SearchPromise(size: nat)
    requires Searchable(size)
    ensures (forall b: nat :: b >= MIN_BLOCK && SearchClass(size) <= Class(b) ==> size <= b) <==> size <= SEARCH_LIMIT
  {
    hide SearchClass, Class, Rounded;
    if size <= SEARCH_LIMIT {
      forall b: nat | b >= MIN_BLOCK && SearchClass(size) <= Class(b)
        ensures size <= b
      {
        SearchHolds(size, b);
      }
    } else {
      RoundedFits(size);
      WrappedClass(size);
      assert SearchClass(size) <= Class(Rounded(size));
    }
  }

  lemma WrappedClass(size: nat)
    requires Searchable(size) && Rounded(size) >= MIN_BLOCK
    ensures SearchClass(size) == Class(Rounded(size))
  {
  }

  /**
   In a pool with this many first-level rows the promise is kept for the sizes up to the limit, and for
   those above it that the search refuses because their rounding sum names a row past the last.
   */
  lemma PoolPromise(size: nat, rows: nat)
    requires Searchable(size)
    ensures (forall b: nat :: MIN_BLOCK <= b < Pow2(rows + FL_SHIFT) && SearchClass(size) <= Class(b) ==> size <= b)
            <==> Servable(size, rows)
  {
    hide SearchClass, Class, Rounded, Pow2;
    if size <= SEARCH_LIMIT {
      forall b: nat | MIN_BLOCK <= b && SearchClass(size) <= Class(b)
        ensures size <= b
      {
        SearchHolds(size, b);
      }
    } else {
      RoundedFits(size);
      WrappedClass(size);
      RowBound(Rounded(size), rows);
      forall b: nat | MIN_BLOCK <= b < Pow2(rows + FL_SHIFT)
        ensures Class(b) < SL_COUNT * rows
      {
        RowBound(b, rows);
      }
    }
  }

  /** A size is below 2^(rows + 6) exactly when its class lies in the first rows. */
  lemma RowBound(b: nat, rows: nat)
    requires b >= MIN_BLOCK
    ensures b < Pow2(rows + FL_SHIFT) <==> Class(b) < SL_COUNT * rows
  {
    hide Class, Floor, Pow2;
    ClassAtLeast(b, SL_COUNT * rows);
    FloorAt(rows, 0);
    ShlPow2(4, rows + 2);
    FourBits();
  }

  lemma FourBits()
    ensures Pow2(4) == SL_COUNT
  {
  }

  /** The sizes a search in a pool of this many rows handles rightly: it finds a large enough block, or refuses. */
  predicate Servable(size: nat, rows: nat)
  {
    MIN_BLOCK <= size && (size <= SEARCH_LIMIT || Beyond(size, rows))
  }

  predicate Beyond(size: nat, rows: nat)
  {
    Searchable(size) && size > SEARCH_LIMIT && SL_COUNT * rows <= SearchClass(size)
  }

  /** Only for two block sizes does the sum fall below a minimal block, where the first-level index turns negative. */
  lemma SumBelow(size: nat)
    requires BlockSize(size) && SEARCH_LIMIT < size < WORD_SIZE
    ensures Rounded(size) == size - SEARCH_LIMIT - 1
    ensures !Searchable(size) <==> size == SEARCH_LIMIT + ALIGN || size == SEARCH_LIMIT + 2 * ALIGN
  {
    hide Pow2, Log2;
    HighPowers();
    Pow2Values();
    var l := Log2(size);
    if l >= 64 {
      Pow2Le(64, l);
    } else if l < 63 {
      Pow2Le(l + 1, 63);
    }
  }

  lemma SearchMono(a: nat, b: nat)
    requires MIN_BLOCK <= a <= b <= SEARCH_LIMIT
    ensures SearchClass(a) <= SearchClass(b)
  {
    hide Floor, SearchClass;
    SearchLeast(b, SearchClass(b));
    SearchLeast(a, SearchClass(b));
  }

  // ---- where classes are exact ----

  predicate BlockSize(b: nat)
  {
    b >= MIN_BLOCK && b % ALIGN == 0
  }

  /** Two block sizes that share a search class. */
  predicate SharedSearch(a: nat, b: nat, i: nat)
  {
    && BlockSize(a) && BlockSize(b) && a <= SEARCH_LIMIT && b <= SEARCH_LIMIT
    && SearchClass(a) == i && SearchClass(b) == i
  }

  lemma SearchRange(a: nat, i: nat)
    requires MIN_BLOCK <= a <= SEARCH_LIMIT && SearchClass(a) == i
    ensures a <= Floor(i)
    ensures i > 0 ==> Floor(i - 1) < a && Floor(i) == Floor(i - 1) + Width(i - 1)
  {
    hide Floor, SearchClass, Width;
    SearchLeast(a, i);
    if i > 0 {
      SearchLeast(a, i - 1);
      FloorStep(i - 1);
    }
  }

  lemma SmallWidths()
    ensures Pow2(2) == 4 && Pow2(3) == 8 && Pow2(4) == 16 && Pow2(5) == 32 && Pow2(6) == 64
  {
  }

  lemma WidthBounds(i: nat)
    ensures i < 64 ==> Width(i) <= ALIGN
    ensures i >= 64 ==> Width(i) >= 2 * ALIGN
  {
    SmallWidths();
    if i < 64 {
      WidthMono(i, 63);
    } else {
      WidthMono(64, i);
    }
  }

  lemma FloorAligned(i: nat)
    requires i >= 64
    ensures Floor(i) % (2 * ALIGN) == 0
  {
    var v, k := SL_COUNT + i % SL_COUNT, i / SL_COUNT + 2;
    assert Shl(v, k) == 4 * Shl(v, k - 2);
    assert Shl(v, k - 2) == 4 * Shl(v, k - 4);
    assert Shl(v, k - 4) == 4 * Shl(v, k - 6);
  }

  lemma FloorZero()
    ensures Floor(0) == MIN_BLOCK
  {
    assert Shl(16, 2) == 64;
  }

  lemma SharedEqual(a: nat, b: nat, i: nat)
    requires i <= 64 && SharedSearch(a, b, i)
    ensures a == b
  {
    hide Floor, SearchClass, Width;
    SearchRange(a, i);
    SearchRange(b, i);
    if i > 0 {
      WidthBounds(i - 1);
    } else {
      FloorZero();
    }
  }

  lemma FloorOfClass(i: nat)
    requires 0 < i < LISTS
    ensures MIN_BLOCK <= Floor(i) <= SEARCH_LIMIT && SearchClass(Floor(i)) == i
  {
    hide SearchClass;
    FloorZero();
    FloorMono(0, i);
    FloorMono(i - 1, i);
    FloorMono(i, 416);
    Pow2Values();
    FloorAt(26, 0);
    ShlPow2(4, 28);
    SmallWidths();
    hide Floor;
    SearchLeast(Floor(i), i);
    SearchLeast(Floor(i), i - 1);
  }

  lemma MultipleSizes(x: nat)
    requires x % (2 * ALIGN) == 0 && x > 0
    ensures BlockSize(x) && BlockSize(x + ALIGN)
  {
  }

  /** Above one KiB, a class takes requests of different block sizes. */
  lemma SharedApart(i: nat) returns (a: nat, b: nat)
    requires 64 < i < LISTS
    ensures SharedSearch(a, b, i) && a + ALIGN <= b
  {
    hide Floor, SearchClass, Width, BlockSize;
    a, b := Floor(i - 1) + ALIGN, Floor(i);
    FloorStep(i - 1);
    WidthBounds(i - 1);
    FloorOfClass(i);
    FloorOfClass(i - 1);
    FloorAligned(i - 1);
    FloorAligned(i);
    MultipleSizes(Floor(i - 1));
    MultipleSizes(Floor(i));
    SearchLeast(a, i);
    SearchLeast(a, i - 1);
  }

  /** Requests that share a temporal block all have its size exactly in the classes up to one KiB. */
  lemma SharingExact(i: nat)
    requires i < LISTS
    ensures (forall a: nat, b: nat :: SharedSearch(a, b, i) ==> a == b) <==> i <= 64
  {
    hide SharedSearch;
    if i <= 64 {
      forall a: nat, b: nat | SharedSearch(a, b, i)
        ensures a == b
      {
        SharedEqual(a, b, i);
      }
    } else {
      var a, b := SharedApart(i);
    }
  }

  lemma RoomyWidths(i: nat)
    ensures i < 80 ==> Width(i) <= 2 * ALIGN
    ensures i >= 80 ==> Width(i) >= 4 * ALIGN
  {
    SmallWidths();
    assert Pow2(7) == 2 * Pow2(6);
    hide Pow2;
    if i < 80 {
      WidthMono(i, 79);
    } else {
      WidthMono(80, i);
    }
  }

  lemma SharedClose(a: nat, b: nat, i: nat)
    requires i <= 80 && SharedSearch(a, b, i)
    ensures b <= a + ALIGN
  {
    hide Floor, SearchClass, Width;
    SearchRange(a, i);
    SearchRange(b, i);
    if i > 0 {
      RoomyWidths(i - 1);
    } else {
      FloorZero();
    }
  }

  /** Requests of n1 and of n2 bytes search the same class. */
  predicate SharedRequest(n1: nat, n2: nat, i: nat)
  {
    SharedSearch(AdjustedBlockSize(n1), AdjustedBlockSize(n2), i)
  }

  lemma RequestOf(b: nat)
    requires BlockSize(b) && b <= SEARCH_LIMIT
    ensures AdjustedBlockSize(b - OVERHEAD) == b
  {
  }

  /** In the classes up to two KiB, and in no others, the payload for one request always has room for the other. */
  lemma SharingRoomy(i: nat)
    requires i < LISTS
    ensures (forall n1: nat, n2: nat :: SharedRequest(n1, n2, i) ==> n2 <= AdjustedBlockSize(n1) - ALIGN) <==> i <= 80
  {
    hide SharedSearch, AdjustedBlockSize;
    if i <= 80 {
      forall n1: nat, n2: nat | SharedRequest(n1, n2, i)
        ensures n2 <= AdjustedBlockSize(n1) - ALIGN
      {
        SharedPositive(n1, n2, i);
        SharedClose(AdjustedBlockSize(n1), AdjustedBlockSize(n2), i);
      }
    } else {
      var n1, n2 := SharingShort(i);
      assert SharedRequest(n1, n2, i);
    }
  }

  /** In every class above two KiB two requests meet of which the second is too large for the first one's block. */
  lemma SharingShort(i: nat) returns (n1: nat, n2: nat)
    requires 80 < i < LISTS
    ensures SharedRequest(n1, n2, i) && AdjustedBlockSize(n1) < n2
  {
    hide SharedSearch;
    var a, b := SharedFar(i);
    n1, n2 := a - OVERHEAD, b - OVERHEAD;
    RequestOf(a);
    RequestOf(b);
  }

  lemma SharedPositive(n1: nat, n2: nat, i: nat)
    requires SharedRequest(n1, n2, i)
    ensures AdjustedBlockSize(n1) > 0 && AdjustedBlockSize(n2) > 0
  {
  }

  lemma SharedFar(i: nat) returns (a: nat, b: nat)
    requires 80 < i < LISTS
    ensures SharedSearch(a, b, i) && a + 3 * ALIGN <= b && BlockSize(a) && BlockSize(b) && b <= SEARCH_LIMIT
  {
    hide Floor, SearchClass, Width, BlockSize;
    a, b := Floor(i - 1) + ALIGN, Floor(i);
    FloorStep(i - 1);
    RoomyWidths(i - 1);
    FloorOfClass(i);
    FloorOfClass(i - 1);
    FloorAligned(i - 1);
    FloorAligned(i);
    MultipleSizes(Floor(i - 1));
    MultipleSizes(Floor(i));
    SearchLeast(a, i);
    SearchLeast(a, i - 1);
  }

  /** A power of two is the floor of its class. */
  lemma PowerFloor(n: nat)
    requires n >= MIN_BLOCK && n == Pow2(Log2(n))
    ensures Floor(Class(n)) == n && Width(Class(n)) == n / SL_COUNT
  {
    hide Floor, Class, Log2, Pow2, Shl, Lead;
    ClassParts(n);
    var l := Log2(n);
    LeadRange(n, l);
    ShlSixteen(l - SL_LOG2);
    StepOfSize(n);
    ClassBounds(n);
    FloorAt(l - FL_SHIFT, Lead(n) - SL_COUNT);
    ShlMono(SL_COUNT, Lead(n), l - SL_LOG2);
  }

  /** What an exact request of n bytes may be given: a block less than a sixteenth larger. */
  lemma ExactClass(n: nat, block: nat)
    requires n >= MIN_BLOCK && n == Pow2(Log2(n)) && block >= MIN_BLOCK
    ensures Class(block) == Class(n) <==> n <= block < n + n / SL_COUNT
  {
    hide Floor, Class, Width, Log2, Pow2;
    PowerFloor(n);
    FloorStep(Class(n));
    ClassBounds(block);
    if n <= block < n + n / SL_COUNT {
      ClassIs(block, Class(n));
    }
  }

  /** Exact requests are exact up to 512 bytes, and at no larger size. */
  lemma ExactOnly(n: nat)
    requires n >= MIN_BLOCK && n == Pow2(Log2(n))
    ensures (forall b: nat :: BlockSize(b) && Class(b) == Class(n) ==> b == n) <==> n <= 512
  {
    hide Class, Log2, Pow2;
    SizeLog(n);
    PowerMultiple(Log2(n));
    if n <= 512 {
      forall b: nat | BlockSize(b) && Class(b) == Class(n)
        ensures b == n
      {
        ExactClass(n, b);
      }
    } else {
      LargePower(Log2(n));
      ExactClass(n, n + ALIGN);
      MultipleNext(n);
    }
  }

  lemma MultipleNext(n: nat)
    requires n >= MIN_BLOCK && n % ALIGN == 0
    ensures BlockSize(n + ALIGN)
  {
  }

  lemma LargePower(l: nat)
    requires Pow2(l) > 512
    ensures Pow2(l) >= 1024
  {
    hide Pow2;
    PowersAbout();
    if l <= 9 {
      Pow2Le(l, 9);
    } else {
      Pow2Le(10, l);
    }
  }

  lemma PowersAbout()
    ensures Pow2(9) == 512 && Pow2(10) == 1024
  {
    SmallWidths();
    assert Pow2(8) == 4 * Pow2(6);
  }

  lemma {:induction false} PowerMultiple(l: nat)
    requires l >= 5
    ensures Pow2(l) % ALIGN == 0
  {
    if l == 5 {
      SmallWidths();
    } else {
      PowerMultiple(l - 1);
    }
  }

  // ---- request sizes ----

  /** The block size for a request of n bytes; 0 when the sum would leave the 64-bit range. */
  function AdjustedBlockSize(n: nat): (r: nat)
    ensures r == 0 <==> n > WORD_SIZE - 1 - OVERHEAD - (ALIGN - 1)
    ensures r > 0 ==> BlockSize(r) && n + OVERHEAD <= r < n + OVERHEAD + ALIGN
  {
    if n > WORD_SIZE - 1 - OVERHEAD - (ALIGN - 1) then 0
    else
      var needed := (n + OVERHEAD + (ALIGN - 1)) / ALIGN * ALIGN;
      if needed < MIN_BLOCK then MIN_BLOCK else needed
  }

  // ---- carving a pool out of a memory range ----

  datatype Pool = NoPool | Pool(base: nat, total: nat)

  const POOL_BYTES_MAX: nat := 0xFFFF_FFFF

  /** Aligned room for two sentinels and the blocks between them. */
  function PoolOf(ptr: nat, len: nat): (p: Pool)
    ensures p.Pool? ==>
              && ptr <= p.base < ptr + ALIGN && p.base % ALIGN == 0
              && p.total % ALIGN == 0 && MIN_BLOCK <= p.total <= POOL_BYTES_MAX
              && p.base + p.total + 2 * ALIGN <= ptr + len < p.base + p.total + 3 * ALIGN
    ensures len >= 3 * ALIGN + MIN_BLOCK && len <= POOL_BYTES_MAX ==> p.Pool?
  {
    var base := (ptr + ALIGN - 1) / ALIGN * ALIGN;
    var adjust := base - ptr;
    if len <= adjust then NoPool
    else
      var usable := (len - adjust) / ALIGN * ALIGN;
      if usable < 2 * ALIGN + MIN_BLOCK then NoPool
      else if usable - 2 * ALIGN > POOL_BYTES_MAX then NoPool
      else Pool(base, usable - 2 * ALIGN)
  }
}
