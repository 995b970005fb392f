/**
 Growing the buddy tiers: how a sheet's memory is cut into tags and data, and how large a sheet the
 huge and bulk requests map when every sheet they have is full.
 */
module Expansion {
  import opened Powers
  import opened Words
  import opened Tiling
  import opened BuddyLayout
  import opened BuddyBook

  const PAGE: nat := 4096
  /** Sheets carved from the reservation are whole granules of 2 MiB. */
  const GRANULE: nat := 0x20_0000
  const HUGE_LOG2: nat := 18
  const CLASS_HUGE: nat := 0x4_0000
  /** From here on requests are bulk. */
  const CLASS_GB: nat := 0x2000_0000
  const GIB: nat := 0x4000_0000
  const LINK_BYTES: nat := 8

  // ---- cutting a sheet's memory into tags and data ----

  /** Where the tag bytes and the data of a book lie. */
  datatype Cut = NoRoom | Cut(tags: nat, base: nat, total: nat)

  /** v rounded down to a multiple of 2^k. */
  function Down(v: nat, k: nat): (r: nat)
    ensures r <= v < r + Pow2(k) && Aligned(r, k)
  {
    ShrBounds(v, k);
    ShrShl(Shr(v, k), k);
    ShlAdd(Shr(v, k), 1, k);
    ShlPow2(0, k);
    Shl(Shr(v, k), k)
  }

  function Up(v: nat, k: nat): (r: nat)
    ensures v <= r < v + Pow2(k) && Aligned(r, k)
  {
    Down(v + Pow2(k) - 1, k)
  }

  /** One tag byte for each min-block that could fit beside its own tag, rounded up. */
  function TagGuess(usable: nat, min: nat): nat
    requires min > 0
  {
    (usable + min) / (min + 1)
  }

  function InitMemory(ptr: nat, len: nat, k: nat): Cut
  {
    var aligned := (ptr + (LINK_BYTES - 1)) / LINK_BYTES * LINK_BYTES;
    var adjust := aligned - ptr;
    if len <= adjust then NoRoom
    else
      var usable := len - adjust;
      var tagArea := Up(TagGuess(usable, Pow2(k)), k);
      if tagArea >= usable then NoRoom
      else
        var data := Down(usable - tagArea, k);
        if data < Pow2(k) then NoRoom
        else Cut(aligned, aligned + tagArea, data)
  }

  lemma QuotientBounds(a: nat, b: nat)
    requires b > 0
    ensures a / b * b <= a < a / b * b + b
  {
  }

  lemma {:induction false} ShlTimes(v: nat, k: nat)
    ensures Shl(v, k) == v * Pow2(k)
  {
    if k > 0 {
      ShlTimes(v, k - 1);
      assert v * Pow2(k) == 2 * (v * Pow2(k - 1));
    }
  }

  lemma {:induction false} ScaledUp(x: nat, y: nat, m: nat)
    requires x <= y
    ensures x * m <= y * m
    decreases y
  {
    if x < y {
      ScaledUp(x, y - 1, m);
      assert y * m == (y - 1) * m + m;
    }
  }

  lemma Scaled(x: nat, y: nat, m: nat)
    requires m > 0
    ensures x * m < y * m ==> x < y
  {
    if y <= x {
      ScaledUp(y, x, m);
    }
  }

  /** Rounding the number of tags up leaves room for no more blocks than there are tags. */
  lemma TagsCover(usable: nat, m: nat, q: nat, units: nat)
    requires m > 0 && usable + m < q * (m + 1) + (m + 1) && units * m + q <= usable
    ensures units <= q
  {
    assert q * (m + 1) == q * m + q;
    Scaled(q, units, m);
  }

  /** The guess leaves no more min-blocks than it has tags. */
  lemma GuessSuffices(usable: nat, k: nat, tagArea: nat, units: nat)
    requires TagGuess(usable, Pow2(k)) <= tagArea && Shl(units, k) + tagArea <= usable
    ensures units <= TagGuess(usable, Pow2(k))
  {
    hide Pow2, Shl;
    QuotientBounds(usable + Pow2(k), Pow2(k) + 1);
    ShlTimes(units, k);
    TagsCover(usable, Pow2(k), TagGuess(usable, Pow2(k)), units);
  }

  /**
     Tags and data lie side by side inside the memory, word-aligned and min-aligned, with a tag byte
     for every min-block. The memory is too small only if not even one block fits beside its tags.
     */
  lemma CutFits(ptr: nat, len: nat, k: nat)
    ensures var c := InitMemory(ptr, len, k);
            && (c.Cut? ==>
                  && ptr <= c.tags < ptr + LINK_BYTES && c.tags % LINK_BYTES == 0
                  && Shr(c.total, k) <= c.base - c.tags
                  && c.base + c.total <= ptr + len
                  && Aligned(c.base - c.tags, k) && Aligned(c.total, k) && Pow2(k) <= c.total)
            && (c.NoRoom? ==> len < LINK_BYTES + Up(TagGuess(len, Pow2(k)), k) + Pow2(k))
  {
    hide Pow2, Shl, Shr, Aligned, Down, TagGuess;
    var aligned := (ptr + (LINK_BYTES - 1)) / LINK_BYTES * LINK_BYTES;
    var adjust := aligned - ptr;
    assert 0 <= adjust < LINK_BYTES;
    if len > adjust {
      var usable := len - adjust;
      var guess := TagGuess(usable, Pow2(k));
      var tagArea := Up(guess, k);
      var c := InitMemory(ptr, len, k);
      if c.Cut? {
        AlignedShr(c.total, k);
        GuessSuffices(usable, k, tagArea, Shr(c.total, k));
      } else {
        GuessMono(usable, len, Pow2(k));
        UpMono(guess, TagGuess(len, Pow2(k)), k);
        DownToZero(usable - tagArea, k);
      }
    }
  }

  lemma GuessMono(a: nat, b: nat, m: nat)
    requires a <= b && m > 0
    ensures TagGuess(a, m) <= TagGuess(b, m)
  {
    QuotientBounds(a + m, m + 1);
    QuotientBounds(b + m, m + 1);
    Scaled(TagGuess(a, m), TagGuess(b, m) + 1, m + 1);
  }

  /** Rounding down to less than one step is rounding down to nothing. */
  lemma DownToZero(v: int, k: nat)
    ensures v >= 0 && Down(v, k) < Pow2(k) ==> v < Pow2(k)
  {
    hide Pow2, Shl, Shr, Aligned;
    if v > 0 {
      var r := Down(v, k);
      ZeroAligned(k);
      if r > 0 {
        AlignedGap(0, r, k);
      }
    }
  }

  lemma UpMono(a: nat, b: nat, k: nat)
    requires a <= b
    ensures Up(a, k) <= Up(b, k)
  {
    if Up(b, k) < Up(a, k) {
      AlignedGap(Up(b, k), Up(a, k), k);
    }
  }

  // ---- how large a sheet to map ----

  function Max(a: nat, b: nat): nat
  {
    if a < b then b else a
  }

  function PageUp(n: nat): (r: nat)
    ensures n <= r && r % PAGE == 0
  {
    (n + PAGE - 1) / PAGE * PAGE
  }

  function GranuleUp(n: nat): (r: nat)
    ensures n <= r && r % GRANULE == 0
  {
    (n + GRANULE - 1) / GRANULE * GRANULE
  }

  /** The floor under every growth curve. */
  function LeastSheet(alloc: nat): nat
  {
    2 * alloc + CLASS_HUGE
  }

  /** The size asked for, whatever the growth curve says and whatever mean the predictor has seen. */
  function HugeSize(alloc: nat, curve: nat, mean: nat): nat
  {
    PageUp(Max(mean, Max(curve, LeastSheet(alloc))))
  }

  function BulkSize(alloc: nat, curve: nat): nat
  {
    Max(curve, LeastSheet(alloc))
  }

  /** The two branches of the ladder above the large tier. */
  function Asked(alloc: nat, curve: nat, mean: nat): (r: nat)
    ensures LeastSheet(alloc) <= r
  {
    if alloc < CLASS_GB then HugeSize(alloc, curve, mean) else BulkSize(alloc, curve)
  }

  /** The book's share of the chunk: a guard page, where there is one, is its tail. */
  function BookLen(asked: nat, guard: nat): (r: nat)
    ensures asked <= r && (r + guard) % GRANULE == 0
  {
    GranuleUp(asked + guard) - guard
  }

  /** The order an allocation of alloc bytes needs in the huge tier. */
  function Needed(alloc: nat): nat
  {
    OrderForSize(alloc + HDR_OFFSET, HUGE_LOG2)
  }

  lemma HugeUnits(v: nat)
    ensures Pow2(HUGE_LOG2) == CLASS_HUGE && Shl(v, HUGE_LOG2) == CLASS_HUGE * v
  {
    Pow2Values();
    assert Pow2(HUGE_LOG2) == CLASS_HUGE;
    ShlTimes(v, HUGE_LOG2);
  }

  lemma NeededBound(alloc: nat)
    requires alloc >= CLASS_HUGE
    ensures OrderSize(Needed(alloc), HUGE_LOG2) == CLASS_HUGE * Pow2(Needed(alloc))
    ensures alloc + HDR_OFFSET <= OrderSize(Needed(alloc), HUGE_LOG2) < 2 * (alloc + HDR_OFFSET)
  {
    hide Shl, OrderForSize;
    var o := Needed(alloc);
    HugeUnits(Pow2(o));
    if o > 0 {
      HugeUnits(Pow2(o - 1));
    }
  }

  /** Up to 64 GiB the tags of a huge sheet take exactly one min-block. */
  lemma OneTagBlock(usable: nat)
    requires 0 < usable <= 64 * GIB
    ensures Up(TagGuess(usable, CLASS_HUGE), HUGE_LOG2) == CLASS_HUGE
  {
    hide Up, Aligned;
    var guess := TagGuess(usable, CLASS_HUGE);
    assert 0 < guess <= CLASS_HUGE;
    HugeUnits(1);
    Pow2Aligned(HUGE_LOG2, HUGE_LOG2);
    var r := Up(guess, HUGE_LOG2);
    if r < CLASS_HUGE {
      ZeroAligned(HUGE_LOG2);
      AlignedGap(0, r, HUGE_LOG2);
    } else if CLASS_HUGE < r {
      AlignedGap(CLASS_HUGE, r, HUGE_LOG2);
    }
  }

  /** A huge sheet of len bytes keeps the largest multiple of the min-block left after its tag block. */
  lemma HugeCut(ptr: nat, len: nat)
    requires ptr % LINK_BYTES == 0 && 2 * CLASS_HUGE <= len <= 64 * GIB
    ensures InitMemory(ptr, len, HUGE_LOG2) ==
            Cut(ptr, ptr + CLASS_HUGE, (len - CLASS_HUGE) / CLASS_HUGE * CLASS_HUGE)
  {
    hide Up, Aligned, Shr, Shl;
    OneTagBlock(len);
    HugeUnits(1);
    HugeDown(len - CLASS_HUGE);
  }

  lemma HugeDown(v: nat)
    ensures Down(v, HUGE_LOG2) == v / CLASS_HUGE * CLASS_HUGE
  {
    hide Shl, Shr, Pow2;
    HugeUnits(Shr(v, HUGE_LOG2));
    HugeUnits(1);
  }

  /** The data of a huge sheet reaches the block an allocation needs, or not. */
  ghost predicate Serves(ptr: nat, len: nat, alloc: nat)
  {
    var c := InitMemory(ptr, len, HUGE_LOG2);
    c.Cut? && OrderSize(Needed(alloc), HUGE_LOG2) <= c.total
  }

  /**
   One expansion suffices: a sheet carved for a huge or bulk request has a block of the order the
   request needs, for every growth curve, every predicted mean, with or without a guard page.
   */
  lemma OneExpansion(alloc: nat, asked: nat, guard: nat, ptr: nat)
    requires CLASS_HUGE < alloc && LeastSheet(alloc) <= asked
    requires guard == 0 || guard == PAGE
    requires BookLen(asked, guard) <= 64 * GIB && ptr % LINK_BYTES == 0
    ensures Serves(ptr, BookLen(asked, guard), alloc)
  {
    hide OrderForSize, OrderSize, InitMemory;
    var len := BookLen(asked, guard);
    HugeCut(ptr, len);
    NeededBound(alloc);
    CarvedReaches(alloc, len, guard, Pow2(Needed(alloc)));
  }

  /** The arithmetic of the safeguard, in min-blocks of the huge tier. */
  lemma CarvedReaches(alloc: nat, len: nat, guard: nat, p: nat)
    requires guard == 0 || guard == PAGE
    requires LeastSheet(alloc) <= len && (len + guard) % GRANULE == 0
    requires CLASS_HUGE * p < 2 * (alloc + HDR_OFFSET)
    ensures CLASS_HUGE * p <= (len - CLASS_HUGE) / CLASS_HUGE * CLASS_HUGE
  {
    var j := (len + guard) / GRANULE;
    var x := len - CLASS_HUGE;
    assert len + guard == CLASS_HUGE * (8 * j);
    if guard == PAGE {
      assert CLASS_HUGE * (p + 1 - 8 * j) < 0;
    } else {
      assert CLASS_HUGE * (p + 1 - 8 * j) < CLASS_HUGE;
    }
    assert CLASS_HUGE * p <= x;
    WholeBlocks(p, x);
  }

  lemma WholeBlocks(p: nat, x: nat)
    ensures CLASS_HUGE * p <= x <==> CLASS_HUGE * p <= x / CLASS_HUGE * CLASS_HUGE
  {
  }

  /**
   A sheet of any length, rounded or not, serves a request exactly when it holds one min-block for the
   tags and the block the request needs.
   */
  lemma ServesIff(alloc: nat, len: nat, ptr: nat)
    requires CLASS_HUGE <= alloc && 2 * CLASS_HUGE <= len <= 64 * GIB && ptr % LINK_BYTES == 0
    ensures Serves(ptr, len, alloc) <==> OrderSize(Needed(alloc), HUGE_LOG2) + CLASS_HUGE <= len
  {
    hide OrderForSize, OrderSize, InitMemory;
    HugeCut(ptr, len);
    NeededBound(alloc);
    WholeBlocks(Pow2(Needed(alloc)), len - CLASS_HUGE);
  }

  /**
   Outside the reservation a bulk chunk is not rounded, and the floor can fall short: whatever the
   growth curve, it serves the requests whose block fits what the curve or twice the request allows.
   */
  lemma UnroundedServesIff(alloc: nat, curve: nat, ptr: nat)
    requires CLASS_HUGE < alloc && BulkSize(alloc, curve) <= 64 * GIB && ptr % LINK_BYTES == 0
    ensures Serves(ptr, BulkSize(alloc, curve), alloc) <==>
            OrderSize(Needed(alloc), HUGE_LOG2) <= 2 * alloc || OrderSize(Needed(alloc), HUGE_LOG2) + CLASS_HUGE <= curve
  {
    hide OrderForSize, OrderSize, InitMemory, Serves;
    ServesIff(alloc, BulkSize(alloc, curve), ptr);
  }

  /** Sixteen bytes below 1 GiB the unrounded floor is one min-block short. */
  lemma UnroundedFallsShort(ptr: nat)
    requires ptr % LINK_BYTES == 0
    ensures !Serves(ptr, BulkSize(GIB - 16, 0), GIB - 16)
  {
    hide InitMemory, OrderForSize, OrderSize;
    var alloc := GIB - 16;
    UnroundedServesIff(alloc, 0, ptr);
    NeededBound(alloc);
    var o := Needed(alloc);
    TwelveShort();
    if o <= 12 {
      Pow2Le(o, 12);
    } else {
      Pow2Le(13, o);
    }
  }

  lemma TwelveShort()
    ensures Pow2(12) == 4096 && Pow2(13) == 8192
  {
  }

  /** The retry in push: the first allocation from the fresh sheet succeeds. */
  method Retry(alloc: nat, curve: nat, mean: nat, guard: nat, ptr: nat) returns (b: Book, r: Chunk)
    requires CLASS_HUGE < alloc <= 16 * GIB && (guard == 0 || guard == PAGE)
    requires ptr > 0 && ptr % LINK_BYTES == 0
    requires BookLen(Asked(alloc, curve, mean), guard) <= 64 * GIB
    ensures fresh(b) && b.Valid() && r.Chunk? && alloc <= r.len
  {
    hide InitMemory, OrderForSize, OrderSize, Asked, BookLen, Aligned, Pow2, Serves, Book.Valid;
    var len := BookLen(Asked(alloc, curve, mean), guard);
    OneExpansion(alloc, Asked(alloc, curve, mean), guard, ptr);
    ServesTop(ptr, len, alloc);
    CutFits(ptr, len, HUGE_LOG2);
    var c := InitMemory(ptr, len, HUGE_LOG2);
    b, r := FirstOf(c.base, c.total, alloc);
  }

  /** The first allocation from a new book that reaches the needed order. */
  method FirstOf(base: nat, total: nat, alloc: nat) returns (b: Book, r: Chunk)
    requires base > 0 && Aligned(total, HUGE_LOG2) && 0 < total < WORD_SIZE && alloc <= 16 * GIB
    requires OrderSize(Needed(alloc), HUGE_LOG2) <= total
    ensures fresh(b) && b.Valid() && r.Chunk? && alloc <= r.len
  {
    hide OrderForSize, OrderSize, Aligned, Pow2, HasRoom, Book.Valid, Book.Granted;
    b := new Book(base, total, HUGE_LOG2);
    OrderReached(Needed(alloc), b.top, total);
    RoomInFresh(Needed(alloc), b.top);
    r := b.Allocate(alloc);
  }

  lemma ServesTop(ptr: nat, len: nat, alloc: nat)
    requires Serves(ptr, len, alloc)
    ensures InitMemory(ptr, len, HUGE_LOG2).Cut?
    ensures OrderSize(Needed(alloc), HUGE_LOG2) <= InitMemory(ptr, len, HUGE_LOG2).total
  {
  }

  lemma OrderReached(o: nat, top: nat, total: nat)
    requires OrderSize(o, HUGE_LOG2) <= total < OrderSize(top + 1, HUGE_LOG2)
    ensures o <= top
  {
    hide Shl, Pow2;
    if top < o {
      Pow2Le(top + 1, o);
      ShlMono(Pow2(o), Pow2(top + 1), HUGE_LOG2);
    }
  }

  lemma RoomInFresh(o: nat, top: nat)
    requires o <= top
    ensures HasRoom(map[0 := FreeSeg(top)], o, top)
  {
    hide Pow2;
    ZeroAligned(o);
    Pow2Le(o, top);
    assert Gap(map[0 := FreeSeg(top)], 0, o);
  }
}
