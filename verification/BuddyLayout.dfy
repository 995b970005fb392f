/**
 What the buddy book's split and merge loops do to the pool, and why coalescing is canonical.
 Offsets and sizes count min-blocks.
 */
module BuddyLayout {
  import opened Powers
  import opened Tiling

  /** off ^ (1 << o): the block that shares a parent with `off`. */
  function BuddyOf(off: nat, o: nat): int
  {
    if BitAt(off, o) then off - Pow2(o) else off + Pow2(o)
  }

  /** Every block is a power of two long and aligned to its own length. */
  ghost predicate Dyadic(m: Layout, top: nat)
  {
    forall s :: s in m ==> DyadicBlock(m[s], s, top)
  }

  ghost predicate DyadicBlock(b: Seg, s: nat, top: nat)
  {
    b.size > 0 && b.size == Pow2(Log2(b.size)) && Log2(b.size) <= top && Aligned(s, Log2(b.size))
  }

  /** No two buddies below the top order are both free. */
  ghost predicate Canonical(m: Layout, top: nat)
  {
    forall s: nat, o: nat {:trigger Lonely(m, s, o)} :: o < top && s in m ==> Lonely(m, s, o)
  }

  ghost predicate Lonely(m: Layout, s: nat, o: nat)
  {
    FreeAt(m, s, o) ==> !FreeAt(m, BuddyOf(s, o), o)
  }

  function FreeSeg(o: nat): Seg
  {
    Seg(Pow2(o), Free)
  }

  predicate FreeAt(m: Layout, s: int, o: nat)
  {
    s >= 0 && s in m && m[s] == FreeSeg(o)
  }

  ghost predicate Sound(m: Layout, top: nat)
  {
    Tiles(m, 0, Pow2(top)) && Dyadic(m, top) && Canonical(m, top)
  }

  lemma DyadicSeg(o: nat, s: nat, k: Kind, top: nat)
    requires o <= top && Aligned(s, o)
    ensures Log2(Pow2(o)) == o
    ensures DyadicBlock(Seg(Pow2(o), k), s, top)
  {
    Log2Unique(Pow2(o), o);
  }

  lemma BuddySymmetric(s: nat, o: nat)
    requires Aligned(s, o)
    ensures BuddyOf(s, o) >= 0
    ensures Aligned(BuddyOf(s, o), o) && BuddyOf(BuddyOf(s, o), o) == s
    ensures Aligned(if BuddyOf(s, o) < s then BuddyOf(s, o) else s, o + 1)
  {
    BitStep(s, o);
    if BitAt(s, o) {
      AlignedWeaken(s - Pow2(o), o, o + 1);
    }
  }

  /** Below the top order a block's buddy lies inside the pool. */
  lemma BuddyInPool(s: nat, o: nat, top: nat)
    requires Aligned(s, o) && o < top && s + Pow2(o) <= Pow2(top)
    ensures 0 <= BuddyOf(s, o) && BuddyOf(s, o) + Pow2(o) <= Pow2(top)
  {
    BuddySymmetric(s, o);
    var p: nat := if BuddyOf(s, o) < s then BuddyOf(s, o) else s;
    ZeroAligned(top);
    Pow2Aligned(o + 1, top);
    if p < Pow2(top) {
      AlignedGap(p, Pow2(top), o + 1);
    }
  }

  // ---- splitting ----

  /** `__take_and_split`: halve the block at s until it has order `target`, freeing each right half. */
  function SplitDown(m: Layout, s: nat, from: nat, target: nat): Layout
    requires target <= from && s in m && m[s].size == Pow2(from)
    decreases from
  {
    if from == target then m
    else SplitDown(SplitAt(m, s, Pow2(from - 1)), s, from - 1, target)
  }

  lemma FreeAligned(m: Layout, top: nat, t: nat, o: nat)
    requires Dyadic(m, top) && FreeAt(m, t, o)
    ensures Aligned(t, o)
  {
    assert DyadicBlock(m[t], t, top);
    Log2Unique(Pow2(o), o);
  }

  lemma SplitLonely(m: Layout, s: nat, h: nat, t: nat, o: nat)
    requires s in m && m[s].size == Pow2(h + 1) && !m[s].kind.Free? && s + Pow2(h) !in m
    requires Aligned(s, h + 1)
    requires t in SplitAt(m, s, Pow2(h))
    requires t in m ==> Lonely(m, t, o)
    requires FreeAt(SplitAt(m, s, Pow2(h)), t, o) ==> Aligned(t, o)
    ensures Lonely(SplitAt(m, s, Pow2(h)), t, o)
  {
    var m' := SplitAt(m, s, Pow2(h));
    var r := s + Pow2(h);
    if FreeAt(m', t, o) && FreeAt(m', BuddyOf(t, o), o) {
      AlignedWeaken(s, h, h + 1);
      BitStep(s, h);
      if t == r {
        Pow2Injective(o, h);
      } else if BuddyOf(t, o) == r {
        Pow2Injective(o, h);
        BuddySymmetric(t, o);
      }
    }
  }

  /** The two halves of a dyadic block are dyadic. */
  lemma HalvesDyadic(b: Seg, s: nat, h: nat, top: nat)
    requires DyadicBlock(b, s, top) && h < top && b.size == Pow2(h + 1)
    ensures Aligned(s, h + 1) && b.size - Pow2(h) == Pow2(h)
    ensures DyadicBlock(Seg(Pow2(h), b.kind), s, top) && DyadicBlock(Seg(Pow2(h), Free), s + Pow2(h), top)
  {
    Log2Unique(Pow2(h + 1), h + 1);
    AlignedWeaken(s, h, h + 1);
    BitStep(s, h);
    DyadicSeg(h, s, b.kind, top);
    DyadicSeg(h, s + Pow2(h), Free, top);
  }

  lemma SplitDyadic(m: Layout, s: nat, h: nat, top: nat)
    requires Dyadic(m, top) && h < top && s in m && m[s].size == Pow2(h + 1)
    ensures Aligned(s, h + 1) && Pow2(h) < m[s].size && Dyadic(SplitAt(m, s, Pow2(h)), top)
  {
    hide DyadicBlock, Aligned, Pow2, Log2, Dyadic;
    BlockDyadic(m, s, top);
    HalvesDyadic(m[s], s, h, top);
    PutDyadic(m, s, Seg(Pow2(h), m[s].kind), top);
    PutDyadic(m[s := Seg(Pow2(h), m[s].kind)], s + Pow2(h), Seg(Pow2(h), Free), top);
  }

  lemma BlockDyadic(m: Layout, s: nat, top: nat)
    requires Dyadic(m, top) && s in m
    ensures DyadicBlock(m[s], s, top)
  {
  }

  lemma PutDyadic(m: Layout, s: nat, b: Seg, top: nat)
    requires Dyadic(m, top) && DyadicBlock(b, s, top)
    ensures Dyadic(m[s := b], top)
  {
  }

  lemma SplitOnce(m: Layout, s: nat, h: nat, top: nat)
    requires Sound(m, top) && h < top
    requires s in m && m[s].size == Pow2(h + 1) && !m[s].kind.Free?
    ensures s + Pow2(h) !in m
    ensures Sound(SplitAt(m, s, Pow2(h)), top)
  {
    var m' := SplitAt(m, s, Pow2(h));
    assert m[s].size == 2 * Pow2(h);
    hide Pow2, Aligned, FreeAt;
    SplitTiles(m, s, Pow2(h), 0, Pow2(top));
    SplitDyadic(m, s, h, top);
    forall t: nat, o: nat | o < top && t in m'
      ensures Lonely(m', t, o)
    {
      SplitAligned(m', top, t, o);
      SplitLonely(m, s, h, t, o);
    }
  }

  lemma SplitAligned(m: Layout, top: nat, t: nat, o: nat)
    requires Dyadic(m, top)
    ensures FreeAt(m, t, o) ==> Aligned(t, o)
  {
    if FreeAt(m, t, o) {
      FreeAligned(m, top, t, o);
    }
  }

  /** The split loop: the block at s shrinks to order `target` and the layout stays sound. */
  lemma {:induction false} SplitDownSound(m: Layout, s: nat, from: nat, target: nat, top: nat)
    requires Sound(m, top) && target <= from <= top
    requires s in m && m[s].size == Pow2(from) && !m[s].kind.Free?
    ensures Sound(SplitDown(m, s, from, target), top)
    ensures s in SplitDown(m, s, from, target)
    ensures SplitDown(m, s, from, target)[s] == Seg(Pow2(target), m[s].kind)
    decreases from
  {
    hide Sound;
    if from > target {
      SplitOnce(m, s, from - 1, top);
      SplitDownSound(SplitAt(m, s, Pow2(from - 1)), s, from - 1, target, top);
    }
  }

  // ---- coalescing ----

  /** One turn of the merge loop: the block at s and its free buddy become one block, still in use. */
  function Join(m: Layout, s: nat, b: nat): Layout
    requires s in m && b in m && (End(m, s) == b || End(m, b) == s)
  {
    Fuse(m, if b < s then b else s, m[s].kind)
  }

  /** `__merge_and_free`: merge upward while the buddy is free, then mark the result free. */
  function MergeUp(m: Layout, s: nat, o: nat, top: nat): Layout
    requires s in m && m[s].size == Pow2(o)
    decreases top - o
  {
    var b := BuddyOf(s, o);
    if o < top && FreeAt(m, b, o) then
      MergeUp(Join(m, s, b), if b < s then b else s, o + 1, top)
    else
      Retag(m, s, Free)
  }

  lemma JoinLonely(m: Layout, s: nat, o: nat, t: nat, p: nat)
    requires s in m && m[s].size == Pow2(o) && !m[s].kind.Free? && FreeAt(m, BuddyOf(s, o), o)
    requires t in Join(m, s, BuddyOf(s, o))
    requires t in m ==> Lonely(m, t, p)
    ensures Lonely(Join(m, s, BuddyOf(s, o)), t, p)
  {
  }

  lemma ParentDyadic(b: Seg, s: nat, o: nat, k: Kind, top: nat)
    requires DyadicBlock(b, s, top) && b.size == Pow2(o) && o < top
    ensures BuddyOf(s, o) >= 0
    ensures DyadicBlock(Seg(Pow2(o + 1), k), if BuddyOf(s, o) < s then BuddyOf(s, o) else s, top)
  {
    Log2Unique(Pow2(o), o);
    BuddySymmetric(s, o);
    DyadicSeg(o + 1, if BuddyOf(s, o) < s then BuddyOf(s, o) else s, k, top);
  }

  lemma JoinDyadic(m: Layout, s: nat, o: nat, top: nat)
    requires Dyadic(m, top) && o < top
    requires s in m && m[s].size == Pow2(o) && FreeAt(m, BuddyOf(s, o), o)
    ensures Dyadic(Join(m, s, BuddyOf(s, o)), top)
  {
    var b := BuddyOf(s, o);
    var p: nat := if b < s then b else s;
    var m' := Join(m, s, b);
    assert m'[p] == Seg(Pow2(o + 1), m[s].kind);
    assert DyadicBlock(m[s], s, top);
    ParentDyadic(m[s], s, o, m[s].kind, top);
    forall t | t in m'
      ensures DyadicBlock(m'[t], t, top)
    {
      if t != p {
        assert m'[t] == m[t];
      }
    }
  }

  lemma JoinSound(m: Layout, s: nat, o: nat, top: nat)
    requires Sound(m, top) && o < top
    requires s in m && m[s].size == Pow2(o) && !m[s].kind.Free? && FreeAt(m, BuddyOf(s, o), o)
    ensures var p := if BuddyOf(s, o) < s then BuddyOf(s, o) else s;
            var m' := Join(m, s, BuddyOf(s, o));
            Sound(m', top) && p in m' && m'[p] == Seg(Pow2(o + 1), m[s].kind)
  {
    var b := BuddyOf(s, o);
    var m' := Join(m, s, b);
    FuseTiles(m, if b < s then b else s, m[s].kind, 0, Pow2(top));
    JoinDyadic(m, s, o, top);
    forall t: nat, q: nat | q < top && t in m'
      ensures Lonely(m', t, q)
    {
      JoinLonely(m, s, o, t, q);
    }
  }

  lemma {:induction false} MergeUpSound(m: Layout, s: nat, o: nat, top: nat)
    requires Sound(m, top) && o <= top
    requires s in m && m[s].size == Pow2(o) && !m[s].kind.Free?
    ensures Sound(MergeUp(m, s, o, top), top)
    decreases top - o
  {
    var b := BuddyOf(s, o);
    if o < top && FreeAt(m, b, o) {
      JoinSound(m, s, o, top);
      MergeUpSound(Join(m, s, b), if b < s then b else s, o + 1, top);
    } else {
      RetagSound(m, s, o, top);
    }
  }

  lemma RetagLonely(m: Layout, s: nat, o: nat, t: nat, q: nat)
    requires s in m && m[s].size == Pow2(o) && t in m
    requires !FreeAt(m, BuddyOf(s, o), o) || q != o
    requires Lonely(m, t, q)
    requires FreeAt(m, t, q) ==> Aligned(t, q)
    ensures Lonely(Retag(m, s, Free), t, q)
  {
    var m' := Retag(m, s, Free);
    if FreeAt(m', t, q) && FreeAt(m', BuddyOf(t, q), q) {
      if t == s {
        Pow2Injective(q, o);
      } else {
        Pow2Injective(q, o);
        BuddySymmetric(t, q);
      }
    }
  }

  lemma RetagSound(m: Layout, s: nat, o: nat, top: nat)
    requires Sound(m, top) && o <= top
    requires s in m && m[s].size == Pow2(o)
    requires o < top ==> !FreeAt(m, BuddyOf(s, o), o)
    ensures Sound(Retag(m, s, Free), top)
  {
    var m' := Retag(m, s, Free);
    RetagTiles(m, s, Free, 0, Pow2(top));
    assert DyadicBlock(m[s], s, top);
    assert Dyadic(m', top);
    forall t: nat, q: nat | q < top && t in m'
      ensures Lonely(m', t, q)
    {
      if FreeAt(m, t, q) {
        FreeAligned(m, top, t, q);
      }
      RetagLonely(m, s, o, t, q);
    }
  }

  // ---- the free blocks are a function of the blocks in use ----

  /** No block in use touches the 2^o min-blocks from a. */
  ghost predicate Gap(m: Layout, a: nat, o: nat)
  {
    forall s :: s in m && !m[s].kind.Free? ==> End(m, s) <= a || a + Pow2(o) <= s
  }

  lemma NestedAligned(s: nat, z: nat, a: nat, o: nat)
    requires o <= z && Aligned(s, z) && Aligned(a, o) && s <= a < s + Pow2(z)
    ensures a + Pow2(o) <= s + Pow2(z)
  {
    AlignedWeaken(s, o, z);
    Pow2Aligned(o, z);
    AlignedAdd(s, Pow2(z), o);
    AlignedGap(a, s + Pow2(z), o);
  }

  lemma SmallerInside(s: nat, z: nat, a: nat, o: nat)
    requires z < o && Aligned(s, z) && Aligned(a, o)
    requires s <= a && a + Pow2(o - 1) <= s + Pow2(z)
    ensures s == a && z == o - 1
  {
    if z < o - 1 {
      Pow2Mono(z, o - 1);
    }
    AlignedWeaken(a, z, o);
    if s < a {
      AlignedGap(s, a, z);
    }
  }

  /** A block holding the first half of an aligned interval holds all of it or is exactly that half. */
  lemma HalfOrWhole(m: Layout, top: nat, s: nat, a: nat, o: nat)
    requires Dyadic(m, top) && s in m && o > 0 && Aligned(a, o)
    requires s <= a && a + Pow2(o - 1) <= End(m, s)
    ensures a + Pow2(o) <= End(m, s) || (s == a && m[s].size == Pow2(o - 1))
  {
    assert DyadicBlock(m[s], s, top);
    var z := Log2(m[s].size);
    if o <= z {
      NestedAligned(s, z, a, o);
    } else {
      SmallerInside(s, z, a, o);
    }
  }

  lemma GapHalves(m: Layout, a: nat, o: nat)
    requires o > 0 && Gap(m, a, o)
    ensures Gap(m, a, o - 1) && Gap(m, a + Pow2(o - 1), o - 1)
  {
  }

  /** The right half of a free left half cannot itself start a free block of that order or more. */
  lemma RightHalf(m: Layout, top: nat, s: nat, t: nat, h: nat)
    requires Dyadic(m, top) && Aligned(s, h + 1) && Lonely(m, s, h) && FreeAt(m, s, h)
    requires t in m && m[t].kind.Free? && t == s + Pow2(h)
    ensures End(m, t) < s + Pow2(h + 1)
  {
    hide Pow2, Log2, Aligned, BitAt, Dyadic;
    BlockDyadic(m, t, top);
    Pow2Step(h);
    var z := Log2(m[t].size);
    AlignedWeaken(s, h, h + 1);
    BitStep(s, h);
    if z > h {
      AlignedWeaken(t, h + 1, z);
      BitStep(t, h);
    } else if z < h {
      Pow2Mono(z, h);
    }
  }

  lemma GapUnit(m: Layout, top: nat, a: nat) returns (s: nat)
    requires Sound(m, top) && a < Pow2(top) && Gap(m, a, 0)
    ensures s in m && m[s].kind.Free? && s <= a && a + 1 <= End(m, s)
  {
    s := Owner(m, 0, Pow2(top), a);
  }

  lemma GapJoin(m: Layout, top: nat, a: nat, h: nat, s: nat, t: nat)
    requires Sound(m, top) && Aligned(a, h + 1) && h < top
    requires s in m && m[s].kind.Free? && s <= a && a + Pow2(h) <= End(m, s)
    requires t in m && m[t].kind.Free? && t <= a + Pow2(h) && a + Pow2(h + 1) <= End(m, t)
    ensures a + Pow2(h + 1) <= End(m, s)
  {
    HalfOrWhole(m, top, s, a, h + 1);
    if a + Pow2(h + 1) > End(m, s) {
      assert Lonely(m, s, h);
      Disjoint(m, top, s, t);
      RightHalf(m, top, s, t, h);
    }
  }

  /** Canonical coalescing: an aligned gap lies inside a single free block. */
  lemma {:induction false} GapIsFree(m: Layout, top: nat, a: nat, o: nat) returns (s: nat)
    requires Sound(m, top) && Aligned(a, o) && o <= top && a + Pow2(o) <= Pow2(top) && Gap(m, a, o)
    ensures s in m && m[s].kind.Free? && s <= a && a + Pow2(o) <= End(m, s)
    decreases o
  {
    if o == 0 {
      s := GapUnit(m, top, a);
    } else {
      var h := o - 1;
      var r := a + Pow2(h);
      assert Aligned(a, h) && Aligned(r, h) by {
        AlignedWeaken(a, h, o);
        BitStep(a, h);
      }
      assert r + Pow2(h) == a + Pow2(o);
      GapHalves(m, a, o);
      s := GapIsFree(m, top, a, h);
      var t := GapIsFree(m, top, r, h);
      GapJoin(m, top, a, h, s, t);
    }
  }

  lemma Disjoint(m: Layout, top: nat, s: nat, t: nat)
    requires Sound(m, top) && s in m && t in m && s != t
    ensures End(m, s) <= t || End(m, t) <= s
  {
    assert s < t || t < s;
  }

  lemma FreeContained(m: Layout, n: Layout, top: nat, s: nat) returns (t: nat)
    requires Sound(m, top) && Sound(n, top) && Occupied(m) == Occupied(n)
    requires s in m && m[s].kind.Free?
    ensures t in n && n[t].kind.Free? && t <= s && End(m, s) <= End(n, t)
  {
    assert DyadicBlock(m[s], s, top);
    var o := Log2(m[s].size);
    forall u | u in n && !n[u].kind.Free?
      ensures End(n, u) <= s || s + Pow2(o) <= u
    {
      assert u in Occupied(n);
      assert u in m && m[u] == n[u];
      assert u < s || s < u;
    }
    t := GapIsFree(n, top, s, o);
  }

  /** The whole layout is determined by which blocks are in use. */
  lemma FreeDetermined(m: Layout, n: Layout, top: nat)
    requires Sound(m, top) && Sound(n, top) && Occupied(m) == Occupied(n)
    ensures m == n
  {
    SameFree(m, n, top);
    SameFree(n, m, top);
  }

  lemma SameBlock(m: Layout, top: nat, s: nat, u: nat)
    requires Sound(m, top) && s in m && u in m && u <= s && End(m, s) <= End(m, u)
    ensures u == s
  {
    hide Dyadic, Canonical, Pow2;
    assert m[s].size > 0;
  }

  lemma SameFree(m: Layout, n: Layout, top: nat)
    requires Sound(m, top) && Sound(n, top) && Occupied(m) == Occupied(n)
    ensures forall s :: s in m ==> s in n && n[s] == m[s]
  {
    hide Sound;
    forall s | s in m
      ensures s in n && n[s] == m[s]
    {
      if m[s].kind.Free? {
        var t := FreeContained(m, n, top, s);
        var u := FreeContained(n, m, top, t);
        SameBlock(m, top, s, u);
      } else {
        assert s in Occupied(m);
      }
    }
  }

  lemma JoinOccupied(m: Layout, s: nat, b: nat)
    requires s in m && !m[s].kind.Free? && b in m && m[b].kind.Free?
    requires End(m, s) == b || End(m, b) == s
    ensures Occupied(Join(m, s, b)) - {if b < s then b else s} == Occupied(m) - {s}
  {
  }

  lemma {:induction false} MergeUpOccupied(m: Layout, s: nat, o: nat, top: nat)
    requires Sound(m, top) && o <= top
    requires s in m && m[s].size == Pow2(o) && !m[s].kind.Free?
    ensures Occupied(MergeUp(m, s, o, top)) == Occupied(m) - {s}
    decreases top - o
  {
    var b := BuddyOf(s, o);
    if o < top && FreeAt(m, b, o) {
      var p := if b < s then b else s;
      JoinSound(m, s, o, top);
      MergeUpOccupied(Join(m, s, b), p, o + 1, top);
      JoinOccupied(m, s, b);
    } else {
      RetagOccupied(m, s);
    }
  }

  /** Splitting frees only parts of the split block; the other blocks in use stay as they are. */
  lemma {:induction false} SplitDownOccupied(m: Layout, s: nat, from: nat, target: nat, top: nat)
    requires Sound(m, top) && target <= from <= top
    requires s in m && m[s].size == Pow2(from) && !m[s].kind.Free?
    ensures Occupied(SplitDown(m, s, from, target)) - {s} == Occupied(m) - {s}
    decreases from
  {
    if from > target {
      SplitOnce(m, s, from - 1, top);
      SplitOccupied(m, s, Pow2(from - 1));
      SplitDownOccupied(SplitAt(m, s, Pow2(from - 1)), s, from - 1, target, top);
    }
  }

  /** Freeing a block right after carving it out of a larger free one restores the layout exactly. */
  lemma AllocateThenFree(m: Layout, s: nat, from: nat, target: nat, k: Kind, top: nat)
    requires Sound(m, top) && target <= from <= top && FreeAt(m, s, from) && !k.Free?
    ensures var taken := SplitDown(Retag(m, s, k), s, from, target);
            && s in taken && taken[s] == Seg(Pow2(target), k)
            && MergeUp(taken, s, target, top) == m
  {
    TakeSound(m, s, from, k, top);
    var r := Retag(m, s, k);
    var taken := SplitDown(r, s, from, target);
    SplitDownSound(r, s, from, target, top);
    MergeUpSound(taken, s, target, top);
    MergeUpOccupied(taken, s, target, top);
    SplitDownOccupied(r, s, from, target, top);
    TakeOccupied(m, s, k);
    FreeDetermined(MergeUp(taken, s, target, top), m, top);
  }

  /** Taking a free block out of service keeps the layout sound. */
  lemma TakeSound(m: Layout, s: nat, from: nat, k: Kind, top: nat)
    requires Sound(m, top) && FreeAt(m, s, from) && !k.Free?
    ensures Sound(Retag(m, s, k), top)
  {
    RetagTiles(m, s, k, 0, Pow2(top));
    var r := Retag(m, s, k);
    forall t | t in r
      ensures DyadicBlock(r[t], t, top)
    {
      assert DyadicBlock(m[t], t, top);
    }
    forall t: nat, q: nat | q < top && t in r
      ensures Lonely(r, t, q)
    {
      assert Lonely(m, t, q);
    }
  }

  /** Whatever the order of the frees, a pool with nothing in use is one free block of the top order. */
  lemma AllFree(m: Layout, top: nat)
    requires Sound(m, top) && Occupied(m) == map[]
    ensures m == map[0 := FreeSeg(top)]
  {
    InitialSound(top);
    assert Occupied(map[0 := FreeSeg(top)]) == map[];
    FreeDetermined(m, map[0 := FreeSeg(top)], top);
  }

  lemma InitialSound(top: nat)
    ensures Sound(map[0 := FreeSeg(top)], top)
  {
    ZeroAligned(top);
    DyadicSeg(top, 0, Free, top);
    var m: Layout := map[0 := FreeSeg(top)];
    assert Linked(m, 0, Pow2(top));
    forall t: nat, q: nat | q < top && t in m
      ensures Lonely(m, t, q)
    {
      if FreeAt(m, t, q) {
        Pow2Injective(q, top);
      }
    }
  }

  lemma FreeIsGap(m: Layout, top: nat, s: nat, q: nat, o: nat)
    requires Sound(m, top) && o <= q && FreeAt(m, s, q)
    ensures Aligned(s, o) && s + Pow2(o) <= Pow2(top) && Gap(m, s, o)
  {
    FreeAligned(m, top, s, q);
    AlignedWeaken(s, o, q);
    if o < q {
      Pow2Mono(o, q);
    }
    forall t | t in m && !m[t].kind.Free?
      ensures End(m, t) <= s || s + Pow2(o) <= t
    {
      Disjoint(m, top, s, t);
    }
  }

  lemma GapHasFree(m: Layout, top: nat, a: nat, o: nat) returns (s: nat, q: nat)
    requires Sound(m, top) && o <= top && Aligned(a, o) && a + Pow2(o) <= Pow2(top) && Gap(m, a, o)
    ensures o <= q && FreeAt(m, s, q)
  {
    s := GapIsFree(m, top, a, o);
    assert DyadicBlock(m[s], s, top);
    q := Log2(m[s].size);
    if q < o {
      Pow2Mono(q, o);
    }
  }

  /** Some aligned run of 2^o min-blocks is not in use. */
  ghost predicate HasRoom(m: Layout, o: nat, top: nat)
  {
    exists a: nat :: Aligned(a, o) && a + Pow2(o) <= Pow2(top) && Gap(m, a, o)
  }

  /** A free block of order o or more exists exactly when there is room for one. */
  lemma FitIffGap(m: Layout, o: nat, top: nat)
    requires Sound(m, top) && o <= top
    ensures (exists s: nat, q: nat :: o <= q && FreeAt(m, s, q)) <==> HasRoom(m, o, top)
  {
    if s: nat, q: nat :| o <= q && FreeAt(m, s, q) {
      FreeIsGap(m, top, s, q, o);
    }
    if HasRoom(m, o, top) {
      var a: nat :| Aligned(a, o) && a + Pow2(o) <= Pow2(top) && Gap(m, a, o);
      var s, q := GapHasFree(m, top, a, o);
    }
  }

  /** Block s of the tightest sufficient order was taken out of m for a block of order o in state k. */
  ghost predicate Carved(m: Layout, m': Layout, s: nat, o: nat, k: Kind)
  {
    exists from: nat :: CarvedFrom(m, m', s, from, o, k)
  }

  ghost predicate CarvedFrom(m: Layout, m': Layout, s: nat, from: nat, o: nat, k: Kind)
  {
    && o <= from && FreeAt(m, s, from)
    && (forall t: nat, q: nat :: o <= q < from ==> !FreeAt(m, t, q))
    && m' == SplitDown(Retag(m, s, k), s, from, o)
  }

  lemma {:induction false} SplitDownKind(m: Layout, s: nat, from: nat, target: nat, k: Kind)
    requires target <= from && s in m && m[s].size == Pow2(from)
    ensures s in SplitDown(m, s, from, target)
    ensures SplitDown(Retag(m, s, k), s, from, target) == Retag(SplitDown(m, s, from, target), s, k)
    decreases from
  {
    if from > target {
      var h := Pow2(from - 1);
      assert SplitAt(Retag(m, s, k), s, h) == Retag(SplitAt(m, s, h), s, k);
      SplitDownKind(SplitAt(m, s, h), s, from - 1, target, k);
    }
  }

  lemma BlockBelowTop(m: Layout, top: nat, s: nat, o: nat)
    requires Dyadic(m, top) && s in m && m[s].size == Pow2(o)
    ensures o <= top
  {
    assert DyadicBlock(m[s], s, top);
    Log2Unique(Pow2(o), o);
  }

  /** Carving adds one block to the blocks in use and touches no other. */
  lemma CarveOccupied(m: Layout, m': Layout, s: nat, o: nat, k: Kind, top: nat)
    requires Sound(m, top) && Carved(m, m', s, o, k) && !k.Free?
    ensures s !in Occupied(m) && Occupied(m') == Occupied(m)[s := Seg(Pow2(o), k)]
  {
    var from: nat :| CarvedFrom(m, m', s, from, o, k);
    BlockBelowTop(m, top, s, from);
    hide Sound, SplitDown;
    TakeSound(m, s, from, k, top);
    var r := Retag(m, s, k);
    SplitDownSound(r, s, from, o, top);
    SplitDownOccupied(r, s, from, o, top);
    TakeOccupied(m, s, k);
    PutBack(m', m, s);
  }

  /** A carved block has the order and state asked for, and freeing it undoes the carving. */
  lemma CarveThenFree(m: Layout, m': Layout, s: nat, o: nat, k: Kind, top: nat)
    requires Sound(m, top) && Carved(m, m', s, o, k) && o <= top && !k.Free?
    ensures s in m' && m'[s] == Seg(Pow2(o), k) && MergeUp(m', s, o, top) == m
  {
    var from: nat :| CarvedFrom(m, m', s, from, o, k);
    assert DyadicBlock(m[s], s, top);
    Log2Unique(Pow2(from), from);
    AllocateThenFree(m, s, from, o, k, top);
  }

  /** The state of the block being freed does not matter to where merging ends. */
  lemma {:induction false} MergeUpKind(m: Layout, s: nat, o: nat, top: nat, k: Kind)
    requires s in m && m[s].size == Pow2(o) && !m[s].kind.Free? && !k.Free?
    ensures MergeUp(Retag(m, s, k), s, o, top) == MergeUp(m, s, o, top)
    decreases top - o
  {
    var b := BuddyOf(s, o);
    var n := Retag(m, s, k);
    if o < top && FreeAt(m, b, o) {
      var p := if b < s then b else s;
      assert Join(n, s, b) == Retag(Join(m, s, b), p, k);
      MergeUpKind(Join(m, s, b), p, o + 1, top, k);
    } else {
      assert Retag(n, s, Free) == Retag(m, s, Free);
    }
  }
}
