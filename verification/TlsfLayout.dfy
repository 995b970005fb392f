/** Layouts of the TLSF book: neighbours are coalesced eagerly. Positions count 32-byte units. */
module TlsfLayout {
  import opened Tiling

  /** Units of the smallest block. */
  const MIN_UNITS: nat := 2

  /** Where the first block starts, right after the start sentinel. */
  const FIRST: nat := 1

  /** A free block is not followed by a free block. */
  ghost predicate Apart(m: Layout, s: nat)
    requires s in m
  {
    m[s].kind.Free? ==> NextUsed(m, s)
  }

  ghost predicate NextUsed(m: Layout, s: nat)
    requires s in m
  {
    End(m, s) in m ==> !m[End(m, s)].kind.Free?
  }

  ghost predicate PrevUsed(m: Layout, s: nat)
  {
    forall p :: p in m && End(m, p) == s ==> !m[p].kind.Free?
  }

  /** The blocks tile the pool between the sentinels, none is too small, and free ones are coalesced. */
  ghost predicate Sound(m: Layout, hi: nat)
  {
    && Tiles(m, FIRST, hi)
    && (forall s :: s in m ==> m[s].size >= MIN_UNITS && (m[s].kind.Free? || InUse(m[s].kind)))
    && (forall s {:trigger Apart(m, s)} :: s in m ==> Apart(m, s))
  }

  // ---- the free blocks are the gaps between the blocks in use ----

  /** Both layouts have the same blocks in use, so a block in use of one meets no other block of the other. */
  lemma SharedBlock(m: Layout, n: Layout, hi: nat, s: nat, t: nat)
    requires Tiles(m, FIRST, hi) && Tiles(n, FIRST, hi) && Occupied(m) == Occupied(n)
    requires s in m && !m[s].kind.Free? && t in n && t < End(m, s) && s < End(n, t)
    ensures s in n && t == s && n[s] == m[s]
  {
    assert s in Occupied(m);
    assert s in Occupied(n) && n[s] == m[s];
  }

  /** A free block of one layout starts a free block of the other. */
  lemma SameStart(m: Layout, n: Layout, hi: nat, s: nat)
    requires Sound(m, hi) && Sound(n, hi) && Occupied(m) == Occupied(n)
    requires s in m && m[s].kind.Free?
    ensures s in n && n[s].kind.Free?
  {
    var t := Owner(n, FIRST, hi, s);
    if !n[t].kind.Free? {
      SharedBlock(n, m, hi, t, s);
    } else if t < s {
      var p := Owner(m, FIRST, hi, s - 1);
      assert Apart(m, p) && Linked(m, p, hi);
      assert End(m, p) == s;
      SharedBlock(m, n, hi, p, t);
    }
  }

  lemma SameEnd(m: Layout, n: Layout, hi: nat, s: nat)
    requires Sound(m, hi) && Sound(n, hi) && Occupied(m) == Occupied(n)
    requires s in m && m[s].kind.Free? && s in n && n[s].kind.Free?
    ensures End(n, s) <= End(m, s)
  {
    var e := End(m, s);
    assert Apart(m, s) && Linked(m, s, hi);
    if e < End(n, s) {
      assert e in m && !m[e].kind.Free?;
      SharedBlock(m, n, hi, e, s);
    }
  }

  lemma SameBlocks(m: Layout, n: Layout, hi: nat)
    requires Sound(m, hi) && Sound(n, hi) && Occupied(m) == Occupied(n)
    ensures forall s :: s in m ==> s in n && n[s] == m[s]
  {
    hide Sound;
    forall s | s in m
      ensures s in n && n[s] == m[s]
    {
      if m[s].kind.Free? {
        SameStart(m, n, hi, s);
        SameEnd(m, n, hi, s);
        SameEnd(n, m, hi, s);
      } else {
        assert s in Occupied(m);
      }
    }
  }

  /** The whole layout is a function of the blocks in use: whatever led to it, the free blocks are the maximal gaps. */
  lemma FreeDetermined(m: Layout, n: Layout, hi: nat)
    requires Sound(m, hi) && Sound(n, hi) && Occupied(m) == Occupied(n)
    ensures m == n
  {
    hide Sound;
    SameBlocks(m, n, hi);
    SameBlocks(n, m, hi);
  }

  /** Once everything is freed, in whatever order, one free block spans the pool. */
  lemma AllFree(m: Layout, hi: nat)
    requires Sound(m, hi) && Occupied(m) == map[]
    ensures m == map[FIRST := Seg(hi - FIRST, Free)]
  {
    forall t | t in m
      ensures m[t].kind.Free?
    {
      assert t !in Occupied(m);
    }
    assert Apart(m, FIRST) && Linked(m, FIRST, hi);
    assert m.Keys == {FIRST};
  }

  lemma InitialSound(hi: nat)
    requires FIRST + MIN_UNITS <= hi
    ensures Sound(map[FIRST := Seg(hi - FIRST, Free)], hi)
  {
    var m: Layout := map[FIRST := Seg(hi - FIRST, Free)];
    assert Linked(m, FIRST, hi) && Apart(m, FIRST);
  }

  // ---- taking a block ----

  lemma TakeSound(m: Layout, hi: nat, s: nat, k: Kind)
    requires Sound(m, hi) && s in m && m[s].kind.Free? && InUse(k)
    ensures Sound(Retag(m, s, k), hi) && NextUsed(Retag(m, s, k), s)
  {
    UsedRetagSound(m, hi, s, k);
    assert Apart(m, s);
  }

  lemma UsedRetagSound(m: Layout, hi: nat, s: nat, k: Kind)
    requires Sound(m, hi) && s in m && InUse(k)
    ensures Sound(Retag(m, s, k), hi)
  {
    RetagTiles(m, s, k, FIRST, hi);
    var n := Retag(m, s, k);
    forall t | t in n
      ensures Apart(n, t)
    {
      assert Apart(m, t);
    }
  }

  /** Cut the block at s down to n units when the rest can stand as a block of its own. */
  function Trim(m: Layout, s: nat, n: nat): Layout
    requires s in m && n <= m[s].size
  {
    if m[s].size - n < MIN_UNITS then m else SplitAt(m, s, n)
  }

  lemma TrimApart(m: Layout, hi: nat, s: nat, n: nat, t: nat)
    requires Tiles(m, FIRST, hi) && s in m && !m[s].kind.Free? && NextUsed(m, s) && 0 < n < m[s].size
    requires s + n !in m && t in SplitAt(m, s, n)
    requires t in m ==> Apart(m, t)
    ensures Apart(SplitAt(m, s, n), t)
  {
    if t in m && t != s {
      assert End(m, t) != s + n;
    }
  }

  lemma TrimSound(m: Layout, hi: nat, s: nat, n: nat)
    requires Sound(m, hi) && s in m && !m[s].kind.Free? && NextUsed(m, s) && MIN_UNITS <= n <= m[s].size
    ensures Sound(Trim(m, s, n), hi)
    ensures Occupied(Trim(m, s, n)) - {s} == Occupied(m) - {s}
    ensures m[s].size - n >= MIN_UNITS ==> s + n !in m
  {
    if m[s].size - n >= MIN_UNITS {
      hide Tiles;
      SplitTiles(m, s, n, FIRST, hi);
      SplitOccupied(m, s, n);
      forall t | t in SplitAt(m, s, n)
        ensures Apart(SplitAt(m, s, n), t)
      {
        assert t in m ==> Apart(m, t);
        TrimApart(m, hi, s, n, t);
      }
    }
  }

  // ---- giving a block back ----

  lemma FuseApart(m: Layout, s: nat, k: Kind, t: nat)
    requires s in m && End(m, s) in m && !k.Free? && t in Fuse(m, s, k)
    requires t in m ==> Apart(m, t)
    ensures Apart(Fuse(m, s, k), t)
  {
  }

  lemma FuseSound(m: Layout, hi: nat, s: nat, k: Kind)
    requires Sound(m, hi) && s in m && End(m, s) in m && InUse(k)
    ensures Sound(Fuse(m, s, k), hi)
  {
    FuseTiles(m, s, k, FIRST, hi);
    hide Tiles;
    forall t | t in Fuse(m, s, k)
      ensures Apart(Fuse(m, s, k), t)
    {
      assert t in m ==> Apart(m, t);
      FuseApart(m, s, k, t);
    }
  }

  /** Fusing a block in transit with a free neighbour, on either side. */
  lemma FuseOccupied(m: Layout, a: nat, s: nat)
    requires a in m && m[a].size > 0 && End(m, a) in m && (s == a || s == End(m, a)) && s in m && !m[s].kind.Free?
    requires m[if s == a then End(m, a) else a].kind.Free?
    ensures Occupied(Fuse(m, a, m[s].kind)) - {a} == Occupied(m) - {s}
  {
  }

  /** The block in transit at s swallows the free block after it. */
  lemma FuseNextSound(m: Layout, hi: nat, s: nat)
    requires Sound(m, hi) && s in m && !m[s].kind.Free? && End(m, s) in m && m[End(m, s)].kind.Free?
    ensures Sound(Fuse(m, s, m[s].kind), hi) && NextUsed(Fuse(m, s, m[s].kind), s)
    ensures Occupied(Fuse(m, s, m[s].kind)) - {s} == Occupied(m) - {s}
  {
    FuseSound(m, hi, s, m[s].kind);
    assert m[s].size > 0 && Apart(m, End(m, s));
    hide Sound;
    FuseOccupied(m, s, s);
  }

  lemma PrevStaysUsed(m: Layout, p: nat, k: Kind)
    requires p in m && m[p].kind.Free? && m[p].size > 0 && End(m, p) in m
    requires forall t {:trigger Apart(m, t)} :: t in m ==> Apart(m, t)
    ensures PrevUsed(Fuse(m, p, k), p)
  {
    var n := Fuse(m, p, k);
    forall t | t in n && End(n, t) == p
      ensures !n[t].kind.Free?
    {
      assert t in m ==> Apart(m, t);
    }
  }

  /** The free block at p swallows the block in transit after it. */
  lemma FusePrevSound(m: Layout, hi: nat, p: nat, s: nat)
    requires Sound(m, hi) && s in m && !m[s].kind.Free? && NextUsed(m, s)
    requires p in m && m[p].kind.Free? && End(m, p) == s
    ensures Sound(Fuse(m, p, m[s].kind), hi)
    ensures NextUsed(Fuse(m, p, m[s].kind), p) && PrevUsed(Fuse(m, p, m[s].kind), p)
    ensures Occupied(Fuse(m, p, m[s].kind)) - {p} == Occupied(m) - {s}
  {
    FuseSound(m, hi, p, m[s].kind);
    assert m[p].size > 0 && m[s].size > 0;
    PrevStaysUsed(m, p, m[s].kind);
    hide Sound, Apart, PrevUsed;
    FuseOccupied(m, p, s);
  }

  lemma ReleaseSound(m: Layout, hi: nat, s: nat)
    requires Sound(m, hi) && s in m && NextUsed(m, s) && PrevUsed(m, s)
    ensures Sound(Retag(m, s, Free), hi)
    ensures Occupied(Retag(m, s, Free)) == Occupied(m) - {s}
  {
    RetagTiles(m, s, Free, FIRST, hi);
    RetagOccupied(m, s);
    var n := Retag(m, s, Free);
    forall t | t in n
      ensures Apart(n, t)
    {
      assert Apart(m, t);
    }
  }

  /** Freeing what was just handed out restores every block boundary. */
  lemma GrantThenRelease(m: Layout, taken: Layout, given: Layout, hi: nat, s: nat, g: Seg)
    requires Sound(m, hi) && Sound(given, hi)
    requires s !in Occupied(m) && Occupied(taken) == Occupied(m)[s := g] && Occupied(given) == Occupied(taken) - {s}
    ensures given == m
  {
    hide Sound;
    assert Occupied(m)[s := g] - {s} == Occupied(m);
    FreeDetermined(given, m, hi);
  }
}
