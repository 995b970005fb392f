/**
 A pool cut into blocks: each block start maps to its size and state. Both books refine
 this picture, the buddy book counting in min-blocks and the TLSF book in bytes.
 */
module Tiling {

  /** Parked blocks sit in the buddy book's temporal cache. */
  datatype Kind = Free | Alloc | Temporal | Tombstoned | Parked

  datatype Seg = Seg(size: nat, kind: Kind)

  type Layout = map<nat, Seg>

  function End(m: Layout, s: nat): nat
    requires s in m
  {
    s + m[s].size
  }

  /** Block s is followed by another block or by the end of the pool. */
  ghost predicate Linked(m: Layout, s: nat, hi: nat)
    requires s in m
  {
    End(m, s) == hi || End(m, s) in m
  }

  /** The blocks cover [lo, hi) end to end without overlapping. */
  ghost predicate Tiles(m: Layout, lo: nat, hi: nat)
  {
    && lo in m
    && (forall s :: s in m ==> lo <= s && m[s].size > 0 && End(m, s) <= hi)
    && (forall s {:trigger Linked(m, s, hi)} :: s in m ==> Linked(m, s, hi))
    && (forall s, t :: s in m && t in m && s < t ==> End(m, s) <= t)
  }

  // ---- the three ways a book changes its layout ----

  function Retag(m: Layout, s: nat, k: Kind): Layout
    requires s in m
  {
    m[s := Seg(m[s].size, k)]
  }

  /** Keep `n` at the front of block s; the rest becomes a free block. */
  function SplitAt(m: Layout, s: nat, n: nat): Layout
    requires s in m && n <= m[s].size
  {
    m[s := Seg(n, m[s].kind)][s + n := Seg(m[s].size - n, Free)]
  }

  /** Block s swallows the block that follows it. */
  function Fuse(m: Layout, s: nat, k: Kind): Layout
    requires s in m && End(m, s) in m
  {
    (m - {End(m, s)})[s := Seg(m[s].size + m[End(m, s)].size, k)]
  }

  lemma RetagTiles(m: Layout, s: nat, k: Kind, lo: nat, hi: nat)
    requires Tiles(m, lo, hi) && s in m
    ensures Tiles(Retag(m, s, k), lo, hi)
  {
    var m' := Retag(m, s, k);
    assert forall t :: t in m' ==> t in m && End(m', t) == End(m, t);
    forall t | t in m'
      ensures Linked(m', t, hi)
    {
      assert Linked(m, t, hi);
    }
  }

  lemma SplitBlock(m: Layout, s: nat, n: nat, lo: nat, hi: nat, t: nat)
    requires Tiles(m, lo, hi) && s in m && 0 < n < m[s].size && s + n !in m
    requires t in SplitAt(m, s, n)
    ensures lo <= t && SplitAt(m, s, n)[t].size > 0 && End(SplitAt(m, s, n), t) <= hi
    ensures Linked(SplitAt(m, s, n), t, hi)
  {
    assert Linked(m, if t == s + n then s else t, hi);
  }

  lemma SplitPair(m: Layout, s: nat, n: nat, lo: nat, hi: nat, t: nat, u: nat)
    requires Tiles(m, lo, hi) && s in m && 0 < n < m[s].size && s + n !in m
    requires t in SplitAt(m, s, n) && u in SplitAt(m, s, n) && t < u
    ensures End(SplitAt(m, s, n), t) <= u
  {
    if t == s + n {
      assert s < u && u in m;
    } else if u == s + n && t != s {
      assert t < s || s < t;
    }
  }

  lemma SplitTiles(m: Layout, s: nat, n: nat, lo: nat, hi: nat)
    requires Tiles(m, lo, hi) && s in m && 0 < n < m[s].size
    ensures s + n !in m
    ensures Tiles(SplitAt(m, s, n), lo, hi)
  {
    assert s + n !in m;
    var m' := SplitAt(m, s, n);
    forall t | t in m'
      ensures lo <= t && m'[t].size > 0 && End(m', t) <= hi && Linked(m', t, hi)
    {
      SplitBlock(m, s, n, lo, hi, t);
    }
    forall t, u | t in m' && u in m' && t < u
      ensures End(m', t) <= u
    {
      SplitPair(m, s, n, lo, hi, t, u);
    }
  }

  lemma FuseLinked(m: Layout, s: nat, k: Kind, lo: nat, hi: nat, t: nat)
    requires Tiles(m, lo, hi) && s in m && End(m, s) in m && t in Fuse(m, s, k)
    ensures Linked(Fuse(m, s, k), t, hi)
  {
    var e := End(m, s);
    assert Linked(m, if t == s then e else t, hi);
    assert t != s ==> End(m, t) != e;
  }

  lemma FusePair(m: Layout, s: nat, k: Kind, lo: nat, hi: nat, t: nat, u: nat)
    requires Tiles(m, lo, hi) && s in m && End(m, s) in m
    requires t in Fuse(m, s, k) && u in Fuse(m, s, k) && t < u
    ensures End(Fuse(m, s, k), t) <= u
  {
    if t == s {
      assert End(m, s) < u;
    }
  }

  lemma FuseTiles(m: Layout, s: nat, k: Kind, lo: nat, hi: nat)
    requires Tiles(m, lo, hi) && s in m && End(m, s) in m
    ensures Tiles(Fuse(m, s, k), lo, hi)
  {
    var m' := Fuse(m, s, k);
    forall t | t in m'
      ensures Linked(m', t, hi)
    {
      FuseLinked(m, s, k, lo, hi, t);
    }
    forall t, u | t in m' && u in m' && t < u
      ensures End(m', t) <= u
    {
      FusePair(m, s, k, lo, hi, t, u);
    }
  }

  /** Every address of the pool lies in exactly one block. */
  lemma Owner(m: Layout, lo: nat, hi: nat, u: nat) returns (s: nat)
    requires Tiles(m, lo, hi) && lo <= u < hi
    ensures s in m && s <= u < End(m, s)
  {
    s := lo;
    while End(m, s) <= u
      invariant s in m && s <= u
      decreases u - s
    {
      assert Linked(m, s, hi);
      s := End(m, s);
    }
  }

  // ---- byte accounting ----

  /** Total size of the blocks of one kind. */
  ghost function Amount(m: Layout, k: Kind): nat
    decreases |m|
  {
    if m == map[] then 0
    else
      var s :| s in m;
      assert |m - {s}| < |m| by {
        assert (m - {s}).Keys == m.Keys - {s};
        assert |(m - {s}).Keys| == |m.Keys| - 1;
      }
      Part(m[s], k) + Amount(m - {s}, k)
  }

  function Part(b: Seg, k: Kind): nat
  {
    if b.kind == k then b.size else 0
  }

  /** The sum does not depend on the order in which blocks are counted. */
  lemma {:induction false} AmountRemove(m: Layout, s: nat, k: Kind)
    requires s in m
    ensures Amount(m, k) == Part(m[s], k) + Amount(m - {s}, k)
    decreases |m|
  {
    var t :| t in m && Amount(m, k) == Part(m[t], k) + Amount(m - {t}, k);
    if t != s {
      assert (m - {t}).Keys == m.Keys - {t};
      assert |(m - {t}).Keys| == |m.Keys| - 1;
      AmountRemove(m - {t}, s, k);
      assert (m - {s}).Keys == m.Keys - {s};
      assert |(m - {s}).Keys| == |m.Keys| - 1;
      AmountRemove(m - {s}, t, k);
      assert m - {t} - {s} == m - {s} - {t};
    }
  }

  lemma AmountUpdate(m: Layout, s: nat, b: Seg, k: Kind)
    ensures Amount(m[s := b], k) == Amount(m - {s}, k) + Part(b, k)
  {
    AmountRemove(m[s := b], s, k);
    assert m[s := b] - {s} == m - {s};
  }

  lemma RetagAmount(m: Layout, s: nat, to: Kind, k: Kind)
    requires s in m
    ensures Amount(Retag(m, s, to), k) == Amount(m, k) - Part(m[s], k) + (if to == k then m[s].size else 0)
  {
    AmountRemove(m, s, k);
    AmountUpdate(m, s, Seg(m[s].size, to), k);
  }

  ghost function Total(m: Layout): nat
  {
    Amount(m, Free) + Amount(m, Alloc) + Amount(m, Temporal) + Amount(m, Tombstoned) + Amount(m, Parked)
  }

  lemma TotalRemove(m: Layout, s: nat)
    requires s in m
    ensures Total(m) == m[s].size + Total(m - {s})
  {
    AmountRemove(m, s, Free);
    AmountRemove(m, s, Alloc);
    AmountRemove(m, s, Temporal);
    AmountRemove(m, s, Tombstoned);
    AmountRemove(m, s, Parked);
  }

  /** Without its first block the rest of a pool is tiled, or there is none. */
  lemma RestTiles(m: Layout, lo: nat, hi: nat)
    requires Tiles(m, lo, hi)
    ensures lo < End(m, lo) <= hi
    ensures End(m, lo) < hi ==> Tiles(m - {lo}, End(m, lo), hi)
    ensures End(m, lo) == hi ==> m - {lo} == map[]
  {
    var e := End(m, lo);
    var rest := m - {lo};
    assert Linked(m, lo, hi);
    assert forall t :: t in rest ==> t in m && e <= t && End(rest, t) == End(m, t);
    if e < hi {
      assert e in rest;
      forall t | t in rest
        ensures Linked(rest, t, hi)
      {
        assert Linked(m, t, hi);
        assert End(m, t) != lo;
      }
      hide Linked;
      assert Tiles(rest, e, hi);
    } else {
      assert forall t :: t in m ==> t == lo;
    }
  }

  /** Conservation: whatever the blocks' states, their sizes add up to the pool. */
  lemma {:induction false} TilesTotal(m: Layout, lo: nat, hi: nat)
    requires Tiles(m, lo, hi)
    ensures Total(m) == hi - lo
    decreases hi - lo
  {
    RestTiles(m, lo, hi);
    assert lo in m;
    hide Tiles;
    TotalRemove(m, lo);
    if End(m, lo) < hi {
      TilesTotal(m - {lo}, End(m, lo), hi);
    }
  }

  // ---- the blocks that are not free ----

  ghost function Occupied(m: Layout): Layout
  {
    map s | s in m && !m[s].kind.Free? :: m[s]
  }

  lemma RetagOccupied(m: Layout, s: nat)
    requires s in m
    ensures Occupied(Retag(m, s, Free)) == Occupied(m) - {s}
  {
  }

  lemma SplitOccupied(m: Layout, s: nat, n: nat)
    requires s in m && n <= m[s].size && s + n !in m
    ensures Occupied(SplitAt(m, s, n)) - {s} == Occupied(m) - {s}
  {
  }

  lemma TakeOccupied(m: Layout, s: nat, k: Kind)
    requires s in m && m[s].kind.Free?
    ensures Occupied(Retag(m, s, k)) - {s} == Occupied(m)
  {
  }

  lemma RelabelOccupied(m: Layout, s: nat, k: Kind)
    requires s in m
    ensures Occupied(Retag(m, s, k)) - {s} == Occupied(m) - {s}
  {
  }

  lemma PutBack(m: Layout, n: Layout, s: nat)
    requires s in m && !m[s].kind.Free? && Occupied(m) - {s} == Occupied(n)
    ensures s !in Occupied(n) && Occupied(m) == Occupied(n)[s := m[s]]
  {
  }

  /** Free blocks do not weigh on the amount of any other kind. */
  lemma {:induction false} OccupiedAmount(m: Layout, k: Kind)
    requires !k.Free?
    ensures Amount(Occupied(m), k) == Amount(m, k)
    decreases |m|
  {
    hide Amount, Occupied;
    if s :| s in m && m[s].kind.Free? {
      AmountRemove(m, s, k);
      assert (m - {s}).Keys == m.Keys - {s};
      assert |(m - {s}).Keys| == |m.Keys| - 1;
      OccupiedAmount(m - {s}, k);
      FreeDropped(m, s);
    } else {
      AllOccupied(m);
    }
  }

  lemma FreeDropped(m: Layout, s: nat)
    requires s in m && m[s].kind.Free?
    ensures Occupied(m - {s}) == Occupied(m)
  {
  }

  lemma AllOccupied(m: Layout)
    requires forall s :: s in m ==> !m[s].kind.Free?
    ensures Occupied(m) == m
  {
  }

  lemma {:induction false} ZeroAmount(m: Layout, k: Kind)
    requires forall s :: s in m ==> m[s].kind != k
    ensures Amount(m, k) == 0
    decreases |m|
  {
    if s :| s in m {
      AmountRemove(m, s, k);
      assert (m - {s}).Keys == m.Keys - {s};
      assert |(m - {s}).Keys| == |m.Keys| - 1;
      ZeroAmount(m - {s}, k);
    }
  }

  // ---- block states ----

  const FLAG_FREE: int := 0
  const FLAG_ALLOC: int := 1
  const FLAG_TOMBSTONE: int := 2
  const FLAG_TEMPORAL: int := 4

  predicate InUse(k: Kind)
  {
    k.Alloc? || k.Temporal? || k.Tombstoned?
  }

  function FlagOf(k: Kind): int
  {
    match k
    case Free => FLAG_FREE
    case Temporal => FLAG_ALLOC + FLAG_TEMPORAL
    case Tombstoned => FLAG_TOMBSTONE
    case _ => FLAG_ALLOC
  }

  // ---- what the books return ----

  datatype Chunk = Null | Chunk(ptr: nat, len: nat)

  datatype Outcome = Ok | Invalid | Tombstone | Failure
}
