/** The books' byte counters against their layouts. */
module Accounts {
  import opened Powers
  import opened Tiling

  /** The counters are unsigned 64-bit words. */
  function Wrap(x: int): nat
  {
    x % WORD_SIZE
  }

  lemma WrapShift(x: int, d: int)
    ensures Wrap(Wrap(x) + d) == Wrap(x + d)
  {
  }

  /** Min-blocks handed out and not tombstoned. */
  ghost function Live(m: Layout): nat
  {
    Amount(m, Alloc) + Amount(m, Temporal)
  }

  /**
   The counters against the layout. `lost` sums the blocks that were tombstoned and later freed:
   both operations subtract such a block from the allocated count.
   */
  ghost predicate Accounted(m: Layout, live: int, tombstoned: int, lost: int, k: nat)
  {
    && live == Wrap(Shl(Live(m), k) - lost)
    && tombstoned == Shl(Amount(m, Tombstoned), k)
  }

  /** The live amount grows or shrinks by one block; the counter follows, wrapping. */
  lemma Recount(m: Layout, n: Layout, live: int, tombstoned: int, lost: int, k: nat, size: nat, gain: bool)
    requires Accounted(m, live, tombstoned, lost, k)
    requires gain ==> Live(n) == Live(m) + size
    requires !gain ==> Live(n) + size == Live(m)
    requires Amount(n, Tombstoned) == Amount(m, Tombstoned)
    ensures Accounted(n, Wrap(if gain then live + Shl(size, k) else live - Shl(size, k)), tombstoned, lost, k)
  {
    hide Wrap, Live, Shl, Amount;
    var u := Live(m);
    if gain {
      ShlAdd(u, size, k);
      WrapShift(Shl(u, k) - lost, Shl(size, k));
    } else {
      ShlAdd(u - size, size, k);
      WrapShift(Shl(u, k) - lost, 0 - Shl(size, k));
    }
  }

  /** Handing out a block that was free adds its size to the allocated count. */
  lemma GrantRecount(m: Layout, n: Layout, s: nat, g: Seg, live: int, tombstoned: int, lost: int, b: nat)
    requires Occupied(n) == Occupied(m)[s := g] && s !in Occupied(m) && (g.kind.Alloc? || g.kind.Temporal?)
    requires Accounted(m, live, tombstoned, lost, b)
    ensures Accounted(n, Wrap(live + Shl(g.size, b)), tombstoned, lost, b)
  {
    hide Wrap, Shl, Amount;
    GrantAmount(m, n, s, g, Alloc);
    GrantAmount(m, n, s, g, Temporal);
    GrantAmount(m, n, s, g, Tombstoned);
    Recount(m, n, live, tombstoned, lost, b, g.size, true);
  }

  lemma GrantAmount(m: Layout, n: Layout, s: nat, g: Seg, k: Kind)
    requires Occupied(n) == Occupied(m)[s := g] && s !in Occupied(m) && !k.Free?
    ensures Amount(n, k) == Amount(m, k) + Part(g, k)
  {
    hide Amount;
    OccupiedAmount(m, k);
    OccupiedAmount(n, k);
    AmountUpdate(Occupied(m), s, g, k);
    assert Occupied(m) - {s} == Occupied(m);
  }

  /** Freeing a block: a tombstoned one is subtracted from the allocated count a second time. */
  lemma ReleaseRecount(m: Layout, n: Layout, s: nat, live: int, tombstoned: int, lost: int, b: nat)
    requires s in m && InUse(m[s].kind) && Occupied(n) == Occupied(m) - {s}
    requires Accounted(m, live, tombstoned, lost, b)
    ensures var size := Shl(m[s].size, b);
            var dead := m[s].kind.Tombstoned?;
            && (dead ==> size <= tombstoned)
            && Accounted(n, Wrap(live - size),
                         if dead then tombstoned - size else tombstoned,
                         if dead then lost + size else lost, b)
  {
    hide Wrap, Shl, Amount;
    ReleaseAmount(m, n, s, Alloc);
    ReleaseAmount(m, n, s, Temporal);
    ReleaseAmount(m, n, s, Tombstoned);
    if m[s].kind.Tombstoned? {
      ShlAdd(Amount(n, Tombstoned), m[s].size, b);
      WrapShift(Shl(Live(m), b) - lost, 0 - Shl(m[s].size, b));
    } else {
      Recount(m, n, live, tombstoned, lost, b, m[s].size, false);
    }
  }

  lemma ReleaseAmount(m: Layout, n: Layout, s: nat, k: Kind)
    requires s in m && !m[s].kind.Free? && Occupied(n) == Occupied(m) - {s} && !k.Free?
    ensures Amount(m, k) == Amount(n, k) + Part(m[s], k)
  {
    hide Amount;
    OccupiedAmount(m, k);
    OccupiedAmount(n, k);
    AmountRemove(Occupied(m), s, k);
  }

  /** Leaving or entering the counted states without moving. */
  lemma RetagRecount(m: Layout, s: nat, k: Kind, live: int, tombstoned: int, lost: int, b: nat)
    requires s in m && Accounted(m, live, tombstoned, lost, b)
    requires (m[s].kind.Parked? && k.Temporal?) || (m[s].kind.Temporal? && k.Parked?)
    ensures Accounted(Retag(m, s, k),
                      Wrap(if k.Temporal? then live + Shl(m[s].size, b) else live - Shl(m[s].size, b)),
                      tombstoned, lost, b)
  {
    hide Wrap, Shl, Amount;
    var n := Retag(m, s, k);
    RetagAmount(m, s, k, Alloc);
    RetagAmount(m, s, k, Temporal);
    RetagAmount(m, s, k, Tombstoned);
    Recount(m, n, live, tombstoned, lost, b, m[s].size, k.Temporal?);
  }

  lemma TombRecount(m: Layout, s: nat, live: int, tombstoned: int, lost: int, b: nat)
    requires s in m && (m[s].kind.Alloc? || m[s].kind.Temporal?)
    requires Accounted(m, live, tombstoned, lost, b)
    ensures Accounted(Retag(m, s, Tombstoned), Wrap(live - Shl(m[s].size, b)),
                      tombstoned + Shl(m[s].size, b), lost, b)
  {
    hide Wrap, Shl, Amount;
    var n := Retag(m, s, Tombstoned);
    var u := Live(m);
    RetagAmount(m, s, Tombstoned, Alloc);
    RetagAmount(m, s, Tombstoned, Temporal);
    RetagAmount(m, s, Tombstoned, Tombstoned);
    ShlAdd(Amount(m, Tombstoned), m[s].size, b);
    AmountRemove(m, s, m[s].kind);
    ShlAdd(u - m[s].size, m[s].size, b);
    WrapShift(Shl(u, b) - lost, 0 - Shl(m[s].size, b));
  }

  lemma WrapSmall(x: int)
    requires 0 <= x < WORD_SIZE
    ensures Wrap(x) == x
  {
  }

  /** The first bytes to be lost show. */
  lemma LostIs(lost: int, size: int)
    requires Wrap(lost) == 0 && 0 < size < WORD_SIZE
    ensures Wrap(lost + size) == size
  {
  }

  lemma WrapExact(x: int, lost: int)
    requires 0 <= x < WORD_SIZE
    ensures Wrap(x - lost) == x <==> Wrap(lost) == 0
    ensures Wrap(x - lost) == 0 <==> x == Wrap(lost)
  {
  }

  lemma EmptyAccounted(m: Layout, b: nat)
    requires Occupied(m) == map[]
    ensures Accounted(m, 0, 0, 0, b)
  {
    OccupiedAmount(m, Alloc);
    OccupiedAmount(m, Temporal);
    OccupiedAmount(m, Tombstoned);
    ShlZero(b);
    WrapExact(0, 0);
  }

  /**
   The pool is conserved: counted, tombstoned, parked and free bytes make up the whole exactly while
   the tombstoned blocks that were freed add up to a multiple of 2^64 bytes, none in particular.
   */
  lemma PoolConserved(m: Layout, lo: nat, hi: nat, live: int, tombstoned: int, lost: int, b: nat)
    requires Tiles(m, lo, hi) && lo <= hi && Accounted(m, live, tombstoned, lost, b)
    requires Shl(hi - lo, b) < WORD_SIZE
    ensures live + tombstoned + Shl(Amount(m, Parked), b) + Shl(Amount(m, Free), b) == Shl(hi - lo, b) <==> Wrap(lost) == 0
  {
    hide Wrap, Shl, Amount, Tiles;
    TilesTotal(m, lo, hi);
    var used := Live(m);
    ShlAdd(Amount(m, Tombstoned), Amount(m, Parked), b);
    ShlAdd(Amount(m, Tombstoned) + Amount(m, Parked), Amount(m, Free), b);
    ShlAdd(used, Amount(m, Tombstoned) + Amount(m, Parked) + Amount(m, Free), b);
    WrapExact(Shl(used, b), lost);
  }

  /** No block is handed out and not tombstoned. */
  ghost predicate NoneLive(m: Layout)
  {
    forall s :: s in m ==> !m[s].kind.Alloc? && !m[s].kind.Temporal?
  }

  /** The live amount is zero exactly when no block is live. */
  lemma LiveZero(m: Layout, lo: nat, hi: nat)
    requires Tiles(m, lo, hi)
    ensures Live(m) == 0 <==> NoneLive(m)
  {
    hide Amount;
    if NoneLive(m) {
      ZeroAmount(m, Alloc);
      ZeroAmount(m, Temporal);
    } else {
      var s :| s in m && (m[s].kind.Alloc? || m[s].kind.Temporal?);
      AmountRemove(m, s, m[s].kind);
    }
  }

  /**
   What used() == 0 says of a pool. The counter is zero exactly when the live bytes equal the lost
   ones, in 64 bits; so it means that nothing is live exactly as long as the lost bytes vanish.
   */
  lemma UsedZero(m: Layout, lo: nat, hi: nat, live: int, tombstoned: int, lost: int, b: nat)
    requires Tiles(m, lo, hi) && lo <= hi && Accounted(m, live, tombstoned, lost, b)
    requires Shl(hi - lo, b) < WORD_SIZE
    ensures live == 0 <==> Shl(Live(m), b) == Wrap(lost)
    ensures Wrap(lost) == 0 ==> (live == 0 <==> NoneLive(m))
    ensures NoneLive(m) ==> (live == 0 <==> Wrap(lost) == 0)
  {
    hide Wrap, Shl, Amount, Tiles, NoneLive;
    TilesTotal(m, lo, hi);
    var used := Live(m);
    ShlAdd(used, hi - lo - used, b);
    WrapExact(Shl(used, b), lost);
    LiveZero(m, lo, hi);
    ShlZero(b);
    ShlMono(0, used, b);
  }
}
