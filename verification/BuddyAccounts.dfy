/** The buddy book's byte counters against its layout. */
module BuddyAccounts {
  import opened Powers
  import opened Tiling
  import opened BuddyLayout
  import opened Accounts

  /** Taking a block out of the free blocks adds its size to the allocated count. */
  lemma CarveRecount(m: Layout, n: Layout, s: nat, o: nat, k: Kind, top: nat,
                     live: int, tombstoned: int, lost: int, b: nat)
    requires Sound(m, top) && Carved(m, n, s, o, k) && (k.Alloc? || k.Temporal?)
    requires Accounted(m, live, tombstoned, lost, b)
    ensures Accounted(n, Wrap(live + Shl(Pow2(o), b)), tombstoned, lost, b)
  {
    hide Accounted, Sound, Carved, Occupied, Shl, Pow2;
    CarveOccupied(m, n, s, o, k, top);
    GrantRecount(m, n, s, Seg(Pow2(o), k), live, tombstoned, lost, b);
  }

  /** Freeing a block: a tombstoned one is subtracted from the allocated count a second time. */
  lemma FreeRecount(m: Layout, s: nat, o: nat, top: nat, live: int, tombstoned: int, lost: int, b: nat)
    requires Sound(m, top) && s in m && m[s].size == Pow2(o) && InUse(m[s].kind)
    requires Accounted(m, live, tombstoned, lost, b)
    ensures var size := Shl(Pow2(o), b);
            var dead := m[s].kind.Tombstoned?;
            && (dead ==> size <= tombstoned)
            && Accounted(MergeUp(m, s, o, top), Wrap(live - size),
                         if dead then tombstoned - size else tombstoned,
                         if dead then lost + size else lost, b)
  {
    hide Accounted, Dyadic, Tiles, Canonical, MergeUp, Occupied, Shl, Pow2, Wrap;
    BlockBelowTop(m, top, s, o);
    MergeUpOccupied(m, s, o, top);
    ReleaseRecount(m, MergeUp(m, s, o, top), s, live, tombstoned, lost, b);
  }
}
