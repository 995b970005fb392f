/**
 What the tier asks of its sheets' books, met by both books: a grant is fresh room inside the sheet, a
 free and a tombstone take out exactly one block, and used() == 0 says that no block is left.
 */
module TierBooks {
  import opened Powers
  import opened Tiling
  import opened Accounts
  import BL = BuddyLayout
  import BS = BuddyState
  import B = BuddyBook
  import FL = FreeList
  import TL = TlsfLayout
  import TM = TlsfMapping
  import TS = TlsfState
  import T = TlsfBook
  import C = FreeCache
  import TC = TierCache

  const HDR: nat := 32

  // ---- a sheet's blocks as its tier sees them ----

  /** Sizes of the blocks that are handed out and not tombstoned. */
  ghost function Granted(m: Layout): map<nat, nat>
  {
    map x | x in m && m[x].kind.Alloc? :: m[x].size
  }

  ghost predicate NoTemporals(m: Layout)
  {
    forall x :: x in m ==> !m[x].kind.Temporal?
  }

  /** The payload address of the block at unit x. */
  function Place(origin: nat, k: nat, x: nat): nat
  {
    origin + Shl(x, k)
  }

  /** The tier's blocks in sheet h are the book's granted ones, less the room of their headers. */
  ghost predicate Backs(g: map<nat, nat>, origin: nat, k: nat, s: C.State, h: C.Sheet)
  {
    && (forall x :: x in g ==> Place(origin, k, x) in s.blocks && s.blocks[Place(origin, k, x)] == Shl(g[x], k) - HDR)
    && (forall a :: a in s.blocks && C.Inside(h, a) ==> exists x :: x in g && a == Place(origin, k, x))
  }

  /** The units [lo, hi) of a book lie in the sheet; a block's header takes no room past its own units. */
  ghost predicate Within(h: C.Sheet, origin: nat, k: nat, lo: nat, hi: nat)
  {
    h.lo <= Place(origin, k, lo) && Place(origin, k, hi) <= h.hi + HDR
  }

  lemma PlaceInjective(origin: nat, k: nat, x: nat, y: nat)
    requires Place(origin, k, x) == Place(origin, k, y)
    ensures x == y
  {
    ShlMono(x, y, k);
    ShlMono(y, x, k);
  }

  /** Blocks that do not overlap in units do not overlap in bytes, and lie in the sheet. */
  lemma PlacesClear(origin: nat, k: nat, x: nat, n: nat, y: nat, p: nat)
    requires x + n <= y && Shl(n, k) >= HDR
    ensures Place(origin, k, x) + (Shl(n, k) - HDR) <= Place(origin, k, y)
  {
    ShlAdd(x, n, k);
    if x + n < y {
      ShlMono(x + n, y, k);
    }
  }

  lemma PlaceInside(h: C.Sheet, origin: nat, k: nat, lo: nat, hi: nat, x: nat, n: nat)
    requires Within(h, origin, k, lo, hi) && lo <= x && x + n <= hi && Shl(n, k) > HDR
    ensures h.lo <= Place(origin, k, x) && Place(origin, k, x) + (Shl(n, k) - HDR) <= h.hi
  {
    ShlAdd(x, n, k);
    if lo < x {
      ShlMono(lo, x, k);
    }
    if x + n < hi {
      ShlMono(x + n, hi, k);
    }
  }

  // ---- the three ways a book's granted blocks change ----

  ghost function Marked(s: C.State, addr: nat, size: nat): C.State
  {
    s.(blocks := s.blocks[addr := size], held := s.held + {addr})
  }

  /** A block of another sheet keeps clear of this one. */
  lemma ElsewhereClear(sheets: set<C.Sheet>, blocks: map<nat, nat>, h: C.Sheet, b: nat)
    requires C.BooksSound(sheets, blocks) && h in sheets && b in blocks && !C.Inside(h, b)
    ensures b + blocks[b] <= h.lo || h.hi <= b
  {
    var f :| C.Home(sheets, blocks, b, f);
    assert f != h;
  }

  /** The granted block at x meets no other block of the tier. */
  lemma MeetsNone(g: map<nat, nat>, origin: nat, k: nat, s: C.State, h: C.Sheet, x: nat, n: nat, b: nat)
    requires C.Sound(s) && h in s.sheets && Backs(g, origin, k, s, h) && b in s.blocks
    requires h.lo <= Place(origin, k, x) && Place(origin, k, x) + (Shl(n, k) - HDR) <= h.hi && Shl(n, k) > HDR
    requires forall y :: y in g ==> Shl(g[y], k) > HDR && (x + n <= y || y + g[y] <= x)
    ensures C.Clear(Place(origin, k, x), Shl(n, k) - HDR, b, s.blocks[b])
  {
    hide Shl, C.CacheSound, C.Owned;
    if C.Inside(h, b) {
      hide C.BooksSound, Place;
      var y :| y in g && b == Place(origin, k, y);
      if x + n <= y {
        PlacesClear(origin, k, x, n, y, g[y]);
      } else {
        PlacesClear(origin, k, y, g[y], x, n);
      }
    } else {
      hide Place, Backs;
      ElsewhereClear(s.sheets, s.blocks, h, b);
    }
  }

  /** A grant is a step of the tier: fresh room for the request, inside the sheet. */
  lemma MarkStep(g: map<nat, nat>, origin: nat, k: nat, s: C.State, h: C.Sheet, x: nat, n: nat, sz: nat)
    requires C.Sound(s) && h in s.sheets && Backs(g, origin, k, s, h) && TC.LastFit(s.parked, sz % C.U32) < 0
    requires h.lo <= Place(origin, k, x) && Place(origin, k, x) + (Shl(n, k) - HDR) <= h.hi
    requires Shl(n, k) > HDR && sz <= Shl(n, k) - HDR
    requires forall y :: y in g ==> Shl(g[y], k) > HDR && (x + n <= y || y + g[y] <= x)
    ensures C.MarkNext(s, Marked(s, Place(origin, k, x), Shl(n, k) - HDR), sz, Place(origin, k, x), h)
    ensures x !in g && Backs(g[x := n], origin, k, Marked(s, Place(origin, k, x), Shl(n, k) - HDR), h)
  {
    hide Shl, C.Sound, TC.LastFit;
    var a := Place(origin, k, x);
    var t := Marked(s, a, Shl(n, k) - HDR);
    forall b | b in s.blocks
      ensures C.Clear(a, Shl(n, k) - HDR, b, s.blocks[b])
    {
      MeetsNone(g, origin, k, s, h, x, n, b);
    }
    PositiveBlocks(s);
    NotThere(s, a, Shl(n, k) - HDR);
    assert x !in g;
    forall c | c in t.blocks && C.Inside(h, c)
      ensures exists y :: y in g[x := n] && c == Place(origin, k, y)
    {
      if c == a {
        assert x in g[x := n];
      } else {
        var y :| y in g && c == Place(origin, k, y);
        assert y in g[x := n];
      }
    }
  }

  lemma NotThere(s: C.State, a: nat, n: nat)
    requires n > 0 && forall b :: b in s.blocks ==> s.blocks[b] > 0 && C.Clear(a, n, b, s.blocks[b])
    ensures a !in s.blocks
  {
  }

  lemma PositiveBlocks(s: C.State)
    requires C.Sound(s)
    ensures forall b :: b in s.blocks ==> s.blocks[b] > 0
  {
  }

  /** A block that leaves the book leaves the tier's blocks. */
  lemma UnbookStep(g: map<nat, nat>, origin: nat, k: nat, s: C.State, h: C.Sheet, x: nat)
    requires Backs(g, origin, k, s, h) && x in g
    ensures Backs(g - {x}, origin, k, C.Unbook(s, Place(origin, k, x)), h)
  {
    hide Shl;
    var t := C.Unbook(s, Place(origin, k, x));
    forall y | y in g - {x}
      ensures Place(origin, k, y) in t.blocks
    {
      if Place(origin, k, y) == Place(origin, k, x) {
        PlaceInjective(origin, k, x, y);
      }
    }
    forall c | c in t.blocks && C.Inside(h, c)
      ensures exists y :: y in g - {x} && c == Place(origin, k, y)
    {
      var y :| y in g && c == Place(origin, k, y);
      assert y in g - {x};
    }
  }

  /** A block of one sheet coming or going is nothing to another sheet's book. */
  lemma OthersStay(g: map<nat, nat>, origin: nat, k: nat, s: C.State, other: C.Sheet, addr: nat, size: nat)
    requires Backs(g, origin, k, s, other) && !C.Inside(other, addr)
    requires forall x :: x in g ==> C.Inside(other, Place(origin, k, x))
    ensures Backs(g, origin, k, Marked(s, addr, size), other)
    ensures Backs(g, origin, k, C.Unbook(s, addr), other)
  {
    hide Shl;
  }

  /** A sheet that just joined the tier has no block. */
  lemma NewIsEmpty(s: C.State, t: C.State, h: C.Sheet, origin: nat, k: nat)
    requires C.Sound(s) && C.ExpandNext(s, t, h)
    ensures Backs(map[], origin, k, t, h)
  {
    forall a | a in t.blocks
      ensures !C.Inside(h, a)
    {
      var f :| C.Home(s.sheets, s.blocks, a, f);
    }
  }

  /** Nothing granted is nothing in the sheet. */
  lemma IdleIsEmpty(g: map<nat, nat>, origin: nat, k: nat, s: C.State, h: C.Sheet)
    requires Backs(g, origin, k, s, h) && h in s.sheets && !h.head
    requires forall x :: x in g ==> C.Inside(h, Place(origin, k, x))
    ensures C.Idle(s, h) <==> g == map[]
  {
    hide Shl;
    if g != map[] {
      var x :| x in g;
      assert C.Inside(h, Place(origin, k, x));
    }
  }

  lemma NoneGranted(m: Layout)
    requires NoTemporals(m)
    ensures NoneLive(m) <==> Granted(m) == map[]
  {
    if !NoneLive(m) {
      var x :| x in m && (m[x].kind.Alloc? || m[x].kind.Temporal?);
      assert x in Granted(m);
    } else {
      assert forall x :: x !in Granted(m);
    }
  }

  lemma OccupiedTemporals(m: Layout)
    ensures NoTemporals(m) <==> forall y :: y in Occupied(m) ==> !Occupied(m)[y].kind.Temporal?
  {
    if !NoTemporals(m) {
      var y :| y in m && m[y].kind.Temporal?;
      assert y in Occupied(m);
    }
  }

  lemma GrantedOf(m: Layout, m': Layout, x: nat, g: Seg)
    requires x !in Occupied(m) && Occupied(m') == Occupied(m)[x := g] && g.kind.Alloc? && NoTemporals(m)
    ensures Granted(m') == Granted(m)[x := g.size] && NoTemporals(m')
  {
    assert forall y :: y in Granted(m') <==> y in Occupied(m') && Occupied(m')[y].kind.Alloc?;
    assert forall y :: y in Granted(m) <==> y in Occupied(m) && Occupied(m)[y].kind.Alloc?;
    OccupiedTemporals(m);
    OccupiedTemporals(m');
  }

  lemma GrantedLess(m: Layout, m': Layout, x: nat)
    requires x in m && m[x].kind.Alloc? && NoTemporals(m)
    requires Occupied(m') == Occupied(m) - {x} || m' == Retag(m, x, Tombstoned)
    ensures Granted(m') == Granted(m) - {x} && NoTemporals(m')
  {
    if Occupied(m') == Occupied(m) - {x} {
      assert forall y :: y in Granted(m') <==> y in Occupied(m') && Occupied(m')[y].kind.Alloc?;
      assert forall y :: y in Granted(m) <==> y in Occupied(m) && Occupied(m)[y].kind.Alloc?;
      OccupiedTemporals(m);
    OccupiedTemporals(m');
    }
  }

  /** A new block of a tiling meets no block granted before. */
  lemma NewApart(m: Layout, m': Layout, lo: nat, hi: nat, x: nat, g: Seg)
    requires Tiles(m', lo, hi) && x !in Occupied(m) && Occupied(m') == Occupied(m)[x := g] && !g.kind.Free?
    ensures lo <= x && x + g.size <= hi
    ensures forall y :: y in Granted(m) ==> x + g.size <= y || y + Granted(m)[y] <= x
  {
    assert x in Occupied(m') && m'[x] == g;
    forall y | y in Granted(m)
      ensures x + g.size <= y || y + Granted(m)[y] <= x
    {
      assert y in Occupied(m) && y in Occupied(m') && m'[y] == m[y];
    }
  }

  // ---- the buddy book ----

  /** Book b stands for sheet h of the tier: no temporal blocks, nothing lost, min-blocks larger than a header. */
  ghost predicate BuddySheet(b: B.Book, s: C.State, h: C.Sheet)
    reads b, b.tags, b.next, b.prev, b.hdrOrder, b.hdrFlags
  {
    && b.Valid() && b.log2Min > 5 && b.lost == 0 && NoTemporals(b.layout)
    && C.Sound(s) && h in s.sheets && h.lo <= b.base && b.base + b.total <= h.hi
    && Backs(Granted(b.layout), b.base, b.log2Min, s, h)
  }

  /** A new book stands for a new sheet. */
  lemma BuddyStart(b: B.Book, s: C.State, t: C.State, h: C.Sheet)
    requires b.Valid() && b.log2Min > 5 && b.lost == 0 && b.layout == map[0 := BL.FreeSeg(b.top)]
    requires C.Sound(s) && C.ExpandNext(s, t, h) && h.lo <= b.base && b.base + b.total <= h.hi
    ensures BuddySheet(b, t, h)
  {
    hide B.Book.Valid, C.Sound, Shl, Pow2;
    C.ExpandKeeps(s, t, h);
    NewIsEmpty(s, t, h, b.base, b.log2Min);
    assert Granted(b.layout) == map[];
  }

  /** Every block of large min-blocks outgrows its header. */
  lemma Outgrows(n: nat, k: nat)
    requires n > 0 && k > 5
    ensures Shl(n, k) > HDR
  {
    hide Pow2, Shl;
    Pow2Values();
    Pow2Mono(5, k);
    ShlPow2(0, k);
    OnePower();
    if n > 1 {
      ShlMono(1, n, k);
    }
  }

  lemma OnePower()
    ensures Pow2(0) == 1
  {
  }

  /** A granted block leaves room for nothing else where it lies. */
  lemma RoomFor(m: Layout, m': Layout, lo: nat, hi: nat, origin: nat, k: nat, h: C.Sheet, x: nat, n: nat)
    requires Tiles(m, lo, hi) && Tiles(m', lo, hi) && NoTemporals(m) && Within(h, origin, k, lo, hi)
    requires x !in Occupied(m) && Occupied(m') == Occupied(m)[x := Seg(n, Alloc)] && n > 0
    requires forall p: nat :: p > 0 && (p == n || p in Granted(m).Values) ==> Shl(p, k) > HDR
    ensures NoTemporals(m') && Granted(m') == Granted(m)[x := n]
    ensures h.lo <= Place(origin, k, x) && Place(origin, k, x) + (Shl(n, k) - HDR) <= h.hi && Shl(n, k) > HDR
    ensures forall y :: y in Granted(m) ==> Shl(Granted(m)[y], k) > HDR && (x + n <= y || y + Granted(m)[y] <= x)
  {
    hide Shl, NoTemporals, Place, Occupied;
    GrantedOf(m, m', x, Seg(n, Alloc));
    NewApart(m, m', lo, hi, x, Seg(n, Alloc));
    PlaceInside(h, origin, k, lo, hi, x, n);
    forall y | y in Granted(m)
      ensures Shl(Granted(m)[y], k) > HDR
    {
      assert Granted(m)[y] in Granted(m).Values;
    }
  }

  lemma BuddyWithin(b: B.Book, h: C.Sheet)
    requires b.Valid() && h.lo <= b.base && b.base + b.total <= h.hi
    ensures Within(h, b.base, b.log2Min, 0, Pow2(b.top))
  {
    hide Accounted, Shl;
    b.PoolSize();
    ShlZero(b.log2Min);
  }

  /** The tier's mark on a buddy sheet: null, or a step of the tier. */
  method BuddyMark(b: B.Book, ghost s: C.State, ghost h: C.Sheet, sz: nat) returns (r: Chunk, ghost t: C.State)
    requires BuddySheet(b, s, h) && TC.LastFit(s.parked, sz % C.U32) < 0
    modifies b, b.tags, b.next, b.prev, b.hdrOrder, b.hdrFlags
    ensures BuddySheet(b, t, h)
    ensures r.Null? <==> b.Refused(sz) || !BL.HasRoom(old(b.layout), B.OrderForSize(sz + B.HDR_OFFSET, b.log2Min), b.top)
    ensures r.Null? ==> b.layout == old(b.layout)
    ensures if r.Null? then t == s else C.MarkNext(s, t, sz, r.ptr, h) && t == Marked(s, r.ptr, r.len)
  {
    hide B.Book.ValidMasked, BL.Sound, BL.HasRoom, Accounted, B.OrderForSize, Pow2, Shl, C.Sound, TC.LastFit, C.MarkNext, Backs, NoTemporals;
    b.Unfold(FL.NIL);
    ghost var m := b.layout;
    r := b.Allocate(sz);
    t := s;
    if r.Chunk? {
      ghost var o := B.OrderForSize(sz + B.HDR_OFFSET, b.log2Min);
      ghost var x: nat :| b.GrantedAt(m, b.layout, r, x, o, Alloc);
      b.Unfold(FL.NIL);
      BuddyRoom(b, m, h, x, o);
      MarkStep(Granted(m), b.base, b.log2Min, s, h, x, Pow2(o), sz);
      t := Marked(s, r.ptr, r.len);
      C.MarkKeeps(s, t, sz, r.ptr, h);
    }
  }

  lemma BuddyRoom(b: B.Book, m: Layout, h: C.Sheet, x: nat, o: nat)
    requires b.Valid() && b.log2Min > 5 && BL.Sound(m, b.top) && BL.Sound(b.layout, b.top) && NoTemporals(m)
    requires h.lo <= b.base && b.base + b.total <= h.hi && BL.Carved(m, b.layout, x, o, Alloc)
    ensures var n, k := Pow2(o), b.log2Min;
            && NoTemporals(b.layout) && Granted(b.layout) == Granted(m)[x := n]
            && h.lo <= Place(b.base, k, x) && Place(b.base, k, x) + (Shl(n, k) - HDR) <= h.hi && Shl(n, k) > HDR
            && forall y :: y in Granted(m) ==> Shl(Granted(m)[y], k) > HDR && (x + n <= y || y + Granted(m)[y] <= x)
  {
    hide B.Book.Valid, BL.Dyadic, BL.Canonical, BL.Carved, Pow2, Shl, NoTemporals, Occupied, Place, Within, Tiles;
    BuddyWithin(b, h);
    BL.CarveOccupied(m, b.layout, x, o, Alloc, b.top);
    forall p: nat | p > 0
      ensures Shl(p, b.log2Min) > HDR
    {
      Outgrows(p, b.log2Min);
    }
    RoomFor(m, b.layout, 0, Pow2(b.top), b.base, b.log2Min, h, x, Pow2(o));
  }

  /** The granted block at addr went back and was merged upward. */
  ghost predicate Returned(b: B.Book, m: Layout, addr: nat)
    reads b
  {
    exists x: nat, o: nat :: ReturnedAt(b, m, addr, x, o)
  }

  ghost predicate ReturnedAt(b: B.Book, m: Layout, addr: nat, x: nat, o: nat)
    reads b
  {
    x in m && m[x] == Seg(Pow2(o), Alloc) && o <= b.top && b.Address(x) == addr && b.layout == BL.MergeUp(m, x, o, b.top)
  }

  /** The granted block at addr was tombstoned. */
  ghost predicate Buried(b: B.Book, m: Layout, addr: nat)
    reads b
  {
    exists x: nat :: x in m && m[x].kind.Alloc? && b.Address(x) == addr && b.layout == Retag(m, x, Tombstoned)
  }

  /** The tier's unmark on a buddy sheet takes out exactly the block it names. */
  method BuddyUnmark(b: B.Book, ghost s: C.State, ghost h: C.Sheet, addr: nat)
    requires BuddySheet(b, s, h) && addr in s.blocks && C.Inside(h, addr) && !TC.Holds(s.parked, addr)
    modifies b, b.tags, b.next, b.prev, b.hdrOrder, b.hdrFlags
    ensures BuddySheet(b, C.Unbook(s, addr), h) && Returned(b, old(b.layout), addr)
  {
    hide B.Book.ValidMasked, BL.Sound, Accounted, Pow2, Shl, C.Sound, NoTemporals, BL.MergeUp, Occupied;
    ghost var x: nat :| x in Granted(b.layout) && addr == Place(b.base, b.log2Min, x);
    b.Unfold(FL.NIL);
    ghost var m := b.layout;
    ghost var o := BuddyOrder(m, b.top, x);
    assert BS.UsedAt(b.layout, x, o) && addr == b.Address(x);
    var out := b.Deallocate(addr);
    assert ReturnedAt(b, m, addr, x, o);
    BL.MergeUpOccupied(m, x, o, b.top);
    GrantedLess(m, b.layout, x);
    UnbookStep(Granted(m), b.base, b.log2Min, s, h, x);
    C.UnbookKeeps(s, addr);
  }

  lemma BuddyOrder(m: Layout, top: nat, x: nat) returns (o: nat)
    requires BL.Sound(m, top) && x in m
    ensures o <= top && m[x].size == Pow2(o)
  {
    o := Log2(m[x].size);
    assert BL.DyadicBlock(m[x], x, top);
    BL.BlockBelowTop(m, top, x, o);
  }

  /** The tier's tombstone on a buddy sheet likewise. */
  method BuddyTombstone(b: B.Book, ghost s: C.State, ghost h: C.Sheet, addr: nat)
    requires BuddySheet(b, s, h) && addr in s.blocks && C.Inside(h, addr) && !TC.Holds(s.parked, addr)
    modifies b, b.tags, b.next, b.prev, b.hdrOrder, b.hdrFlags
    ensures BuddySheet(b, C.Unbook(s, addr), h) && Buried(b, old(b.layout), addr)
  {
    hide B.Book.ValidMasked, BL.Sound, Accounted, Pow2, Shl, C.Sound, NoTemporals, Occupied;
    ghost var x: nat :| x in Granted(b.layout) && addr == Place(b.base, b.log2Min, x);
    b.Unfold(FL.NIL);
    ghost var m := b.layout;
    ghost var o := BuddyOrder(m, b.top, x);
    assert b.Tombstonable(m, addr, x, o);
    var out := b.TombstoneBlock(addr);
    GrantedLess(m, b.layout, x);
    UnbookStep(Granted(m), b.base, b.log2Min, s, h, x);
    C.UnbookKeeps(s, addr);
  }

  /** used() == 0, as the reclaiming steps test it, says that the sheet holds no block. */
  lemma BuddyUsed(b: B.Book, s: C.State, h: C.Sheet)
    requires BuddySheet(b, s, h)
    ensures C.Idle(s, h) <==> b.allocatedBytes == 0 && !h.head
  {
    hide B.Book.ValidMasked, BL.Sound, Accounted, Pow2, Shl, C.Sound, NoTemporals, NoneLive, C.Idle, Backs;
    b.UsedTells();
    NoneGranted(b.layout);
    b.Unfold(FL.NIL);
    forall x | x in Granted(b.layout)
      ensures C.Inside(h, Place(b.base, b.log2Min, x))
    {
      BuddyInside(b, h, x);
    }
    HeadStays(s, h);
    if !h.head {
      IdleIsEmpty(Granted(b.layout), b.base, b.log2Min, s, h);
    }
  }

  lemma HeadStays(s: C.State, h: C.Sheet)
    ensures C.Idle(s, h) ==> !h.head
  {
  }

  lemma BuddyInside(b: B.Book, h: C.Sheet, x: nat)
    requires b.Valid() && x in b.layout && h.lo <= b.base && b.base + b.total <= h.hi
    ensures C.Inside(h, Place(b.base, b.log2Min, x))
  {
    hide Accounted, Shl;
    BS.InsidePool(b.layout, b.top, x);
    b.AddressInPool(x);
  }

  // ---- the TLSF book ----

  /** Book b stands for sheet h of the tier: no temporal blocks and nothing lost. */
  ghost predicate TlsfSheet(b: T.Book, s: C.State, h: C.Sheet)
    reads b, b.size, b.flags, b.back, b.next, b.prev
  {
    && b.Valid() && b.lost == 0 && NoTemporals(b.layout)
    && C.Sound(s) && h in s.sheets && h.lo <= b.base && b.base + b.total + 2 * HDR <= h.hi
    && Backs(Granted(b.layout), b.base + HDR, T.UNIT_LOG2, s, h)
  }

  lemma TlsfStart(b: T.Book, s: C.State, t: C.State, h: C.Sheet)
    requires b.Valid() && b.lost == 0 && b.layout == map[TL.FIRST := Seg(b.hi - TL.FIRST, Free)]
    requires C.Sound(s) && C.ExpandNext(s, t, h) && h.lo <= b.base && b.base + b.total + 2 * HDR <= h.hi
    ensures TlsfSheet(b, t, h)
  {
    hide T.Book.Valid, C.Sound, Shl;
    C.ExpandKeeps(s, t, h);
    NewIsEmpty(s, t, h, b.base + HDR, T.UNIT_LOG2);
    assert Granted(b.layout) == map[];
  }

  lemma TlsfPlace(b: T.Book, x: nat)
    ensures Place(b.base + HDR, T.UNIT_LOG2, x) == b.Address(x)
  {
    hide Shl;
    b.ShlUnits(x);
  }

  lemma TlsfWithin(b: T.Book, h: C.Sheet)
    requires b.Valid() && h.lo <= b.base && b.base + b.total + 2 * HDR <= h.hi
    ensures Within(h, b.base + HDR, T.UNIT_LOG2, TL.FIRST, b.hi)
  {
    hide Shl, Accounted, TS.SlotsOk, TS.Pictures;
    b.Rows();
    b.ShlUnits(TL.FIRST);
    b.ShlUnits(b.hi);
  }

  lemma TlsfRoom(b: T.Book, m: Layout, h: C.Sheet, x: nat)
    requires b.Valid() && TL.Sound(m, b.hi) && TL.Sound(b.layout, b.hi) && NoTemporals(m)
    requires h.lo <= b.base && b.base + b.total + 2 * HDR <= h.hi
    requires x in b.layout && b.layout[x].kind.Alloc? && x !in Occupied(m) && Occupied(b.layout) == Occupied(m)[x := b.layout[x]]
    ensures var n, k, origin := b.layout[x].size, T.UNIT_LOG2, b.base + HDR;
            && NoTemporals(b.layout) && Granted(b.layout) == Granted(m)[x := n] && Shl(n, k) == TM.ALIGN * n
            && h.lo <= Place(origin, k, x) && Place(origin, k, x) + (Shl(n, k) - HDR) <= h.hi && Shl(n, k) > HDR
            && forall y :: y in Granted(m) ==> Shl(Granted(m)[y], k) > HDR && (x + n <= y || y + Granted(m)[y] <= x)
  {
    hide T.Book.Valid, TL.Apart, Shl, NoTemporals, Occupied, Place, Within, Tiles;
    TlsfWithin(b, h);
    var n := b.layout[x].size;
    b.ShlUnits(n);
    LargeUnits(m, b.hi);
    LargeUnits(b.layout, b.hi);
    forall p: nat | p > 0 && (p == n || p in Granted(m).Values)
      ensures Shl(p, T.UNIT_LOG2) > HDR
    {
      b.ShlUnits(p);
    }
    RoomFor(m, b.layout, TL.FIRST, b.hi, b.base + HDR, T.UNIT_LOG2, h, x, n);
  }

  lemma LargeUnits(m: Layout, hi: nat)
    requires TL.Sound(m, hi)
    ensures forall x :: x in m ==> m[x].size >= TL.MIN_UNITS
  {
  }

  /** Some free block of the book is large enough for the request and lies where it is searched for. */
  ghost predicate TlsfFits(b: T.Book, sz: nat)
    reads b
  {
    var needed := TM.AdjustedBlockSize(sz);
    needed != 0 && TM.Searchable(needed) && TS.HasFit(b.layout, needed)
  }

  /** The tier's mark on a TLSF sheet: null, or a step of the tier. */
  method TlsfMark(b: T.Book, ghost s: C.State, ghost h: C.Sheet, sz: nat) returns (r: Chunk, ghost t: C.State)
    requires TlsfSheet(b, s, h) && TC.LastFit(s.parked, sz % C.U32) < 0 && b.Serves(sz)
    modifies b, b.size, b.flags, b.back, b.next, b.prev
    ensures TlsfSheet(b, t, h)
    ensures r.Null? <==> !old(TlsfFits(b, sz))
    ensures r.Null? ==> b.layout == old(b.layout)
    ensures if r.Null? then t == s else C.MarkNext(s, t, sz, r.ptr, h) && t == Marked(s, r.ptr, r.len)
  {
    hide T.Book.ValidBut, TL.Sound, Accounted, TS.SlotsOk, TS.HasFit, TS.Suits, TM.SearchClass, TM.Class, Shl;
    hide C.Sound, TC.LastFit, C.MarkNext, Backs, NoTemporals, Occupied, TS.Temporals;
    b.Listing();
    ghost var m := b.layout;
    r := b.Allocate(sz);
    t := s;
    if r.Chunk? {
      ghost var needed := TM.AdjustedBlockSize(sz);
      ghost var x: nat :| x in b.layout && b.GrantedAt(m, r, x, needed, Alloc);
      T.GrantedKind(m, b.layout, x, needed, Alloc);
      b.Listing();
      OccupiedSame(b.layout, x);
      TlsfRoom(b, m, h, x);
      TlsfPlace(b, x);
      MarkStep(Granted(m), b.base + HDR, T.UNIT_LOG2, s, h, x, b.layout[x].size, sz);
      t := Marked(s, r.ptr, r.len);
      C.MarkKeeps(s, t, sz, r.ptr, h);
    }
  }

  lemma OccupiedSame(m: Layout, x: nat)
    requires x in m && !m[x].kind.Free?
    ensures x in Occupied(m) && Occupied(m)[x] == m[x]
  {
  }

  /** The granted block at addr went back: it is in use no longer, and every other block is as it was. */
  ghost predicate Released(b: T.Book, m: Layout, addr: nat)
    reads b
  {
    exists x: nat :: x in m && m[x].kind.Alloc? && b.Address(x) == addr && Occupied(b.layout) == Occupied(m) - {x}
  }

  /** The granted block at addr was tombstoned. */
  ghost predicate Entombed(b: T.Book, m: Layout, addr: nat)
    reads b
  {
    exists x: nat :: x in m && m[x].kind.Alloc? && b.Address(x) == addr && b.layout == Retag(m, x, Tombstoned)
  }

  /** The tier's unmark on a TLSF sheet takes out exactly the block it names. */
  method TlsfUnmark(b: T.Book, ghost s: C.State, ghost h: C.Sheet, addr: nat)
    requires TlsfSheet(b, s, h) && addr in s.blocks && C.Inside(h, addr) && !TC.Holds(s.parked, addr)
    modifies b, b.size, b.flags, b.back, b.next, b.prev
    ensures TlsfSheet(b, C.Unbook(s, addr), h) && Released(b, old(b.layout), addr)
  {
    hide T.Book.ValidBut, TL.Sound, Accounted, TS.SlotsOk, Shl, C.Sound, NoTemporals, Occupied, TS.Temporals;
    ghost var x: nat :| x in Granted(b.layout) && addr == Place(b.base + HDR, T.UNIT_LOG2, x);
    TlsfPlace(b, x);
    ghost var m := b.layout;
    T.Started(b, addr, x);
    var out := b.Deallocate(addr);
    GrantedLess(m, b.layout, x);
    UnbookStep(Granted(m), b.base + HDR, T.UNIT_LOG2, s, h, x);
    C.UnbookKeeps(s, addr);
  }

  /** The tier's tombstone on a TLSF sheet likewise. */
  method TlsfTombstone(b: T.Book, ghost s: C.State, ghost h: C.Sheet, addr: nat)
    requires TlsfSheet(b, s, h) && addr in s.blocks && C.Inside(h, addr) && !TC.Holds(s.parked, addr)
    modifies b, b.size, b.flags, b.back, b.next, b.prev
    ensures TlsfSheet(b, C.Unbook(s, addr), h) && Entombed(b, old(b.layout), addr)
  {
    hide T.Book.ValidBut, TL.Sound, Accounted, TS.SlotsOk, Shl, C.Sound, NoTemporals, Occupied, TS.Temporals;
    ghost var x: nat :| x in Granted(b.layout) && addr == Place(b.base + HDR, T.UNIT_LOG2, x);
    TlsfPlace(b, x);
    ghost var m := b.layout;
    T.Started(b, addr, x);
    assert b.Tombstonable(m, addr, x);
    var out := b.TombstoneBlock(addr);
    GrantedLess(m, b.layout, x);
    UnbookStep(Granted(m), b.base + HDR, T.UNIT_LOG2, s, h, x);
    C.UnbookKeeps(s, addr);
  }

  /** used() == 0, as the reclaiming steps test it, says that the sheet holds no block. */
  lemma TlsfUsed(b: T.Book, s: C.State, h: C.Sheet)
    requires TlsfSheet(b, s, h)
    ensures C.Idle(s, h) <==> b.allocatedBytes == 0 && !h.head
  {
    hide T.Book.ValidBut, TL.Sound, Accounted, TS.SlotsOk, Shl, C.Sound, NoTemporals, NoneLive, C.Idle, Backs, TS.Temporals;
    b.UsedTells();
    NoneGranted(b.layout);
    forall x | x in Granted(b.layout)
      ensures C.Inside(h, Place(b.base + HDR, T.UNIT_LOG2, x))
    {
      TlsfInside(b, h, x);
    }
    HeadStays(s, h);
    if !h.head {
      IdleIsEmpty(Granted(b.layout), b.base + HDR, T.UNIT_LOG2, s, h);
    }
  }

  lemma TlsfInside(b: T.Book, h: C.Sheet, x: nat)
    requires b.Valid() && x in b.layout && h.lo <= b.base && b.base + b.total + 2 * HDR <= h.hi
    ensures C.Inside(h, Place(b.base + HDR, T.UNIT_LOG2, x))
  {
    hide Accounted, Shl, TS.SlotsOk, TS.Pictures;
    b.Rows();
    InLayout(b, x);
    TlsfPlace(b, x);
  }

  lemma InLayout(b: T.Book, x: nat)
    requires b.Valid() && x in b.layout
    ensures TL.FIRST <= x && x + b.layout[x].size <= b.hi && b.layout[x].size > 0
  {
    hide Accounted, TS.SlotsOk;
    b.Listing();
  }
}
