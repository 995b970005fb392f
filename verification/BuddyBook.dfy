/** The buddy book: block tags, intrusive free lists, a free mask and tail headers over one pool. */
module BuddyBook {
  import opened Powers
  import opened Words
  import opened Tiling
  import opened BuddyLayout
  import opened FreeList
  import opened BuddyState
  import opened Accounts
  import opened BuddyAccounts

  /** Depth of the temporal cache of one order. */
  const CACHE_CAP: int := 4

  /** Bytes set aside at the tail of a block for its header. */
  const HDR_OFFSET: nat := 32

  function OrderSize(o: nat, log2Min: nat): nat
  {
    Shl(Pow2(o), log2Min)
  }

  lemma OrderSizeFits(o: nat, k: nat)
    requires k >= 5
    ensures OrderSize(o, k) >= HDR_OFFSET
  {
    ShlPow2(o, k);
    Pow2Values();
    if 5 < o + k {
      Pow2Mono(5, o + k);
    }
  }

  /** Bytes of an order-o block left to the client. */
  function Payload(o: nat, k: nat): nat
    requires k >= 5
  {
    OrderSizeFits(o, k);
    OrderSize(o, k) - HDR_OFFSET
  }

  /** The smallest order whose blocks hold n bytes. */
  function OrderForSize(n: nat, log2Min: nat): (o: nat)
    requires n > 0
    ensures n <= OrderSize(o, log2Min)
    ensures o > 0 ==> OrderSize(o - 1, log2Min) < n
  {
    var units := Shr(n - 1, log2Min) + 1;
    ShrBounds(n - 1, log2Min);
    if units <= 1 then 0
    else
      CeilLog2(units, n, log2Min);
      Log2(units - 1) + 1
  }

  lemma CeilLog2(units: nat, n: nat, k: nat)
    requires units > 1 && Shl(units - 1, k) < n <= Shl(units, k)
    ensures n <= OrderSize(Log2(units - 1) + 1, k) && OrderSize(Log2(units - 1), k) < n
  {
    var l := Log2(units - 1);
    ShlMono(Pow2(l + 1), units, k);
    ShlMono(units - 1, Pow2(l), k);
  }

  /** The tests of an exact request single out the sizes that are some order's block size. */
  lemma ExactTest(n: nat, k: nat)
    requires n > 0
    ensures n == OrderSize(OrderForSize(n, k), k) <==> Shl(1, k) <= n && And(n, n - 1) == 0
  {
    PowerTest(n);
    ShlPow2(0, k);
    var o := OrderForSize(n, k);
    ShlPow2(o, k);
    Pow2Le(k, o + k);
    if n == Pow2(o + k) {
      Log2Unique(n, o + k);
    }
    if Shl(1, k) <= n && n == Pow2(Log2(n)) {
      PowerIsOrder(n, k, Log2(n));
    }
  }

  lemma PowerIsOrder(n: nat, k: nat, l: nat)
    requires n == Pow2(l) && Pow2(k) <= n
    ensures n == OrderSize(OrderForSize(n, k), k)
  {
    hide OrderForSize, Shl, Pow2;
    var o := OrderForSize(n, k);
    ShlPow2(o, k);
    if o > 0 {
      ShlPow2(o - 1, k);
      PowerBetween(l, o + k);
    }
  }

  lemma PowerBetween(l: nat, q: nat)
    requires q > 0 && Pow2(q - 1) < Pow2(l) <= Pow2(q)
    ensures l == q
  {
    hide Pow2;
    if l < q - 1 {
      Pow2Mono(l, q - 1);
    } else if q < l {
      Pow2Mono(q, l);
    }
  }

  lemma TopOrder(total: nat, k: nat)
    requires 0 < total < WORD_SIZE && Aligned(total, k)
    ensures Shr(total, k) > 0 && Log2(Shr(total, k)) < ORDERS
    ensures OrderSize(Log2(Shr(total, k)), k) <= total < OrderSize(Log2(Shr(total, k)) + 1, k)
  {
    AlignedShr(total, k);
    var u := Shr(total, k);
    if u == 0 {
      ShlZero(k);
    }
    var l := Log2(u);
    ShlMono(u, Pow2(l), k);
    ShlMono(u, Pow2(l + 1), k);
    ShrSmaller(total, k);
    Pow2Values();
    if l >= 64 {
      Pow2Le(64, l);
    }
  }

  /** Tags of a pool that is one free block. */
  method NewTags(units: nat, top: nat) returns (t: array<int>)
    requires units > 0
    ensures fresh(t) && t.Length == units && t[..] == Filled(units, TAG_NONE)[0 := TAG_FREE + top]
  {
    t := NewFilled(units, TAG_NONE);
    t[0] := TAG_FREE + top;
  }

  class Book {
    const log2Min: nat          // a min-block is 1 << log2Min bytes
    const base: nat             // address of the pool
    const top: nat              // max_order - 1
    const total: nat            // usable bytes, a whole number of min-blocks

    // one entry per min-block
    const tags: array<int>
    const next: array<int>
    const prev: array<int>
    const hdrOrder: array<int>
    const hdrFlags: array<int>

    // one entry per order
    var heads: seq<int>
    var freeMask: nat
    var tcache: seq<int>
    var tcacheCount: seq<int>
    var active: seq<int>        // two ring entries per order
    var rotor: seq<int>

    var allocatedBytes: int
    var tombstonedBytes: int

    ghost var layout: Layout
    ghost var lists: seq<seq<nat>>
    ghost var parked: seq<seq<nat>>
    ghost var parkedBack: seq<int>
    ghost var lost: int              // bytes of tombstoned blocks that were freed
    ghost var tainted: set<nat>      // orders of temporal blocks that were tombstoned

    ghost predicate Separate()
    {
      && tags != next && tags != prev && tags != hdrOrder && tags != hdrFlags
      && next != prev && next != hdrOrder && next != hdrFlags
      && prev != hdrOrder && prev != hdrFlags && hdrOrder != hdrFlags
      && next.Length == prev.Length == hdrOrder.Length == hdrFlags.Length == tags.Length
      && top < ORDERS
      && Pow2(top) <= tags.Length
    }

    ghost predicate FreeLinks()
      reads this, next, prev
    {
      LinksWith(freeMask)
    }

    /** The lists are well linked and `mask` marks the nonempty ones. */
    ghost predicate LinksWith(mask: nat)
      reads `heads, `lists, next, prev
    {
      && |heads| == |lists| == ORDERS
      && Chains(next[..], prev[..], heads, lists)
      && MaskOk(mask, lists)
    }

    ghost predicate ParkedLinks()
      reads `tcache, `tcacheCount, `parked, `parkedBack, next
    {
      && |tcache| == |tcacheCount| == |parked| == ORDERS
      && |parkedBack| == next.Length
      && Chains(next[..], parkedBack, tcache, parked)
      && forall o :: 0 <= o < ORDERS ==> tcacheCount[o] == |parked[o]| <= CACHE_CAP
    }

    /** The parked blocks of order o, most recent first. */
    ghost function ParkedOf(o: nat): seq<nat>
      reads this`parked
    {
      if o < |parked| then parked[o] else []
    }

    /** The parked blocks of order o are these, and those of every other order as before. */
    ghost predicate Reparked(parked0: seq<seq<nat>>, o: nat, ids: seq<nat>)
      reads `parked
    {
      o < |parked0| && parked == parked0[o := ids]
    }

    /** A pool of whole min-blocks starts as one free block of the highest order that fits. */
    constructor (base: nat, total: nat, log2Min: nat)
      requires base > 0 && log2Min >= 5 && Aligned(total, log2Min) && 0 < total < WORD_SIZE
      ensures Valid()
      ensures this.base == base && this.total == total && this.log2Min == log2Min
      ensures OrderSize(top, log2Min) <= total < OrderSize(top + 1, log2Min)
      ensures layout == map[0 := FreeSeg(top)] && tainted == {} && lost == 0
      ensures fresh(tags) && fresh(next) && fresh(prev) && fresh(hdrOrder) && fresh(hdrFlags)
    {
      hide Valid, Filled, FreshHeads, FreshLists, NoHeads, NoLists, Pow2, Log2, Shl, Shr, Set, OrderSize, Aligned;
      AlignedShr(total, log2Min);
      TopOrder(total, log2Min);
      var units := Shr(total, log2Min);
      var top := Log2(units);
      this.log2Min, this.base, this.total, this.top := log2Min, base, total, top;
      var t := NewTags(units, top);
      var nx := NewFilled(units, NIL);
      tags, next := t, nx;
      prev, hdrOrder, hdrFlags := new int[units], new int[units], new int[units];
      heads := FreshHeads(top);
      freeMask := Set(0, top, ORDERS);
      tcache, tcacheCount := NoHeads(), Filled(ORDERS, 0);
      active, rotor := Filled(2 * ORDERS, NIL), Filled(ORDERS, 0);
      allocatedBytes, tombstonedBytes := 0, 0;
      layout := map[0 := FreeSeg(top)];
      lists, parked := FreshLists(top), NoLists();
      parkedBack := Filled(units, NIL);
      tainted, lost := {}, 0;
      new;
      Started(units);
    }

    /** The fields as the constructor leaves them. */
    ghost predicate Starting(units: nat)
      reads this, tags, next
    {
      && Separate() && units == tags.Length > 0
      && tags[..] == Filled(units, TAG_NONE)[0 := TAG_FREE + top]
      && next[..] == Filled(units, NIL)
      && heads == FreshHeads(top) && lists == FreshLists(top) && freeMask == Set(0, top, ORDERS)
      && tcache == NoHeads() && parked == NoLists() && tcacheCount == Filled(ORDERS, 0)
      && parkedBack == Filled(units, NIL)
      && active == Filled(2 * ORDERS, NIL) && rotor == Filled(ORDERS, 0)
      && layout == map[0 := FreeSeg(top)] && tainted == {}
      && allocatedBytes == tombstonedBytes == lost == 0
      && log2Min >= 5 && base > 0 && total == Shl(tags.Length, log2Min) < WORD_SIZE
    }

    lemma Started(units: nat)
      requires Starting(units)
      ensures Valid()
    {
      hide Pictures, Chains, MaskOk, FreshHeads, FreshLists, NoHeads, NoLists, Accounted, Shl;
      InitialPictures(top, units, hdrOrder[..], hdrFlags[..]);
      InitialChains(next[..], prev[..], parkedBack, top);
      InitialMask(top);
      EmptyAccounted(layout, log2Min);
    }

    predicate LinkValid(n: int)
    {
      n == NIL || 0 <= n < tags.Length
    }

    /** Unlink the free block at b from the list of order o. */
    method FreelistRemove(b: nat, o: nat) returns (ok: bool)
      requires Separate() && FreeLinks()
      requires o < ORDERS && b in lists[o]
      modifies this`heads, this`freeMask, this`lists, next, prev
      ensures ok && FreeLinks()
      ensures Removed(old(lists), lists, o, b)
      ensures OnlyListed(old(lists), NIL, old(next[..]), next[..])
    {
      ghost var l := lists[o];
      ghost var k :| 0 <= k < |l| && l[k] == b;
      assert Chain(next[..], prev[..], heads[o], l);
      NextInRange(next[..], prev[..], heads[o], l, k);
      var nx := next[b];
      if heads[o] == b {
        ChainsPop(next[..], prev[..], heads, lists, o);
        if !LinkValid(nx) {
          assert false;
        }
        heads := heads[o := nx];
        lists := lists[o := l[1..]];
        if nx == NIL {
          freeMask := Clear(freeMask, o, ORDERS);
        }
        return true;
      }
      ChainsUnlink(next[..], prev[..], heads, lists, o, k);
      var pv := prev[b];
      if !LinkValid(nx) || !LinkValid(pv) || pv == NIL || next[pv] != b || (nx != NIL && prev[nx] != b) {
        assert false;
      }
      next[pv] := nx;
      if nx != NIL {
        prev[nx] := pv;
      }
      WithoutMembers(l, k);
      lists := lists[o := Without(l, k)];
      return true;
    }

    /** Link x in at the head of list o and keep the mask in step. */
    method LinkAtHead(x: nat, o: nat, mask: nat) returns (mask': nat)
      requires Separate() && LinksWith(mask)
      requires o < ORDERS && x < next.Length && !Listed(lists, x)
      modifies this`heads, this`lists, next, prev
      ensures LinksWith(mask')
      ensures lists == old(lists)[o := [x] + old(lists)[o]]
      ensures OnlyListed(old(lists), x, old(next[..]), next[..])
    {
      ChainsPush(next[..], prev[..], heads, lists, o, x);
      hide MaskOk, Listed;
      mask' := mask;
      var head := heads[o];
      assert head == At(lists[o], 0);
      next[x] := head;
      if head != NIL {
        prev[head] := x;
        MaskKeeps(mask, lists, o, [x] + lists[o]);
      } else {
        MaskSet(mask, lists, o, [x] + lists[o]);
        mask' := Set(mask, o, ORDERS);
      }
      heads := heads[o := x];
      lists := lists[o := [x] + lists[o]];
    }

    /** Everything but the byte counters, with the mask given. The block at `hole` is in transit: its tag and header are stale. */
    ghost predicate ValidMasked(hole: int, mask: nat)
      reads `heads, `lists, `layout, `tcache, `tcacheCount, `parked, `parkedBack, `active, `tainted
      reads tags, next, prev, hdrOrder, hdrFlags
    {
      && Separate() && LinksWith(mask) && ParkedLinks()
      && Pictures(layout, top, tags[..], hdrOrder[..], hdrFlags[..], lists, parked, active, tainted, hole)
    }

    ghost predicate ValidBut(hole: int)
      reads `freeMask, `heads, `lists, `layout, `tcache, `tcacheCount, `parked, `parkedBack, `active, `tainted
      reads tags, next, prev, hdrOrder, hdrFlags
    {
      ValidMasked(hole, freeMask)
    }

    /** Put the block at x on the free list of order o. */
    method FreelistPush(x: nat, o: nat)
      requires ValidBut(x) && Transit(layout, x, o) && o <= top
      requires o < top ==> !FreeAt(layout, BuddyOf(x, o), o)
      modifies this`heads, this`freeMask, this`lists, this`layout, tags, next, prev
      ensures ValidBut(NIL)
      ensures layout == Retag(old(layout), x, Free)
    {
      hide Pictures, Chains, OnlyListed, MaskOk;
      ghost var n0, l0, m := next[..], lists, layout;
      TransitUnlisted(m, top, tags[..], hdrOrder[..], hdrFlags[..], l0, parked, active, tainted, x, o);
      PushPictures(m, top, tags[..], hdrOrder[..], hdrFlags[..], l0, parked, active, tainted, x, o);
      freeMask := LinkAtHead(x, o, freeMask);
      assert ParkedLinks() by {
        ParkedUndisturbed(m, l0, parked, n0, next[..], parkedBack, tcache, x);
      }
      tags[x] := TAG_FREE + o;
      layout := Retag(layout, x, Free);
    }

    /** Pop the head of list `from`; its mask bit goes when the list runs empty. */
    method PopHead(from: nat) returns (blk: nat, mask: nat)
      requires ValidBut(NIL) && from <= top && lists[from] != []
      modifies this`heads, this`lists, this`layout
      ensures blk == old(lists)[from][0] && FreeAt(old(layout), blk, from)
      ensures layout == Retag(old(layout), blk, Alloc) && Sound(layout, top)
      ensures ValidMasked(blk, mask)
    {
      hide Pictures, Chains, MaskOk, Sound, Pow2, Clear, Fits;
      TakePictures(layout, top, tags[..], hdrOrder[..], hdrFlags[..], lists, parked, active, tainted,
                   next[..], prev[..], heads, from);
      ChainsPop(next[..], prev[..], heads, lists, from);
      blk := heads[from];
      var nx := next[blk];
      mask := freeMask;
      PopNext(next[..], prev[..], heads, lists, from);
      if !LinkValid(nx) {
        assert false;
      }
      if nx == NIL {
        MaskClear(mask, lists, from);
        assert lists[from][1..] == [];
        mask := Clear(mask, from, ORDERS);
      } else {
        MaskKeeps(mask, lists, from, lists[from][1..]);
      }
      heads := heads[from := nx];
      lists := lists[from := lists[from][1..]];
      layout := Retag(layout, blk, Alloc);
    }

    /** One turn of the split loop: the right half of the block at blk joins the list of order h. */
    method SplitStep(blk: nat, h: nat, mask: nat) returns (mask': nat)
      requires ValidMasked(blk, mask) && h < top && Transit(layout, blk, h + 1)
      modifies this`heads, this`lists, this`layout, tags, next, prev
      ensures layout == SplitAt(old(layout), blk, Pow2(h))
      ensures Transit(layout, blk, h)
      ensures ValidMasked(blk, mask')
    {
      hide Pictures, Chains, OnlyListed, MaskOk, Listed, FreeListed, ParkedListed;
      ghost var m, n0, l0 := layout, next[..], lists;
      SplitPictures(m, top, tags[..], hdrOrder[..], hdrFlags[..], l0, parked, active, tainted, blk, h);
      var right := blk + Pow2(h);
      mask' := LinkAtHead(right, h, mask);
      assert ParkedLinks() by {
        ParkedUndisturbed(m, l0, parked, n0, next[..], parkedBack, tcache, right);
      }
      tags[right] := TAG_FREE + h;
      layout := SplitAt(layout, blk, Pow2(h));
    }

    /** Take the head of list `from` and halve it down to order `target`. */
    method TakeAndSplit(from: nat, target: nat) returns (blk: nat)
      requires ValidBut(NIL) && target <= from <= top && lists[from] != []
      modifies this`heads, this`freeMask, this`lists, this`layout, tags, next, prev
      ensures blk == old(lists)[from][0] && FreeAt(old(layout), blk, from)
      ensures layout == SplitDown(Retag(old(layout), blk, Alloc), blk, from, target)
      ensures Transit(layout, blk, target)
      ensures ValidBut(blk)
    {
      hide ValidMasked, SplitAt, Sound;
      var mask;
      blk, mask := PopHead(from);
      ghost var m0 := layout;
      assert Transit(m0, blk, from);
      var cur := from;
      while cur > target
        invariant target <= cur <= from
        invariant ValidMasked(blk, mask)
        invariant Transit(layout, blk, cur)
        invariant SplitDown(layout, blk, cur, target) == SplitDown(m0, blk, from, target)
      {
        mask := SplitStep(blk, cur - 1, mask);
        cur := cur - 1;
      }
      freeMask := mask;
    }

    /** One turn of the merge loop: the free buddy leaves its list and joins the block in transit. */
    method MergeStep(off: nat, o: nat) returns (parent: nat)
      requires ValidBut(off) && o < top && Transit(layout, off, o) && FreeAt(layout, BuddyOf(off, o), o)
      modifies this`heads, this`freeMask, this`lists, this`layout, tags, next, prev
      ensures layout == Join(old(layout), off, BuddyOf(off, o))
      ensures parent == (if BuddyOf(off, o) < off then BuddyOf(off, o) else off) && Transit(layout, parent, o + 1)
      ensures ValidBut(parent)
    {
      hide Pictures, Chains, OnlyListed, MaskOk, Removed, Join;
      ghost var m, n0, l0 := layout, next[..], lists;
      BuddyTag(m, top, tags[..], hdrOrder[..], hdrFlags[..], l0, parked, active, tainted, off, o);
      var buddy := Xor(off, Pow2(o));
      var ok := FreelistRemove(buddy, o);
      JoinPictures(m, top, tags[..], hdrOrder[..], hdrFlags[..], l0, lists, parked, active, tainted, off, o);
      assert ParkedLinks() by {
        JoinUndisturbed(m, top, tags[..], hdrOrder[..], hdrFlags[..], l0, parked, active, tainted,
                        n0, next[..], parkedBack, tcache, off);
      }
      tags[if buddy > off then buddy else off] := TAG_NONE;
      layout := Join(layout, off, buddy);
      parent := if buddy < off then buddy else off;
    }

    /** Free the block in transit: merge upward while the buddy is free, then list the result. */
    method MergeAndFree(start: nat, order: nat)
      requires ValidBut(start) && order <= top && Transit(layout, start, order)
      modifies this`heads, this`freeMask, this`lists, this`layout, tags, next, prev
      ensures layout == MergeUp(old(layout), start, order, top)
      ensures ValidBut(NIL)
    {
      hide Pictures, Chains, ParkedLinks, FreeAt, Join;
      var off, o := start, order;
      while o < top
        invariant o <= top && ValidBut(off) && Transit(layout, off, o)
        invariant MergeUp(layout, off, o, top) == MergeUp(old(layout), start, order, top)
      {
        BuddyTag(layout, top, tags[..], hdrOrder[..], hdrFlags[..], lists, parked, active, tainted, off, o);
        if tags[Xor(off, Pow2(o))] != TAG_FREE + o {
          break;
        }
        off := MergeStep(off, o);
        o := o + 1;
      }
      FreelistPush(off, o);
    }

    // ---- the book's operations ----

    ghost predicate Valid()
      reads this, tags, next, prev, hdrOrder, hdrFlags
    {
      && ValidBut(NIL)
      && Accounted(layout, allocatedBytes, tombstonedBytes, lost, log2Min)
      && |rotor| == ORDERS && (forall o :: 0 <= o < ORDERS ==> 0 <= rotor[o] <= 1)
      && log2Min >= 5 && base > 0 && total == Shl(tags.Length, log2Min) < WORD_SIZE
    }

    function Address(s: nat): nat
    {
      base + Shl(s, log2Min)
    }

    /** The first nonempty order at or above o, from the mask. */
    method FindFreeOrder(o: nat) returns (i: nat)
      requires ValidBut(NIL) && o <= top
      ensures i <= top ==> o <= i && lists[i] != []
      ensures forall p :: o <= p < i && p <= top ==> lists[p] == []
      ensures i > top ==> forall s: nat, q: nat :: o <= q ==> !FreeAt(layout, s, q)
      ensures i <= top ==> forall s: nat, q: nat :: o <= q < i ==> !FreeAt(layout, s, q)
    {
      hide Chains, SlotsOk, HeadersOk, TagsOk, ParkedListed, FreeListed, MaskOk, Dyadic, Tiles, Lonely, Shr, Ctz;
      var m := Shr(freeMask, o);
      if m == 0 {
        i := top + 1;
      } else {
        i := o + Ctz(m);
      }
      MaskScan(freeMask, lists, layout, top, o, i);
    }

    /** Write the tag and tail header of the block in transit; `slots` becomes the ring table. */
    method Stamp(blk: nat, o: nat, ghost k: Kind, flag: int, slots: seq<int>)
      requires ValidBut(blk) && Transit(layout, blk, o) && o <= top && InUse(k) && flag == FlagOf(k)
      requires SlotsOk(Retag(layout, blk, k), slots, tainted)
      modifies this`active, this`layout, tags, hdrOrder, hdrFlags
      ensures ValidBut(NIL)
      ensures layout == Retag(old(layout), blk, k)
    {
      hide Pictures, Chains, SlotsOk, MaskOk;
      StampPictures(layout, top, tags[..], hdrOrder[..], hdrFlags[..], lists, parked, active, slots, tainted, blk, o, k);
      var tail := blk + Pow2(o) - 1;
      hdrOrder[tail] := o;
      hdrFlags[tail] := flag;
      tags[blk] := o;
      active := slots;
      layout := Retag(layout, blk, k);
    }

    /** A block of order o was cut from the free blocks and handed out in state k. */
    ghost predicate Granted(m: Layout, m': Layout, r: Chunk, o: nat, k: Kind)
      requires log2Min >= 5
    {
      exists s: nat :: GrantedAt(m, m', r, s, o, k)
    }

    ghost predicate GrantedAt(m: Layout, m': Layout, r: Chunk, s: nat, o: nat, k: Kind)
      requires log2Min >= 5
    {
      r == Chunk(Address(s), Payload(o, log2Min)) && Carved(m, m', s, o, k)
    }

    lemma Unfold(hole: int)
      requires ValidBut(hole)
      ensures Sound(layout, top) && top < ORDERS
      ensures SlotsOk(layout, active, tainted) && |active| == 2 * ORDERS
    {
    }

    /** Take the head of list i, split it down to order o and stamp it; `slot` is the ring entry to fill, or NIL. */
    method GrantFrom(i: nat, o: nat, ghost k: Kind, flag: int, slot: int) returns (r: Chunk)
      requires Valid() && o <= i <= top && i < |lists| && lists[i] != [] && (k.Alloc? || k.Temporal?) && flag == FlagOf(k)
      requires forall s: nat, q: nat :: o <= q < i ==> !FreeAt(layout, s, q)
      requires SlotFor(active, slot, o, k)
      modifies this`heads, this`freeMask, this`lists, this`layout, this`active, this`allocatedBytes
      modifies tags, next, prev, hdrOrder, hdrFlags
      ensures Valid()
      ensures r.Chunk? && r.len == Payload(o, log2Min) && Granted(old(layout), layout, r, o, k)
    {
      hide ValidMasked, Sound, SlotsOk, Accounted, SplitDown, Payload, Wrap, Shl;
      Unfold(NIL);
      ghost var m := layout;
      var blk := TakeAndSplit(i, o);
      Unfold(blk);
      GrantSlots(layout, active, tainted, blk, o, k, slot);
      SplitDownKind(Retag(m, blk, Alloc), blk, i, o, k);
      assert Retag(Retag(m, blk, Alloc), blk, k) == Retag(m, blk, k);
      Stamp(blk, o, k, flag, GrantedSlots(active, slot, blk));
      assert CarvedFrom(m, layout, blk, i, o, k);
      allocatedBytes := Wrap(allocatedBytes + OrderSize(o, log2Min));
      CarveRecount(m, layout, blk, o, k, top, old(allocatedBytes), tombstonedBytes, lost, log2Min);
      r := Chunk(Address(blk), Payload(o, log2Min));
      assert GrantedAt(m, layout, r, blk, o, k);
    }

    /** Grant from the tightest nonempty list, if any. */
    method Grant(o: nat, ghost k: Kind, flag: int, slot: int) returns (r: Chunk)
      requires Valid() && o <= top && (k.Alloc? || k.Temporal?) && flag == FlagOf(k)
      requires SlotFor(active, slot, o, k)
      modifies this`heads, this`freeMask, this`lists, this`layout, this`active, this`allocatedBytes
      modifies tags, next, prev, hdrOrder, hdrFlags
      ensures Valid()
      ensures r.Null? <==> !HasRoom(old(layout), o, top)
      ensures r.Null? ==> layout == old(layout) && active == old(active)
      ensures r.Chunk? ==> r.len == Payload(o, log2Min) && Granted(old(layout), layout, r, o, k)
    {
      hide ValidMasked, HasRoom, Sound, SlotsOk, Accounted, Payload, SlotFor, Granted;
      Unfold(NIL);
      FitIffGap(layout, o, top);
      var i := FindFreeOrder(o);
      if i > top {
        return Null;
      }
      ListsExact(i);
      r := GrantFrom(i, o, k, flag, slot);
    }

    /** List o is empty exactly when no free block has order o. */
    lemma ListsExact(o: nat)
      requires ValidBut(NIL)
      ensures |heads| == |lists| == ORDERS && top < ORDERS
      ensures o > top ==> forall s: nat :: !FreeAt(layout, s, o)
      ensures o <= top && heads[o] == NIL ==> lists[o] == [] && forall s: nat :: !FreeAt(layout, s, o)
      ensures o <= top && heads[o] != NIL ==> lists[o] != [] && FreeAt(layout, lists[o][0], o)
    {
      hide SlotsOk, HeadersOk, TagsOk, Tiles, Canonical, LinkedAt, MaskOk;
      if o > top {
        forall s: nat
          ensures !FreeAt(layout, s, o)
        {
          if FreeAt(layout, s, o) {
            BlockBelowTop(layout, top, s, o);
          }
        }
      } else {
        assert Chain(next[..], prev[..], heads[o], lists[o]);
        assert lists[o] != [] ==> lists[o][0] in lists[o];
      }
    }

    /** Requests no block of this pool could ever serve. */
    predicate Refused(n: nat)
    {
      n > WORD_SIZE - 1 - HDR_OFFSET || OrderForSize(n + HDR_OFFSET, log2Min) > top
    }

    /**
     A request succeeds exactly when some aligned run of its order is not in use; it then takes the
     tightest free block and leaves every other block in use alone.
     */
    method Allocate(n: nat) returns (r: Chunk)
      requires Valid()
      modifies this`heads, this`freeMask, this`lists, this`layout, this`active, this`allocatedBytes
      modifies tags, next, prev, hdrOrder, hdrFlags
      ensures Valid()
      ensures r.Null? <==> Refused(n) || !HasRoom(old(layout), OrderForSize(n + HDR_OFFSET, log2Min), top)
      ensures r.Null? ==> layout == old(layout)
      ensures r.Chunk? ==> n <= r.len && Granted(old(layout), layout, r, OrderForSize(n + HDR_OFFSET, log2Min), Alloc)
    {
      hide ValidMasked, Accounted, HasRoom, OrderForSize, OrderSize, Pow2, Granted;
      if n > WORD_SIZE - 1 - HDR_OFFSET {
        return Null;
      }
      var o := OrderForSize(n + HDR_OFFSET, log2Min);
      if o > top {
        return Null;
      }
      RingSize();
      r := Grant(o, Alloc, FLAG_ALLOC, NIL);
    }

    /** Pop the most recently parked block of order o into transit. */
    method Unpark(o: nat) returns (blk: int)
      requires ValidBut(NIL) && o <= top
      modifies this`tcache, this`tcacheCount, this`parked, this`layout
      ensures blk == NIL <==> old(ParkedOf(o)) == []
      ensures blk == NIL ==> ValidBut(NIL) && layout == old(layout) && parked == old(parked)
      ensures blk != NIL ==> blk == old(ParkedOf(o))[0] && blk in old(layout) && old(layout)[blk] == Seg(Pow2(o), Parked)
      ensures blk != NIL ==> layout == Retag(old(layout), blk, Alloc) && Transit(layout, blk, o) && ValidBut(blk)
      ensures blk != NIL ==> Reparked(old(parked), o, old(ParkedOf(o))[1..])
    {
      hide Pictures, Chains, MaskOk;
      if tcacheCount[o] <= 0 {
        return NIL;
      }
      UnparkPictures(layout, top, tags[..], hdrOrder[..], hdrFlags[..], lists, parked, active, tainted,
                     next[..], parkedBack, tcache, o);
      ChainsPop(next[..], parkedBack, tcache, parked, o);
      PopNext(next[..], parkedBack, tcache, parked, o);
      blk := tcache[o];
      var nx := next[blk];
      if !LinkValid(nx) {
        assert false;
      }
      tcache := tcache[o := nx];
      tcacheCount := tcacheCount[o := tcacheCount[o] - 1];
      parked := parked[o := parked[o][1..]];
      layout := Retag(layout, blk, Alloc);
    }

    /** Link s in at the head of the parked list of order o. */
    method LinkParked(s: nat, o: nat)
      requires Separate() && LinksWith(freeMask) && ParkedLinks()
      requires o < ORDERS && s < next.Length && !Listed(lists, s) && !Listed(parked, s) && tcacheCount[o] < CACHE_CAP
      modifies this`tcache, this`tcacheCount, this`parked, this`parkedBack, next
      ensures LinksWith(freeMask) && ParkedLinks()
      ensures parked == old(parked)[o := [s] + old(parked)[o]]
    {
      hide Chains, MaskOk, Listed;
      ghost var n0 := next[..];
      ChainsPush(n0, parkedBack, tcache, parked, o, s);
      UnlistedWrite(n0, prev[..], heads, lists, s, tcache[o]);
      next[s] := tcache[o];
      assert next[..] == n0[s := tcache[o]];
      parkedBack := SetBack(parkedBack, tcache[o], s);
      tcache := tcache[o := s];
      tcacheCount := tcacheCount[o := tcacheCount[o] + 1];
      parked := parked[o := [s] + parked[o]];
    }

    /** Park the block in transit unless the cache of its order is full. */
    method Park(s: nat, o: nat) returns (ok: bool)
      requires ValidBut(s) && o <= top && Transit(layout, s, o)
      modifies this`tcache, this`tcacheCount, this`parked, this`parkedBack, this`layout, next, tags
      ensures ok <==> |old(ParkedOf(o))| < CACHE_CAP
      ensures ok ==> ValidBut(NIL) && layout == Retag(old(layout), s, Parked) && Reparked(old(parked), o, [s] + old(ParkedOf(o)))
      ensures !ok ==> ValidBut(s) && layout == old(layout) && parked == old(parked)
    {
      hide Pictures, Chains, MaskOk, Listed;
      if tcacheCount[o] >= CACHE_CAP {
        return false;
      }
      TransitUnlisted(layout, top, tags[..], hdrOrder[..], hdrFlags[..], lists, parked, active, tainted, s, o);
      ParkPictures(layout, top, tags[..], hdrOrder[..], hdrFlags[..], lists, parked, active, tainted, s, o);
      LinkParked(s, o);
      tags[s] := TAG_NONE;
      layout := Retag(layout, s, Parked);
      return true;
    }

    /** The ring entry the rotor points at, or else the other one. */
    function RingHit(o: nat): int
      reads this`active, this`rotor
    {
      if o < |rotor| && 0 <= rotor[o] <= 1 && 2 * o + 1 < |active| then
        if active[2 * o + rotor[o]] != NIL then active[2 * o + rotor[o]] else active[2 * o + (1 - rotor[o])]
      else NIL
    }

    /** Block x came out of the cache as the order's temporal block. */
    ghost predicate Revived(m: Layout, m': Layout, r: Chunk, x: nat, o: nat)
      requires log2Min >= 5
    {
      x in m && m[x] == Seg(Pow2(o), Parked) && m' == Retag(m, x, Temporal) && r == Chunk(Address(x), Payload(o, log2Min))
    }

    /** What a temporal request of order o yields, given the ring entry and the parked blocks it found. */
    ghost predicate TemporalGiven(m: Layout, m': Layout, r: Chunk, o: nat, hit: int, cached: seq<nat>)
      requires log2Min >= 5
    {
      if hit != NIL then
        hit >= 0 && r == Chunk(Address(hit), Payload(o, log2Min)) && m' == m
      else if cached != [] then
        Revived(m, m', r, cached[0], o)
      else
        (r.Null? <==> !HasRoom(m, o, top)) && (if r.Null? then m' == m else Granted(m, m', r, o, Temporal))
    }

    /** A temporal request of order o finds a ring entry, a parked block, or room for a fresh one. */
    ghost predicate TemporalReady(o: nat)
      reads `active, `rotor, `parked, `layout
    {
      RingHit(o) != NIL || ParkedOf(o) != [] || HasRoom(layout, o, top)
    }

    /** A temporal request of at most this pool's size; the ring is asked first, then the cache, then the free blocks. */
    method TemporalAllocate(n: nat) returns (r: Chunk)
      requires Valid()
      modifies this`heads, this`freeMask, this`lists, this`layout, this`active, this`allocatedBytes
      modifies this`rotor, this`tcache, this`tcacheCount, this`parked
      modifies tags, next, prev, hdrOrder, hdrFlags
      ensures Valid()
      ensures Refused(n) ==> r.Null? && layout == old(layout) && parked == old(parked)
      ensures r.Chunk? ==> n <= r.len
      ensures !Refused(n) ==>
                var o := OrderForSize(n + HDR_OFFSET, log2Min);
                && TemporalGiven(old(layout), layout, r, o, old(RingHit(o)), old(ParkedOf(o)))
                && if old(RingHit(o)) == NIL && old(ParkedOf(o)) != [] then Reparked(old(parked), o, old(ParkedOf(o))[1..])
                   else parked == old(parked)
    {
      hide ValidMasked, HasRoom, Sound, SlotsOk, Accounted, Wrap, Shl, Granted, Revived, OrderForSize, OrderSize, Pow2;
      Unfold(NIL);
      RingRange();
      if n > WORD_SIZE - 1 - HDR_OFFSET {
        return Null;
      }
      var o := OrderForSize(n + HDR_OFFSET, log2Min);
      if o > top {
        return Null;
      }
      var r0 := rotor[o];
      var hit := active[2 * o + r0];
      if hit == NIL {
        r0 := 1 - r0;
        hit := active[2 * o + r0];
      }
      if hit != NIL {
        rotor := rotor[o := 1 - r0];
        return Chunk(Address(hit), Payload(o, log2Min));
      }
      r := FreshTemporal(o, 2 * o + r0);
      if r.Chunk? {
        rotor := rotor[o := 1 - r0];
      }
    }

    /** No temporal block of order o is on record: ask the cache, then the free blocks. */
    method FreshTemporal(o: nat, slot: nat) returns (r: Chunk)
      requires Valid() && o <= top && SlotFor(active, slot, o, Temporal)
      modifies this`heads, this`freeMask, this`lists, this`layout, this`active, this`allocatedBytes
      modifies this`tcache, this`tcacheCount, this`parked
      modifies tags, next, prev, hdrOrder, hdrFlags
      ensures Valid()
      ensures r.Chunk? ==> r.len == Payload(o, log2Min)
      ensures TemporalGiven(old(layout), layout, r, o, NIL, old(ParkedOf(o)))
      ensures if old(ParkedOf(o)) != [] then Reparked(old(parked), o, old(ParkedOf(o))[1..]) else parked == old(parked)
    {
      hide ValidMasked, HasRoom, Sound, SlotsOk, Accounted, Wrap, Shl, Granted, SlotFor, Payload;
      r := Revive(o, slot);
      if r.Null? {
        r := Grant(o, Temporal, FLAG_ALLOC + FLAG_TEMPORAL, slot);
      }
    }

    lemma RingRange()
      requires ValidBut(NIL)
      ensures forall i :: 0 <= i < |active| ==> active[i] >= NIL
      ensures |parked| == ORDERS
    {
    }

    /** Hand out a parked block of order o as the order's temporal block. */
    method Revive(o: nat, slot: nat) returns (r: Chunk)
      requires Valid() && o <= top && SlotFor(active, slot, o, Temporal)
      modifies this`layout, this`active, this`allocatedBytes, this`tcache, this`tcacheCount, this`parked
      modifies tags, hdrOrder, hdrFlags
      ensures Valid()
      ensures r.Null? <==> old(ParkedOf(o)) == []
      ensures r.Null? ==> layout == old(layout) && active == old(active) && parked == old(parked)
      ensures r.Chunk? ==> Revived(old(layout), layout, r, old(ParkedOf(o))[0], o) && Reparked(old(parked), o, old(ParkedOf(o))[1..])
    {
      hide ValidMasked, Sound, SlotsOk, Accounted, Wrap, Shl, Amount;
      ghost var m := layout;
      var x := Unpark(o);
      if x == NIL {
        return Null;
      }
      Unfold(x);
      GrantSlots(layout, active, tainted, x, o, Temporal, slot);
      Stamp(x, o, Temporal, FLAG_ALLOC + FLAG_TEMPORAL, active[slot := x]);
      assert layout == Retag(m, x, Temporal);
      allocatedBytes := Wrap(allocatedBytes + OrderSize(o, log2Min));
      RetagRecount(m, x, Temporal, old(allocatedBytes), tombstonedBytes, lost, log2Min);
      r := Chunk(Address(x), Payload(o, log2Min));
    }

    /** An order has at most one temporal block, and it is what the ring yields. */
    lemma TemporalShared(s: nat, o: nat)
      requires Valid() && TemporalAt(layout, s, o) && o < ORDERS
      ensures RingHit(o) == s
      ensures forall t: nat :: TemporalAt(layout, t, o) ==> t == s
    {
      hide Sound, TagsOk, HeadersOk, Chains;
      OnlyTemporal(layout, active, tainted, s, o, rotor[o]);
      forall t: nat | TemporalAt(layout, t, o)
        ensures t == s
      {
        OnlyTemporal(layout, active, tainted, t, o, rotor[o]);
      }
    }

    /** A free block of exactly the requested power of two, never split. */
    method AllocateExact(n: nat) returns (r: Chunk)
      requires Valid()
      modifies this`heads, this`freeMask, this`lists, this`layout, this`active, this`allocatedBytes
      modifies tags, next, prev, hdrOrder, hdrFlags
      ensures Valid()
      ensures r.Null? ==> layout == old(layout)
      ensures r.Chunk? <==> n > 0 && var o := OrderForSize(n, log2Min);
                            n == OrderSize(o, log2Min) && exists s: nat :: FreeAt(old(layout), s, o)
      ensures r.Chunk? ==> r.len == n - HDR_OFFSET && Granted(old(layout), layout, r, OrderForSize(n, log2Min), Alloc)
    {
      hide ValidMasked, Accounted, SlotsOk, Granted;
      if n == 0 || n < Shl(1, log2Min) {
        if n > 0 {
          ExactTest(n, log2Min);
        }
        return Null;
      }
      ExactTest(n, log2Min);
      if And(n, n - 1) != 0 {
        return Null;
      }
      var o := OrderForSize(n, log2Min);
      ListsExact(o);
      if o > top || heads[o] == NIL {
        return Null;
      }
      assert SlotFor(active, NIL, o, Alloc) by {
        Unfold(NIL);
      }
      r := GrantFrom(o, o, Alloc, FLAG_ALLOC, NIL);
    }

    /** ptr is the address of a block in use. */
    ghost predicate Names(ptr: int)
      reads `layout
    {
      exists s: nat :: s in layout && InUse(layout[s].kind) && ptr == Address(s)
    }

    lemma AddressInjective(s: nat, t: nat)
      requires Address(s) == Address(t)
      ensures s == t
    {
      ShlMono(s, t, log2Min);
      ShlMono(t, s, log2Min);
    }

    /** A pointer into the pool at a min-block boundary is the address of that min-block. */
    lemma PointerIndex(ptr: int)
      requires total == Shl(tags.Length, log2Min)
      requires base <= ptr < base + total && Aligned(ptr - base, log2Min)
      ensures Shr(ptr - base, log2Min) < tags.Length && Address(Shr(ptr - base, log2Min)) == ptr
    {
      AlignedShr(ptr - base, log2Min);
      ShlMono(Shr(ptr - base, log2Min), tags.Length, log2Min);
    }

    lemma AddressInPool(s: nat)
      requires total == Shl(tags.Length, log2Min) && s < tags.Length
      ensures base <= Address(s) < base + total
      ensures Aligned(Address(s) - base, log2Min) && Shr(Address(s) - base, log2Min) == s
    {
      ShrShl(s, log2Min);
      ShlMono(s, tags.Length, log2Min);
    }

    /** Exactly the addresses of blocks in use pass, whatever the pointer. */
    method IsAllocated(ptr: int) returns (b: bool)
      requires Valid()
      ensures b <==> Names(ptr)
    {
      hide ValidMasked, Sound, Accounted;
      if ptr == 0 || ptr < base || ptr >= base + total || !Aligned(ptr - base, log2Min) {
        forall s: nat | s in layout && InUse(layout[s].kind)
          ensures ptr != Address(s)
        {
          Inside(s);
          AddressInPool(s);
        }
        return false;
      }
      PointerIndex(ptr);
      var s := Shr(ptr - base, log2Min);
      var tag := tags[s];
      TagTells(s);
      b := tag < TAG_FREE && tag < top + 1;
      if !b {
        forall t: nat | t in layout && InUse(layout[t].kind)
          ensures ptr != Address(t)
        {
          if ptr == Address(t) {
            AddressInjective(s, t);
          }
        }
      }
    }

    lemma Inside(s: nat)
      requires ValidBut(NIL) && s in layout
      ensures Separate() && s < tags.Length
    {
      InsidePool(layout, top, s);
    }

    lemma TagTells(s: nat)
      requires ValidBut(NIL) && s < tags.Length
      ensures Separate() && 0 <= tags[s] <= TAG_NONE
      ensures tags[s] < TAG_FREE && tags[s] <= top <==> s in layout && InUse(layout[s].kind)
      ensures s in layout && InUse(layout[s].kind) ==> UsedAt(layout, s, tags[s])
    {
      hide Pictures, LinksWith, ParkedLinks;
      ReadTag(layout, top, tags[..], hdrOrder[..], hdrFlags[..], lists, parked, active, tainted, s);
    }

    lemma HeaderTells(s: nat, o: nat)
      requires ValidBut(NIL) && UsedAt(layout, s, o)
      ensures Separate() && o <= top && s + Pow2(o) <= hdrOrder.Length
      ensures hdrOrder[s + Pow2(o) - 1] == o && hdrFlags[s + Pow2(o) - 1] == FlagOf(layout[s].kind)
    {
      ReadHeader(layout, top, tags[..], hdrOrder[..], hdrFlags[..], lists, parked, active, tainted, s, o);
      BlockBelowTop(layout, top, s, o);
    }

    /** The block in use at ptr, with the order and flags its tail header gives. */
    method HeaderOf(ptr: int) returns (s: nat, o: int, flags: int)
      requires Valid() && Names(ptr)
      ensures Address(s) == ptr && 0 <= o <= top && UsedAt(layout, s, o) && flags == FlagOf(layout[s].kind)
    {
      hide ValidMasked, Sound, Accounted;
      ghost var t: nat :| t in layout && InUse(layout[t].kind) && ptr == Address(t);
      Inside(t);
      AddressInPool(t);
      s := Shr(ptr - base, log2Min);
      TagTells(s);
      var tagged := tags[s];
      HeaderTells(s, tagged);
      o := hdrOrder[s + Pow2(tagged) - 1];
      flags := hdrFlags[s + Pow2(tagged) - 1];
    }

    lemma RingSize()
      requires ValidBut(NIL)
      ensures |active| == 2 * ORDERS && top < ORDERS
    {
    }

    /** Clear the first ring entry of order o that names s. */
    method ClearRing(o: nat, s: nat)
      requires 2 * o + 1 < |active|
      modifies this`active
      ensures active == ClearSlot(old(active), o, s)
    {
      var r := 0;
      while r < 2
        invariant 0 <= r <= 2 && active == old(active)
        invariant r >= 1 ==> active[2 * o] != s
        invariant r == 2 ==> active[2 * o + 1] != s
      {
        if active[2 * o + r] == s {
          active := active[2 * o + r := NIL];
          return;
        }
        r := r + 1;
      }
    }

    /** The block at s leaves use: a temporal one gives up its ring entry. */
    method Release(s: nat, o: nat, flags: int)
      requires ValidBut(NIL) && o <= top && UsedAt(layout, s, o) && flags == FlagOf(layout[s].kind)
      modifies this`active, this`layout
      ensures layout == Retag(old(layout), s, OutKind(old(layout)[s].kind))
      ensures Transit(layout, s, o) && ValidBut(s)
      ensures !old(layout)[s].kind.Temporal? ==> active == old(active)
    {
      hide Pictures, LinksWith, ParkedLinks, SlotsOk, ClearSlot;
      ghost var k := layout[s].kind;
      RingSize();
      ghost var m, active' := Retag(layout, s, OutKind(k)), if k.Temporal? then ClearSlot(active, o, s) else active;
      assert Pictures(m, top, tags[..], hdrOrder[..], hdrFlags[..], lists, parked, active', tainted, s) by {
        Unfold(NIL);
        ReleaseSlots(layout, active, tainted, s, o);
        ReleasePictures(layout, top, tags[..], hdrOrder[..], hdrFlags[..], lists, parked, active, active', tainted, tainted, s, OutKind(k));
      }
      if flags / 4 % 2 == 1 {
        ClearRing(o, s);
      }
      assert active == active';
      layout := m;
    }

    /** The next layout after the block at s of order o is freed; `room` says whether its cache has a place. */
    ghost function Freed(m: Layout, s: nat, o: nat, room: bool): Layout
      requires UsedAt(m, s, o)
    {
      if m[s].kind.Temporal? && room then Retag(m, s, Parked) else MergeUp(m, s, o, top)
    }

    /**
     A pointer is accepted exactly when it is the address of a block in use, so repeated and forged
     frees are refused and change nothing.
     */
    method Deallocate(ptr: int) returns (r: Outcome)
      requires Valid()
      modifies this`heads, this`freeMask, this`lists, this`layout, this`active, this`allocatedBytes
      modifies this`tombstonedBytes, this`lost, this`tcache, this`tcacheCount, this`parked, this`parkedBack
      modifies tags, next, prev
      ensures Valid()
      ensures r.Ok? || r.Invalid?
      ensures r.Ok? <==> old(Names(ptr))
      ensures !r.Ok? ==> layout == old(layout) && lost == old(lost) && parked == old(parked)
      ensures forall s: nat, o: nat :: old(UsedAt(layout, s, o)) && ptr == Address(s) ==>
                && layout == Freed(old(layout), s, o, |old(ParkedOf(o))| < CACHE_CAP)
                && (if old(layout)[s].kind.Temporal? && |old(ParkedOf(o))| < CACHE_CAP then Reparked(old(parked), o, [s] + old(ParkedOf(o)))
                    else parked == old(parked))
                && (!old(layout)[s].kind.Temporal? ==> active == old(active))
                && lost == old(lost) + (if old(layout)[s].kind.Tombstoned? then OrderSize(o, log2Min) else 0)
    {
      hide ValidMasked, Sound, Accounted, MergeUp;
      var ok := IsAllocated(ptr);
      if !ok {
        return Invalid;
      }
      var s, o, flags := HeaderOf(ptr);
      if o < 0 || o >= top + 1 || flags == 0 {
        assert false;
      }
      FreeBlock(s, o, flags);
      forall t: nat, q: nat | old(UsedAt(layout, t, q)) && ptr == Address(t)
        ensures t == s && q == o
      {
        AddressInjective(s, t);
        Pow2Injective(q, o);
      }
      return Ok;
    }

    /** The counters that suit the layout once the block at s is freed or parked. */
    lemma FreeAccounts(s: nat, o: nat)
      requires Valid() && o <= top && UsedAt(layout, s, o)
      ensures var size, dead := OrderSize(o, log2Min), if layout[s].kind.Tombstoned? then OrderSize(o, log2Min) else 0;
              Accounted(MergeUp(layout, s, o, top), Wrap(allocatedBytes - size), tombstonedBytes - dead, lost + dead, log2Min)
      ensures layout[s].kind.Temporal? ==>
                Accounted(Retag(layout, s, Parked), Wrap(allocatedBytes - OrderSize(o, log2Min)), tombstonedBytes, lost, log2Min)
    {
      hide ValidMasked, Sound, Accounted, MergeUp, Wrap, Shl;
      Unfold(NIL);
      FreeRecount(layout, s, o, top, allocatedBytes, tombstonedBytes, lost, log2Min);
      if layout[s].kind.Temporal? {
        RetagRecount(layout, s, Parked, allocatedBytes, tombstonedBytes, lost, log2Min);
      }
    }

    method FreeBlock(s: nat, o: nat, flags: int)
      requires Valid() && o <= top && UsedAt(layout, s, o) && flags == FlagOf(layout[s].kind)
      modifies this`heads, this`freeMask, this`lists, this`layout, this`active, this`allocatedBytes
      modifies this`tombstonedBytes, this`lost, this`tcache, this`tcacheCount, this`parked, this`parkedBack
      modifies tags, next, prev
      ensures Valid()
      ensures layout == Freed(old(layout), s, o, |old(ParkedOf(o))| < CACHE_CAP)
      ensures if old(layout)[s].kind.Temporal? && |old(ParkedOf(o))| < CACHE_CAP then Reparked(old(parked), o, [s] + old(ParkedOf(o)))
              else parked == old(parked)
      ensures !old(layout)[s].kind.Temporal? ==> active == old(active)
      ensures lost == old(lost) + (if old(layout)[s].kind.Tombstoned? then OrderSize(o, log2Min) else 0)
    {
      hide ValidMasked, Sound, Accounted, MergeUp, Wrap, Shl, Reparked, Amount, Occupied, Pow2;
      ghost var m := layout;
      FreeAccounts(s, o);
      var size := OrderSize(o, log2Min);
      allocatedBytes := Wrap(allocatedBytes - size);
      if flags / 2 % 2 == 1 {
        tombstonedBytes := tombstonedBytes - size;
        lost := lost + size;
      }
      Release(s, o, flags);
      if flags / 4 % 2 == 1 {
        var ok := Park(s, o);
        if ok {
          assert layout == Retag(m, s, Parked);
          return;
        }
      }
      MergeUpKind(m, s, o, top, OutKind(m[s].kind));
      MergeAndFree(s, o);
    }

    ghost predicate Tombstonable(m: Layout, ptr: int, s: nat, o: nat)
    {
      ptr == Address(s) && UsedAt(m, s, o) && !m[s].kind.Tombstoned?
    }

    /** Only a live block can be tombstoned; it keeps its place and stops counting as allocated. */
    method TombstoneBlock(ptr: int) returns (r: Outcome)
      requires Valid()
      modifies this`layout, this`allocatedBytes, this`tombstonedBytes, this`tainted, hdrFlags
      ensures Valid()
      ensures r.Tombstone? || r.Invalid?
      ensures r.Tombstone? <==> exists s: nat, o: nat :: Tombstonable(old(layout), ptr, s, o)
      ensures r.Invalid? ==> layout == old(layout) && tainted == old(tainted)
      ensures forall s: nat, o: nat :: Tombstonable(old(layout), ptr, s, o) ==>
                && layout == Retag(old(layout), s, Tombstoned)
                && tainted == if old(layout)[s].kind.Temporal? then old(tainted) + {o} else old(tainted)
    {
      hide ValidMasked, Sound, Accounted, Wrap, Shl, Amount;
      var ok := IsAllocated(ptr);
      if !ok {
        return Invalid;
      }
      var s, o, flags := HeaderOf(ptr);
      forall t: nat, q: nat | UsedAt(layout, t, q) && ptr == Address(t)
        ensures t == s && q == o
      {
        AddressInjective(s, t);
        Pow2Injective(q, o);
      }
      if o < 0 || o >= top + 1 {
        assert false;
      }
      if flags % 2 == 0 {
        return Invalid;
      }
      assert Tombstonable(layout, ptr, s, o);
      Bury(s, o);
      return Tombstone;
    }

    method Bury(s: nat, o: nat)
      requires Valid() && UsedAt(layout, s, o) && !layout[s].kind.Tombstoned?
      modifies this`layout, this`allocatedBytes, this`tombstonedBytes, this`tainted, hdrFlags
      ensures Valid()
      ensures layout == Retag(old(layout), s, Tombstoned)
      ensures tainted == if old(layout)[s].kind.Temporal? then old(tainted) + {o} else old(tainted)
    {
      hide Pictures, LinksWith, ParkedLinks, Accounted, Wrap, Shl, Amount;
      ghost var m := layout;
      TombstonePictures(m, top, tags[..], hdrOrder[..], hdrFlags[..], lists, parked, active, tainted, s, o);
      TombRecount(m, s, allocatedBytes, tombstonedBytes, lost, log2Min);
      hdrFlags[s + Pow2(o) - 1] := FLAG_TOMBSTONE;
      var size := OrderSize(o, log2Min);
      allocatedBytes := Wrap(allocatedBytes - size);
      tombstonedBytes := tombstonedBytes + size;
      tainted := if m[s].kind.Temporal? then tainted + {o} else tainted;
      layout := Retag(m, s, Tombstoned);
    }

    /**
     Allocated, tombstoned, parked and free bytes make up the pool exactly while the tombstoned
     blocks that were freed add up to a multiple of 2^64 bytes.
     */
    lemma BytesConserved()
      requires Valid()
      ensures Counted() == OrderSize(top, log2Min) <==> Wrap(lost) == 0
    {
      hide ValidMasked, Accounted, Amount, Dyadic, Canonical, Tiles;
      Unfold(NIL);
      PoolSize();
      PoolConserved(layout, 0, Pow2(top), allocatedBytes, tombstonedBytes, lost, log2Min);
    }

    /**
     The test used() == 0: it means that no live block is left exactly while the lost bytes vanish in
     64 bits; otherwise it holds of pools whose live bytes equal them, and of no empty pool.
     */
    lemma UsedTells()
      requires Valid()
      ensures allocatedBytes == 0 <==> Shl(Live(layout), log2Min) == Wrap(lost)
      ensures Wrap(lost) == 0 ==> (allocatedBytes == 0 <==> NoneLive(layout))
      ensures NoneLive(layout) ==> (allocatedBytes == 0 <==> Wrap(lost) == 0)
    {
      hide ValidMasked, Accounted, Amount, Dyadic, Canonical, Tiles, NoneLive, Shl, Wrap;
      Unfold(NIL);
      PoolSize();
      UsedZero(layout, 0, Pow2(top), allocatedBytes, tombstonedBytes, lost, log2Min);
    }

    /** The bytes all counters and lists account for. */
    ghost function Counted(): int
      reads `allocatedBytes, `tombstonedBytes, `layout
    {
      allocatedBytes + tombstonedBytes + Shl(Amount(layout, Parked), log2Min) + Shl(Amount(layout, Free), log2Min)
    }

    lemma PoolSize()
      requires Valid()
      ensures OrderSize(top, log2Min) <= total < WORD_SIZE
    {
      hide Pictures, LinksWith, ParkedLinks, Accounted;
      ShlMono(tags.Length, Pow2(top), log2Min);
    }

    /** A client writes inside the payload of a block in use. Link words under the payload are its to overwrite. */
    method ClientStore(ghost s: nat, ghost o: nat, u: nat, a: int, b: int)
      requires Valid() && UsedAt(layout, s, o)
      requires s <= u < s + Pow2(o) && (u + 1 < s + Pow2(o) || log2Min > 5)
      modifies next, prev
      ensures Valid()
    {
      hide Accounted, Chains, Pictures, MaskOk;
      ghost var n0, p0 := next[..], prev[..];
      assert u < next.Length && Chains(n0[u := a], p0[u := b], heads, lists) && Chains(n0[u := a], parkedBack, tcache, parked) by {
        PayloadUnlisted(s, o, u);
        UnlistedWrite(n0, p0, heads, lists, u, a);
        UnlistedWriteBack(n0[u := a], p0, heads, lists, u, b);
        UnlistedWrite(n0, parkedBack, tcache, parked, u, a);
      }
      next[u] := a;
      prev[u] := b;
      assert next[..] == n0[u := a] && prev[..] == p0[u := b];
    }

    lemma PayloadUnlisted(s: nat, o: nat, u: nat)
      requires ValidBut(NIL) && UsedAt(layout, s, o) && s <= u < s + Pow2(o)
      ensures u < tags.Length && !Listed(lists, u) && !Listed(parked, u)
    {
      InsidePool(layout, top, s);
      InsideUnlisted(layout, top, lists, parked, s, u);
    }
  }

  /** A freed block is no longer in use at its address. */
  lemma FreedUnused(m: Layout, s: nat, o: nat, top: nat)
    requires Sound(m, top) && UsedAt(m, s, o) && o <= top
    ensures var n := MergeUp(m, s, o, top); s !in n || !InUse(n[s].kind)
  {
    hide MergeUp, Sound;
    MergeUpOccupied(m, s, o, top);
    assert s !in Occupied(MergeUp(m, s, o, top));
  }

  lemma GivenTemporal(b: Book, m: Layout, r: Chunk, o: nat, hit: int, cached: seq<nat>) returns (s: nat)
    requires b.Valid() && o <= b.top && r.Chunk?
    requires Sound(m, b.top) && b.TemporalGiven(m, b.layout, r, o, hit, cached)
    requires hit != NIL ==> TemporalAt(b.layout, hit, o)
    ensures TemporalAt(b.layout, s, o) && r == Chunk(b.Address(s), Payload(o, b.log2Min))
  {
    hide Sound, Payload;
    if hit != NIL {
      s := hit;
    } else if cached != [] {
      s := cached[0];
    } else {
      s :| b.GrantedAt(m, b.layout, r, s, o, Temporal);
      CarveThenFree(m, b.layout, s, o, Temporal, b.top);
    }
  }

  /** Giving back what was just granted restores every block boundary. */
  method Undo(b: Book, n: nat) returns (r: Chunk)
    requires b.Valid()
    modifies b, b.tags, b.next, b.prev, b.hdrOrder, b.hdrFlags
    ensures b.Valid() && b.layout == old(b.layout)
  {
    hide Book.ValidMasked, Sound;
    b.Unfold(NIL);
    ghost var m := b.layout;
    r := b.Allocate(n);
    if r.Chunk? {
      ghost var o := OrderForSize(n + HDR_OFFSET, b.log2Min);
      ghost var s: nat :| b.GrantedAt(m, b.layout, r, s, o, Alloc);
      CarveThenFree(m, b.layout, s, o, Alloc, b.top);
      assert UsedAt(b.layout, s, o);
      var out := b.Deallocate(r.ptr);
    }
  }

  /**
   The ring's answer for an order is its temporal block, or nothing, exactly as long as no temporal
   block of that order was ever tombstoned.
   */
  lemma RingNames(b: Book, o: nat)
    requires b.Valid() && o <= b.top
    ensures b.RingHit(o) == NIL || TemporalAt(b.layout, b.RingHit(o), o) <==> o !in b.tainted
  {
    hide Sound, TagsOk, HeadersOk, Chains, Accounted, Pow2;
    assert EntriesOk(b.layout, b.active[2 * o], b.active[2 * o + 1], o, o in b.tainted);
  }

  /** r is the block of a temporal block of order o. */
  ghost predicate Shares(b: Book, r: Chunk, o: nat)
    requires b.log2Min >= 5
    reads b`layout
  {
    exists s: nat :: TemporalAt(b.layout, s, o) && r == Chunk(b.Address(s), Payload(o, b.log2Min))
  }

  /**
   A temporal request that is answered at all is given a temporal block of its order exactly as long as
   no temporal block of that order was ever tombstoned.
   */
  method GiveTemporal(b: Book, n: nat) returns (r: Chunk)
    requires b.Valid()
    modifies b, b.tags, b.next, b.prev, b.hdrOrder, b.hdrFlags
    ensures b.Valid() && b.tainted == old(b.tainted)
    ensures r.Chunk? ==> !b.Refused(n) && n <= r.len
    ensures r.Chunk? ==> var o := OrderForSize(n + HDR_OFFSET, b.log2Min);
                         Shares(b, r, o) <==> o !in b.tainted
  {
    hide Book.ValidMasked, Sound, Accounted, SlotsOk, OrderForSize, OrderSize, Payload, Pow2, Shl;
    b.Unfold(NIL);
    ghost var m := b.layout;
    ghost var o := if b.Refused(n) then 0 else OrderForSize(n + HDR_OFFSET, b.log2Min);
    RingNames(b, o);
    ghost var hit, cached := b.RingHit(o), b.ParkedOf(o);
    r := b.TemporalAllocate(n);
    if r.Chunk? {
      if o !in b.tainted {
        ghost var s := GivenTemporal(b, m, r, o, hit, cached);
      } else {
        NoneShared(b, o);
      }
    }
  }

  lemma NoneShared(b: Book, o: nat)
    requires b.Valid() && o <= b.top && o in b.tainted
    ensures forall s: nat :: !TemporalAt(b.layout, s, o)
  {
    hide Sound, TagsOk, HeadersOk, Chains, Accounted, Pow2;
    assert EntriesOk(b.layout, b.active[2 * o], b.active[2 * o + 1], o, o in b.tainted);
  }

  /**
     Why a temporal block must not be tombstoned: once it is, freeing it no longer clears its ring
     entry, and the next temporal request of its order is given the address of a block not in use.
   */
  method StaleTemporal(b: Book, n: nat) returns (first: Chunk, second: Chunk)
    requires b.Valid() && (b.Refused(n) || OrderForSize(n + HDR_OFFSET, b.log2Min) !in b.tainted)
    modifies b, b.tags, b.next, b.prev, b.hdrOrder, b.hdrFlags
    ensures b.Valid()
    ensures first.Chunk? <==> !b.Refused(n) && old(b.TemporalReady(OrderForSize(n + HDR_OFFSET, b.log2Min)))
    ensures first.Chunk? ==> second == first && !b.Names(second.ptr)
  {
    hide Book.ValidMasked, Book.Names, Sound, Accounted, SlotsOk, OrderForSize, OrderSize, Payload, Pow2, MergeUp, Shl;
    b.Unfold(NIL);
    ghost var m := b.layout;
    ghost var o := if b.Refused(n) then 0 else OrderForSize(n + HDR_OFFSET, b.log2Min);
    RingNames(b, o);
    ghost var hit, cached := b.RingHit(o), b.ParkedOf(o);
    first := b.TemporalAllocate(n);
    if first.Null? {
      return first, Null;
    }
    ghost var s := GivenTemporal(b, m, first, o, hit, cached);
    BuryThenFree(b, first.ptr, s, o);
    second := b.TemporalAllocate(n);
  }

  /** Freeing a tombstoned temporal block leaves its ring entry behind. */
  method BuryThenFree(b: Book, ptr: nat, ghost s: nat, ghost o: nat)
    requires b.Valid() && TemporalAt(b.layout, s, o) && o <= b.top && ptr == b.Address(s)
    modifies b`heads, b`freeMask, b`lists, b`layout, b`active, b`allocatedBytes
    modifies b`tombstonedBytes, b`lost, b`tainted, b`tcache, b`tcacheCount, b`parked, b`parkedBack
    modifies b.tags, b.next, b.prev, b.hdrFlags
    ensures b.Valid() && b.RingHit(o) == s && !b.Names(ptr)
  {
    hide Book.ValidMasked, Book.Names, Sound, Accounted, SlotsOk, OrderSize, Pow2, MergeUp, Shl;
    b.Unfold(NIL);
    b.TemporalShared(s, o);
    assert b.Tombstonable(b.layout, ptr, s, o);
    var out := b.TombstoneBlock(ptr);
    b.Unfold(NIL);
    ghost var dead := b.layout;
    out := b.Deallocate(ptr);
    Unnamed(b, dead, s, o);
  }

  /** Allocate, tombstone and free: the layout is as before, the bytes are lost. */
  method LoseOne(b: Book, n: nat) returns (r: Chunk)
    requires b.Valid()
    modifies b, b.tags, b.next, b.prev, b.hdrOrder, b.hdrFlags
    ensures b.Valid() && b.layout == old(b.layout)
    ensures r.Chunk? <==> !b.Refused(n) && HasRoom(b.layout, OrderForSize(n + HDR_OFFSET, b.log2Min), b.top)
    ensures r.Chunk? ==> b.lost == old(b.lost) + OrderSize(OrderForSize(n + HDR_OFFSET, b.log2Min), b.log2Min)
  {
    hide Book.ValidMasked, Sound, Accounted, SlotsOk, OrderForSize, OrderSize, Payload, Pow2, MergeUp, Shl, HasRoom;
    b.Unfold(NIL);
    ghost var m := b.layout;
    r := b.Allocate(n);
    if r.Chunk? {
      ghost var o := OrderForSize(n + HDR_OFFSET, b.log2Min);
      ghost var s: nat :| b.GrantedAt(m, b.layout, r, s, o, Alloc);
      CarveThenFree(m, b.layout, s, o, Alloc, b.top);
      MergeUpKind(b.layout, s, o, b.top, Tombstoned);
      assert b.Tombstonable(b.layout, r.ptr, s, o);
      var out := b.TombstoneBlock(r.ptr);
      assert UsedAt(b.layout, s, o);
      out := b.Deallocate(r.ptr);
    }
  }

  /** Freeing a tombstoned block breaks the accounts: the bytes no longer add up. */
  method TombstoneThenFree(b: Book, n: nat) returns (r: Chunk)
    requires b.Valid() && Wrap(b.lost) == 0
    modifies b, b.tags, b.next, b.prev, b.hdrOrder, b.hdrFlags
    ensures b.Valid()
    ensures r.Chunk? <==> !b.Refused(n) && HasRoom(old(b.layout), OrderForSize(n + HDR_OFFSET, b.log2Min), b.top)
    ensures r.Chunk? ==> b.Counted() != OrderSize(b.top, b.log2Min)
  {
    hide Book.Valid, OrderForSize, OrderSize, HasRoom, Wrap, Shl;
    r := LoseOne(b, n);
    if r.Chunk? {
      ghost var o := OrderForSize(n + HDR_OFFSET, b.log2Min);
      b.PoolSize();
      OrderSizeBelow(o, b.top, b.log2Min);
      LostIs(old(b.lost), OrderSize(o, b.log2Min));
      b.BytesConserved();
    }
  }

  /** With bytes lost, used() == 0 can hold of a pool whose client still holds a block. */
  method EmptyOverLive(b: Book, n: nat) returns (r: Chunk)
    requires b.Valid() && Wrap(b.lost) == 0 && NoneLive(b.layout)
    modifies b, b.tags, b.next, b.prev, b.hdrOrder, b.hdrFlags
    ensures b.Valid()
    ensures r.Chunk? <==> !b.Refused(n) && HasRoom(old(b.layout), OrderForSize(n + HDR_OFFSET, b.log2Min), b.top)
    ensures r.Chunk? ==> b.allocatedBytes == 0 && b.Names(r.ptr)
  {
    hide Book.ValidMasked, Sound, Accounted, SlotsOk, OrderForSize, OrderSize, Payload, Pow2, Shl, HasRoom, Amount, NoneLive, Wrap;
    b.Unfold(NIL);
    ghost var m := b.layout;
    b.PoolSize();
    r := LoseOne(b, n);
    if r.Chunk? {
      r := b.Allocate(n);
      ghost var o := OrderForSize(n + HDR_OFFSET, b.log2Min);
      ghost var s: nat :| b.GrantedAt(m, b.layout, r, s, o, Alloc);
      CarveThenFree(m, b.layout, s, o, Alloc, b.top);
      OnlyLive(m, b.layout, s, o, b.top, b.log2Min);
      OrderSizeBelow(o, b.top, b.log2Min);
      LostIs(old(b.lost), OrderSize(o, b.log2Min));
      b.UsedTells();
    }
  }

  /** A block granted where none was live makes up all the live bytes. */
  lemma OnlyLive(m: Layout, m': Layout, s: nat, o: nat, top: nat, k: nat)
    requires Sound(m, top) && NoneLive(m) && Carved(m, m', s, o, Alloc)
    ensures Shl(Live(m'), k) == OrderSize(o, k)
  {
    hide Amount, Occupied, Dyadic, Canonical, Carved, Pow2, Shl;
    LiveZero(m, 0, Pow2(top));
    CarveOccupied(m, m', s, o, Alloc, top);
    GrantAmount(m, m', s, Seg(Pow2(o), Alloc), Alloc);
    GrantAmount(m, m', s, Seg(Pow2(o), Alloc), Temporal);
  }

  lemma OrderSizeBelow(o: nat, top: nat, k: nat)
    requires o <= top
    ensures 0 < OrderSize(o, k) <= OrderSize(top, k)
  {
    hide Pow2, Shl;
    Pow2Le(o, top);
    ShlMono(Pow2(top), Pow2(o), k);
    ShlMono(0, Pow2(o), k);
    ShlZero(k);
  }

  lemma Unnamed(b: Book, m: Layout, s: nat, o: nat)
    requires Sound(m, b.top) && UsedAt(m, s, o) && o <= b.top && b.layout == MergeUp(m, s, o, b.top)
    ensures !b.Names(b.Address(s))
  {
    hide MergeUp, Sound, Shl;
    FreedUnused(m, s, o, b.top);
    forall t: nat | t in b.layout && b.Address(t) == b.Address(s)
      ensures !InUse(b.layout[t].kind)
    {
      b.AddressInjective(t, s);
    }
  }
}
