/** The two-level segregated fit book: headers in the pool, 416 free lists, two bitmap levels. */
module TlsfBook {
  import opened Powers
  import opened Words
  import opened Tiling
  import opened Accounts
  import opened FreeList
  import opened TlsfMapping
  import opened TlsfLayout
  import opened TlsfBitmaps
  import opened TlsfState

  /** log2 of the 32-byte unit, as the accounts count. */
  const UNIT_LOG2: nat := 5

  class Book {
    const base: nat             // address of the start sentinel
    const total: nat            // bytes between the sentinels
    const flCount: nat          // first-level rows in use
    const hi: nat               // unit of the end sentinel

    // header words, one entry per unit
    const size: array<int>
    const flags: array<int>
    const back: array<int>
    const next: array<int>
    const prev: array<int>

    var heads: seq<int>
    var flBitmap: nat
    var slBitmap: seq<nat>
    var active: seq<int>        // two ring entries per class
    var rotor: seq<int>

    var allocatedBytes: int
    var tombstonedBytes: int

    ghost var layout: Layout
    ghost var lists: seq<seq<nat>>
    ghost var home: map<nat, nat>    // search class of each temporal block
    ghost var lost: int              // bytes of tombstoned blocks that were freed
    ghost var stale: set<nat>        // classes with a ring entry left behind by a tombstoned temporal block

    ghost predicate Separate()
    {
      && size != flags && size != back && size != next && size != prev
      && flags != back && flags != next && flags != prev
      && back != next && back != prev && next != prev
      && size.Length == flags.Length == back.Length == next.Length == prev.Length == hi + 1
      && hi >= FIRST + MIN_UNITS && ALIGN * (hi - FIRST) == total <= POOL_MAX
      && flCount == Log2(total) - FL_SHIFT + 1 <= FL_COUNT
    }

    ghost predicate LinksOk()
      reads `heads, `lists, `flBitmap, `slBitmap, next, prev
    {
      Threaded(next[..], prev[..], heads, lists) && BitsOk(flBitmap, slBitmap, lists)
    }

    /** Everything but slots and counters. The block at `hole` is in transit, the header at `stale` has an old back pointer. */
    ghost predicate ValidBut(hole: int, stale: int)
      reads `heads, `lists, `flBitmap, `slBitmap, `layout, size, flags, back, next, prev
    {
      && Separate() && LinksOk()
      && Pictures(layout, hi, size[..], flags[..], back[..], lists, hole, stale)
    }

    /** The class under which block x is listed, from its header. */
    method Mapping(x: nat) returns (fi: nat, si: nat)
      requires Separate() && x <= hi && MIN_BLOCK <= size[x] <= total
      ensures fi < FL_COUNT && si < SL_COUNT && Idx(fi, si) == Class(size[x]) < LISTS
    {
      ClassInTable(size[x], total);
      var fs := MappingInsert(size[x]);
      fi, si := fs.0, fs.1;
    }

    /** List the block at x at the head of its class and mark it free. */
    method FlInsert(x: nat)
      requires Separate() && LinksOk()
      requires x <= hi && MIN_BLOCK <= size[x] <= total && !Listed(lists, x)
      modifies this`heads, this`lists, this`flBitmap, this`slBitmap, next, prev, flags
      ensures LinksOk() && |old(lists)| == LISTS && Class(size[x]) < LISTS
      ensures lists == old(lists)[Class(size[x]) := [x] + old(lists)[Class(size[x])]]
      ensures flags[..] == old(flags[..])[x := FLAG_FREE]
    {
      hide Class, Idx, Threaded, BitsOk, Listed;
      var fi, si := Mapping(x);
      var i := Idx(fi, si);
      InsertSteps(x, fi, si);
      var head := heads[i];
      next[x] := head;
      prev[x] := NIL;
      if head != NIL {
        prev[head] := x;
      }
      heads := heads[i := x];
      flags[x] := FLAG_FREE;
      flBitmap := Set(flBitmap, fi, MAP_BITS);
      slBitmap := slBitmap[fi := Set(slBitmap[fi], si, MAP_BITS)];
      lists := lists[i := [x] + lists[i]];
    }

    lemma InsertSteps(x: nat, fi: nat, si: nat)
      requires Separate() && LinksOk()
      requires x <= hi && !Listed(lists, x) && fi < FL_COUNT && si < SL_COUNT && Idx(fi, si) < LISTS
      ensures |heads| == |lists| == LISTS && |slBitmap| == FL_COUNT
      ensures Fits(slBitmap[fi], MAP_BITS) && Fits(flBitmap, MAP_BITS)
      ensures var i := Idx(fi, si);
              && (heads[i] == NIL || (0 <= heads[i] <= hi && heads[i] != x))
              && Threaded(next[..][x := heads[i]], SetBack(prev[..][x := NIL], heads[i], x), heads[i := x], lists[i := [x] + lists[i]])
              && BitsOk(Set(flBitmap, fi, MAP_BITS), slBitmap[fi := Set(slBitmap[fi], si, MAP_BITS)], lists[i := [x] + lists[i]])
    {
      ThreadedPush(next[..], prev[..], heads, lists, Idx(fi, si), x);
      BitsFill(flBitmap, slBitmap, lists, fi, si, [x] + lists[Idx(fi, si)]);
    }

    /** Take the block at x off the list of its class. */
    method FlRemove(x: nat) returns (ghost l: seq<nat>)
      requires Separate() && LinksOk()
      requires x <= hi && MIN_BLOCK <= size[x] <= total && |lists| == LISTS
      requires Class(size[x]) < LISTS ==> x in lists[Class(size[x])]
      modifies this`heads, this`lists, this`flBitmap, this`slBitmap, next, prev
      ensures LinksOk() && Class(size[x]) < LISTS
      ensures lists == old(lists)[Class(size[x]) := l]
      ensures forall t: nat :: t in l <==> t in old(lists)[Class(size[x])] && t != x
    {
      hide Class, Idx, Threaded, BitsOk, Log2, Clear, Fits, Pow2;
      var fi, si := Mapping(x);
      var i := Idx(fi, si);
      ghost var k: nat :| k < |lists[i]| && lists[i][k] == x;
      l := RemoveSteps(x, fi, si, k);
      Unlink(x, i);
      if heads[i] == NIL {
        MarkEmpty(fi, si);
      }
      lists := lists[i := l];
    }

    method Unlink(x: nat, i: nat)
      requires Separate() && x <= hi && i < |heads|
      requires (next[x] == NIL || 0 <= next[x] <= hi) && (prev[x] == NIL || 0 <= prev[x] <= hi)
      modifies this`heads, next, prev
      ensures heads == old(if prev[x] == NIL then heads[i := next[x]] else heads)
      ensures next[..] == old(if prev[x] == NIL then next[..] else next[..][prev[x] := next[x]])
      ensures prev[..] == old(SetBack(prev[..], next[x], prev[x]))
    {
      var pv, nx := prev[x], next[x];
      if pv != NIL {
        next[pv] := nx;
      } else {
        heads := heads[i := nx];
      }
      if nx != NIL {
        prev[nx] := pv;
      }
    }

    /** Clear the bit of list (fi, si), and its row's bit if that was the row's last. */
    method MarkEmpty(fi: nat, si: nat)
      requires fi < |slBitmap| && fi < MAP_BITS && si < MAP_BITS
      requires Fits(slBitmap[fi], MAP_BITS) && Fits(flBitmap, MAP_BITS)
      modifies this`flBitmap, this`slBitmap
      ensures slBitmap == old(slBitmap[fi := Clear(slBitmap[fi], si, MAP_BITS)])
      ensures flBitmap == old(if Clear(slBitmap[fi], si, MAP_BITS) == 0 then Clear(flBitmap, fi, MAP_BITS) else flBitmap)
    {
      var w := Clear(slBitmap[fi], si, MAP_BITS);
      slBitmap := slBitmap[fi := w];
      if w == 0 {
        flBitmap := Clear(flBitmap, fi, MAP_BITS);
      }
    }

    /** What unlinking the block at index k of list (fi, si) reads and leaves. */
    lemma RemoveSteps(x: nat, fi: nat, si: nat, k: nat) returns (l: seq<nat>)
      requires Separate() && LinksOk() && x <= hi && fi < FL_COUNT && si < SL_COUNT && Idx(fi, si) < LISTS
      requires |lists| == LISTS && k < |lists[Idx(fi, si)]| && lists[Idx(fi, si)][k] == x
      ensures |heads| == LISTS && |slBitmap| == FL_COUNT
      ensures Fits(slBitmap[fi], MAP_BITS) && Fits(flBitmap, MAP_BITS)
      ensures forall t: nat :: t in l <==> t in lists[Idx(fi, si)] && t != x
      ensures next[x] == NIL || 0 <= next[x] <= hi
      ensures prev[x] == NIL || 0 <= prev[x] <= hi
      ensures var i := Idx(fi, si);
              var heads' := if prev[x] == NIL then heads[i := next[x]] else heads;
              && Threaded(if prev[x] == NIL then next[..] else next[..][prev[x] := next[x]],
                          SetBack(prev[..], next[x], prev[x]), heads', lists[i := l])
              && (heads'[i] == NIL <==> l == [])
      ensures l != [] ==> BitsOk(flBitmap, slBitmap, lists[Idx(fi, si) := l])
      ensures var w := Clear(slBitmap[fi], si, MAP_BITS);
              l == [] ==> BitsOk(if w == 0 then Clear(flBitmap, fi, MAP_BITS) else flBitmap,
                                 slBitmap[fi := w], lists[Idx(fi, si) := l])
    {
      var i := Idx(fi, si);
      l := UnlinkAt(next[..], prev[..], heads, lists, i, k);
      hide Threaded, Idx;
      assert lists[i] != [];
      if l == [] {
        BitsDrain(flBitmap, slBitmap, lists, fi, si);
      } else {
        BitsKeep(flBitmap, slBitmap, lists, fi, si, l);
      }
    }

    // ---- a fresh pool ----

    /** One free block spans the pool between the sentinels. */
    constructor (ptr: nat, len: nat)
      requires ptr > 0 && PoolOf(ptr, len).Pool?
      ensures Valid()
      ensures base == PoolOf(ptr, len).base && total == PoolOf(ptr, len).total
      ensures layout == map[FIRST := Seg(hi - FIRST, Free)] && home == map[] && lost == 0 && stale == {}
      ensures fresh(size) && fresh(flags) && fresh(back) && fresh(next) && fresh(prev)
    {
      var pool := PoolOf(ptr, len);
      var fl := Log2(pool.total) - FL_SHIFT + 1;
      if fl > FL_COUNT {
        fl := FL_COUNT;
      }
      if fl < 1 {
        fl := 1;
      }
      ClassInTable(pool.total, pool.total);
      SizeLog(pool.total);
      var end := FIRST + pool.total / ALIGN;
      base, total, flCount, hi := pool.base, pool.total, fl, end;
      var sz, fg, bk := NewHeaders(end, pool.total);
      size, flags, back := sz, fg, bk;
      next, prev := new int[end + 1], new int[end + 1];
      heads, flBitmap, slBitmap := Filled<int>(LISTS, NIL), 0, Filled<nat>(FL_COUNT, 0);
      active, rotor := Filled<int>(2 * LISTS, NIL), Filled<int>(LISTS, 0);
      allocatedBytes, tombstonedBytes := 0, 0;
      layout := map[FIRST := Seg(end - FIRST, Free)];
      lists := Filled<seq<nat>>(LISTS, []);
      home, lost, stale := map[], 0, {};
      new;
      hide Filled, Log2, Pow2, PoolOf, Valid;
      FirstBlock();
    }

    /** The fields before the first block is listed. */
    ghost predicate Blank()
      reads this, size, flags, back
    {
      && Separate() && size[FIRST] == total && Headers(size[..], flags[..], back[..], hi)
      && heads == Filled<int>(LISTS, NIL) && lists == Filled<seq<nat>>(LISTS, []) && flBitmap == 0 && slBitmap == Filled<nat>(FL_COUNT, 0)
      && active == Filled<int>(2 * LISTS, NIL) && rotor == Filled<int>(LISTS, 0)
      && allocatedBytes == tombstonedBytes == lost == 0
      && layout == map[FIRST := Seg(hi - FIRST, Free)] && home == map[] && stale == {} && base > 0
    }

    method FirstBlock()
      requires Blank()
      modifies this`heads, this`lists, this`flBitmap, this`slBitmap, next, prev, flags
      ensures Valid()
    {
      hide Filled, Log2, Pow2, Class, BitsOk, Threaded, Valid, Listed;
      ClassInTable(total, total);
      EmptyLinks(next[..], prev[..]);
      FlInsert(FIRST);
      Started();
    }

    /** The fields once it is. */
    ghost predicate Starting()
      reads this, size, flags, back, next, prev
    {
      && Separate() && LinksOk()
      && size[FIRST] == total && Headers(size[..], flags[..], back[..], hi)
      && flags[FIRST] == FLAG_FREE
      && Class(total) < LISTS && lists == Filled<seq<nat>>(LISTS, [])[Class(total) := [FIRST] + []]
      && active == Filled<int>(2 * LISTS, NIL) && rotor == Filled<int>(LISTS, 0)
      && allocatedBytes == tombstonedBytes == lost == 0
      && layout == map[FIRST := Seg(hi - FIRST, Free)] && home == map[] && stale == {} && base > 0
    }

    lemma Started()
      requires Starting()
      ensures Valid()
    {
      hide Class, LinksOk, Accounted, Log2, Filled, Pictures, SlotsOk;
      InitialPictures(hi, size[..], flags[..], back[..], lists, Class(total));
      InitialSlots(layout, hi, flCount);
      EmptyAccounted(layout, UNIT_LOG2);
    }

    lemma Tables()
      requires LinksOk()
      ensures |heads| == |lists| == LISTS && |slBitmap| == FL_COUNT
    {
      hide Chain;
    }

    // ---- finding and cutting a block ----

    /** Rows past the last one in use hold nothing: no block is that large. */
    lemma HighRowsEmpty()
      requires ValidBut(NIL, NIL)
      ensures NoneBetween(lists, SL_COUNT * flCount, LISTS)
    {
      hide Class, Log2, SizesOk, FlagsOk, BacksOk, Apart;
      forall c | SL_COUNT * flCount <= c < LISTS && c < |lists|
        ensures lists[c] == []
      {
        if lists[c] != [] {
          var s := lists[c][0];
          assert s in lists[c];
          assert FreeIn(layout, s, c);
          ClassInTable(Bytes(layout, s), total);
          assert false by {
            ClassParts(Bytes(layout, s));
          }
        }
      }
    }

    /** The first nonempty class at or above the search class of `needed`. */
    method FindClass(needed: nat) returns (found: bool, fi: nat, si: nat)
      requires ValidBut(NIL, NIL) && Servable(needed, flCount)
      ensures fi < FL_COUNT && si < SL_COUNT && |lists| == LISTS
      ensures found ==> SearchClass(needed) <= Idx(fi, si) < LISTS && lists[Idx(fi, si)] != []
      ensures NoneBetween(lists, SearchClass(needed), if found then Idx(fi, si) else LISTS)
      ensures found ==> SearchClass(needed) < SL_COUNT * flCount && needed <= SEARCH_LIMIT
    {
      Tables();
      hide Pictures, Threaded, MappingSearch, RowOk, LevelOk, Log2;
      var fs := MappingSearch(needed);
      if fs.0 >= flCount {
        HighRowsEmpty();
        return false, 0, 0;
      }
      fi, si := fs.0, fs.1;
      ScanRow(slBitmap[fi], lists, fi, si);
      var slMap := Above(slBitmap[fi], si, MAP_BITS);
      if slMap == 0 {
        ScanLevel(flBitmap, slBitmap, lists, fi);
        var flMap := Above(flBitmap, fi + 1, MAP_BITS);
        if flMap == 0 {
          RowThenRows(lists, fi, si, FL_COUNT, 0);
          return false, 0, 0;
        }
        ghost var from := fi;
        fi := Ctz(flMap);
        slMap := slBitmap[fi];
        LowestOfRow(slMap, lists, fi);
        RowThenRows(lists, from, si, fi, Ctz(slMap));
      } else {
        RowNone(lists, fi, si, Ctz(slMap));
      }
      si := Ctz(slMap);
      return true, fi, si;
    }

    /** Pop the head of list (fi, si) into transit. */
    method PopClass(fi: nat, si: nat) returns (blk: nat)
      requires ValidBut(NIL, NIL) && fi < FL_COUNT && si < SL_COUNT && Idx(fi, si) < |lists| && lists[Idx(fi, si)] != []
      modifies this`heads, this`lists, this`flBitmap, this`slBitmap, this`layout, prev
      ensures FreeIn(old(layout), blk, Idx(fi, si)) && layout == Retag(old(layout), blk, Alloc)
      ensures NextUsed(layout, blk) && ValidBut(blk, NIL)
    {
      hide Pictures, Class, Idx, Threaded, BitsOk, NextUsed, Log2, Clear, Fits;
      var i := Idx(fi, si);
      ghost var l := PopSteps(fi, si);
      blk := heads[i];
      TakePictures(layout, hi, size[..], flags[..], back[..], lists, i, 0, l);
      var nx := next[blk];
      heads := heads[i := nx];
      if nx != NIL {
        prev[nx] := NIL;
      } else {
        MarkEmpty(fi, si);
      }
      lists := lists[i := l];
      layout := Retag(layout, blk, Alloc);
    }

    lemma PopSteps(fi: nat, si: nat) returns (l: seq<nat>)
      requires Separate() && LinksOk()
      requires fi < FL_COUNT && si < SL_COUNT && Idx(fi, si) < |lists| && lists[Idx(fi, si)] != []
      ensures |heads| == |lists| == LISTS && |slBitmap| == FL_COUNT && Idx(fi, si) < LISTS
      ensures Fits(slBitmap[fi], MAP_BITS) && Fits(flBitmap, MAP_BITS)
      ensures 0 <= heads[Idx(fi, si)] <= hi && heads[Idx(fi, si)] == lists[Idx(fi, si)][0]
      ensures forall t: nat :: t in l <==> t in lists[Idx(fi, si)] && t != lists[Idx(fi, si)][0]
      ensures var nx := next[heads[Idx(fi, si)]];
              && (nx == NIL || 0 <= nx <= hi)
              && Threaded(next[..], SetBack(prev[..], nx, NIL), heads[Idx(fi, si) := nx], lists[Idx(fi, si) := l])
              && (nx != NIL ==> BitsOk(flBitmap, slBitmap, lists[Idx(fi, si) := l]))
              && var w := Clear(slBitmap[fi], si, MAP_BITS);
              (nx == NIL ==> BitsOk(if w == 0 then Clear(flBitmap, fi, MAP_BITS) else flBitmap,
                                    slBitmap[fi := w], lists[Idx(fi, si) := l]))
    {
      var i := Idx(fi, si);
      ThreadedPop(next[..], prev[..], heads, lists, i);
      l := lists[i][1..];
      assert Chain(next[..], prev[..], heads[i], lists[i]);
      hide Threaded, Idx, Chain;
      if l == [] {
        BitsDrain(flBitmap, slBitmap, lists, fi, si);
      } else {
        BitsKeep(flBitmap, slBitmap, lists, fi, si, l);
      }
    }

    /** Write the headers on both sides of a cut `needed` bytes into block blk. */
    method WriteCut(blk: nat, needed: nat, remain: nat) returns (rem: nat)
      requires Separate() && BlockSize(needed) && BlockSize(remain) && needed + remain <= total
      requires FIRST <= blk && blk + needed / ALIGN + remain / ALIGN <= hi
      modifies size, back
      ensures rem == blk + needed / ALIGN
      ensures size[..] == old(size[..])[blk := needed][rem := remain]
      ensures back[..] == old(back[..])[rem := blk][rem + remain / ALIGN := rem]
    {
      hide U32, Log2;
      U32Exact(needed);
      U32Exact(remain);
      size[blk] := U32(needed);
      rem := blk + needed / ALIGN;
      size[rem] := U32(remain);
      back[rem] := blk;
      var after := rem + size[rem] / ALIGN;
      back[after] := rem;
    }

    /** Cut the block in transit down to `needed` bytes; a remainder of a block's size goes back on a list. */
    method TrySplit(blk: nat, needed: nat)
      requires ValidBut(blk, NIL) && blk in layout && !layout[blk].kind.Free? && NextUsed(layout, blk)
      requires BlockSize(needed) && needed <= Bytes(layout, blk)
      modifies this`heads, this`lists, this`flBitmap, this`slBitmap, this`layout, size, flags, back, next, prev
      ensures layout == Trim(old(layout), blk, needed / ALIGN)
      ensures ValidBut(blk, NIL)
    {
      hide Pictures, Class, Threaded, BitsOk, NextUsed, Sound, Listed, Log2, BlockSize;
      Tables();
      SizeRead(blk, blk, NIL);
      var remain := size[blk] - needed;
      ghost var n := Units(layout, blk, needed);
      if remain < MIN_BLOCK {
        return;
      }
      ClassInTable(remain, total);
      SplitPictures(layout, hi, size[..], flags[..], back[..], lists, blk, n, Class(remain));
      var rem := WriteCut(blk, needed, remain);
      FlInsert(rem);
      layout := SplitAt(layout, blk, n);
    }

    /** A cut in bytes, counted in units. */
    lemma Units(m: Layout, blk: nat, needed: nat) returns (n: nat)
      requires blk in m && BlockSize(needed) && needed <= Bytes(m, blk)
      ensures n == needed / ALIGN && ALIGN * n == needed && MIN_UNITS <= n <= m[blk].size
      ensures Bytes(m, blk) - needed >= MIN_BLOCK <==> m[blk].size - n >= MIN_UNITS
      ensures Bytes(m, blk) - needed >= MIN_BLOCK ==> BlockSize(Bytes(m, blk) - needed)
      ensures (Bytes(m, blk) - needed) / ALIGN == m[blk].size - n && Bytes(m, blk) - needed == ALIGN * (m[blk].size - n)
    {
      n := needed / ALIGN;
    }

    lemma SizeRead(s: nat, hole: int, stale: int)
      requires ValidBut(hole, stale) && s in layout
      ensures FIRST <= s < hi && End(layout, s) <= hi && size[s] == Bytes(layout, s) && MIN_BLOCK <= size[s] <= total
    {
      hide FlagsOk, BacksOk, FreeListed, Apart;
    }

    // ---- giving a block back ----

    /** A free block's header puts it in the table, and its list holds it. */
    lemma FreeRead(x: nat, hole: int, stale: int)
      requires ValidBut(hole, stale) && x in layout && layout[x].kind.Free?
      ensures x <= hi && size[x] == Bytes(layout, x) && MIN_BLOCK <= size[x] <= total && |lists| == LISTS
      ensures Class(size[x]) < LISTS && FreeIn(layout, x, Class(size[x])) && x in lists[Class(size[x])]
    {
      Tables();
      hide FlagsOk, BacksOk, Apart, Class, Log2, LinksOk;
      SizeRead(x, hole, stale);
      ClassInTable(size[x], total);
      assert FreeIn(layout, x, Class(size[x]));
    }

    /** The block at a and the one after it become one in transit; `s` says which was in transit, `x` is the free one. */
    method FuseWith(a: nat, s: nat, x: nat, ghost stale: int)
      requires ValidBut(s, stale) && a in layout && End(layout, a) in layout && s in layout && layout[s].kind.Alloc?
      requires (s == a && x == End(layout, a)) || (s == End(layout, a) && x == a)
      requires layout[x].kind.Free? && (stale == NIL || stale == End(layout, End(layout, a)))
      modifies this`heads, this`lists, this`flBitmap, this`slBitmap, this`layout, size, next, prev
      ensures layout == Fuse(old(layout), a, Alloc) && ValidBut(a, End(layout, a))
    {
      hide Pictures, Class, Threaded, BitsOk, Log2, U32, FreeIn, Listed;
      ghost var e := End(layout, a);
      FreeRead(x, s, stale);
      SizeRead(a, s, stale);
      SizeRead(e, s, stale);
      assert U32(size[a] + size[e]) == size[a] + size[e] by {
        Tiled(s, stale);
        SumFits(layout, hi, a);
      }
      ghost var l0 := lists;
      ghost var l := FlRemove(x);
      FusePictures(layout, hi, size[..], flags[..], back[..], l0, a, s, Class(size[x]), l, stale);
      var b := if s == a then x else s;
      size[a] := U32(size[a] + size[b]);
      layout := Fuse(layout, a, Alloc);
    }

    lemma Tiled(hole: int, stale: int)
      requires ValidBut(hole, stale)
      ensures Sound(layout, hi) && Tiles(layout, FIRST, hi)
    {
    }

    /** Forward merge. */
    method MergeNext(s: nat) returns (merged: bool)
      requires ValidBut(s, NIL) && s in layout && layout[s].kind.Alloc?
      modifies this`heads, this`lists, this`flBitmap, this`slBitmap, this`layout, size, next, prev
      ensures s in layout && layout[s].kind.Alloc? && NextUsed(layout, s)
      ensures ValidBut(s, if merged then End(layout, s) else NIL)
      ensures Occupied(layout) - {s} == Occupied(old(layout)) - {s}
      ensures Temporals(layout) == Temporals(old(layout))
    {
      hide Pictures, LinksOk, Sound, Tiles, NextUsed, Occupied, Temporals, Log2;
      ReadNext(layout, hi, size[..], flags[..], back[..], lists, s, NIL);
      var nx := s + size[s] / ALIGN;
      assert nx == End(layout, s);
      if flags[nx] != FLAG_FREE {
        return false;
      }
      Tiled(s, NIL);
      FuseNextSound(layout, hi, s);
      TemporalsFuse(layout, s, Alloc);
      FuseWith(s, s, nx, NIL);
      return true;
    }

    /** Backward merge; `merged` says whether a forward merge left the next back pointer behind. */
    method MergePrev(s: nat, merged: bool) returns (blk: nat, merged': bool)
      requires s in layout && layout[s].kind.Alloc? && NextUsed(layout, s)
      requires ValidBut(s, if merged then End(layout, s) else NIL)
      modifies this`heads, this`lists, this`flBitmap, this`slBitmap, this`layout, size, next, prev
      ensures blk in layout && layout[blk].kind.Alloc? && NextUsed(layout, blk) && PrevUsed(layout, blk)
      ensures ValidBut(blk, if merged' then End(layout, blk) else NIL)
      ensures Occupied(layout) - {blk} == Occupied(old(layout)) - {s}
      ensures Temporals(layout) == Temporals(old(layout))
    {
      hide Pictures, LinksOk, Sound, Tiles, NextUsed, PrevUsed, Occupied, Temporals, Log2;
      ghost var stale: int := if merged then End(layout, s) else NIL;
      SizeRead(s, s, stale);
      ghost var q := ReadPrev(layout, hi, size[..], flags[..], back[..], lists, s, stale);
      var p := back[s];
      if p == NIL || flags[p] != FLAG_FREE {
        return s, merged;
      }
      Tiled(s, stale);
      FusePrevSound(layout, hi, q, s);
      TemporalsFuse(layout, q, Alloc);
      FuseWith(p, s, p, stale);
      return p, true;
    }

    /** Free the block in transit, merging it with the free blocks on both sides. */
    method CoalesceAndFree(s: nat)
      requires ValidBut(s, NIL) && s in layout && layout[s].kind.Alloc?
      modifies this`heads, this`lists, this`flBitmap, this`slBitmap, this`layout, size, flags, back, next, prev
      ensures ValidBut(NIL, NIL)
      ensures Occupied(layout) == Occupied(old(layout)) - {s} && Temporals(layout) == Temporals(old(layout))
    {
      hide Pictures, LinksOk, Sound, Tiles, NextUsed, PrevUsed, Occupied, Temporals, Log2, Class, Listed;
      var merged := MergeNext(s);
      var blk;
      blk, merged := MergePrev(s, merged);
      SizeRead(blk, blk, if merged then End(layout, blk) else NIL);
      if merged {
        RepairPictures(layout, hi, size[..], flags[..], back[..], lists, blk);
        var after := blk + size[blk] / ALIGN;
        back[after] := blk;
      }
      assert ValidBut(blk, NIL);
      Release(blk);
    }

    method Release(blk: nat)
      requires ValidBut(blk, NIL) && blk in layout && layout[blk].kind.Alloc? && NextUsed(layout, blk) && PrevUsed(layout, blk)
      modifies this`heads, this`lists, this`flBitmap, this`slBitmap, this`layout, flags, next, prev
      ensures ValidBut(NIL, NIL) && layout == Retag(old(layout), blk, Free)
      ensures Occupied(layout) == Occupied(old(layout)) - {blk} && Temporals(layout) == Temporals(old(layout))
    {
      hide Pictures, Threaded, BitsOk, Sound, Tiles, NextUsed, PrevUsed, Occupied, Temporals, Log2, Class, Listed;
      Tables();
      SizeRead(blk, blk, NIL);
      ClassInTable(size[blk], total);
      InTransit(blk);
      PushPictures(layout, hi, size[..], flags[..], back[..], lists, blk, Class(size[blk]));
      RetagOccupied(layout, blk);
      TemporalsRetag(layout, blk, Free);
      NotTemporal(layout, blk);
      FlInsert(blk);
      layout := Retag(layout, blk, Free);
    }

    lemma InTransit(blk: nat)
      requires ValidBut(blk, NIL) && blk in layout && !layout[blk].kind.Free?
      ensures !Listed(lists, blk) && layout[blk].size >= MIN_UNITS
    {
      NotListed(layout, lists, blk);
    }

    // ---- the book's operations ----

    ghost predicate Valid()
      reads this, size, flags, back, next, prev
    {
      && ValidBut(NIL, NIL)
      && SlotsOk(Temporals(layout), hi, flCount, active, home, stale)
      && Accounted(layout, allocatedBytes, tombstonedBytes, lost, UNIT_LOG2)
      && |rotor| == LISTS && (forall c :: 0 <= c < LISTS ==> 0 <= rotor[c] <= 1)
      && base > 0
    }

    /** What the client sees of the block at s: the bytes after its header. */
    function Address(s: nat): nat
    {
      base + ALIGN * s + ALIGN
    }

    /** Take a block of `needed` bytes out of the free blocks and give it state k; NIL if none is found. */
    method Carve(needed: nat, ghost k: Kind, flag: int) returns (blk: int)
      requires ValidBut(NIL, NIL) && BlockSize(needed) && Servable(needed, flCount) && (k.Alloc? || k.Temporal?) && flag == FlagOf(k)
      requires Accounted(layout, allocatedBytes, tombstonedBytes, lost, UNIT_LOG2)
      modifies this`heads, this`lists, this`flBitmap, this`slBitmap, this`layout, this`allocatedBytes
      modifies size, flags, back, next, prev
      ensures ValidBut(NIL, NIL) && Accounted(layout, allocatedBytes, tombstonedBytes, lost, UNIT_LOG2)
      ensures blk == NIL <==> !HasFit(old(layout), needed)
      ensures blk == NIL ==> layout == old(layout)
      ensures blk != NIL ==> Carved(old(layout), blk, needed, k)
    {
      hide Pictures, LinksOk, Accounted, NoneBetween, Taken, HasFit, Trim, SearchClass, Class, Idx, Log2, Wrap, NextUsed;
      hide Temporals, Occupied, Shl, Sound, FreeListed;
      ghost var m := layout;
      Listing();
      var found, fi, si := FindClass(needed);
      if !found {
        NoneFits(m, lists, hi, needed);
        return NIL;
      }
      ghost var l0 := lists;
      blk := PopClass(fi, si);
      TakenBy(m, l0, hi, blk, needed, Idx(fi, si), k);
      TrySplit(blk, needed);
      Mark(blk, k, flag);
      SizeRead(blk, NIL, NIL);
      ShlUnits(layout[blk].size);
      GrantRecount(m, layout, blk, layout[blk], allocatedBytes, tombstonedBytes, lost, UNIT_LOG2);
      allocatedBytes := Wrap(allocatedBytes + size[blk]);
    }

    /** What Carve leaves behind: block blk, handed out in state k. */
    ghost predicate Carved(m: Layout, blk: int, needed: nat, k: Kind)
      requires Separate() && Searchable(needed)
      reads this`layout, size
    {
      && 0 < blk < hi && blk in layout && size[blk] == Bytes(layout, blk)
      && Taken(m, layout, blk, layout[blk].size, needed, k)
      && SearchClass(needed) < SL_COUNT * flCount
      && Temporals(layout) == if k.Temporal? then Temporals(m)[blk := layout[blk].size] else Temporals(m)
    }

    lemma Listing()
      requires ValidBut(NIL, NIL)
      ensures Sound(layout, hi) && FreeListed(layout, lists) && |lists| == LISTS
    {
      Tables();
    }

    lemma ShlUnits(u: nat)
      ensures Shl(u, UNIT_LOG2) == ALIGN * u
    {
      assert Shl(u, 5) == 4 * Shl(u, 3);
      assert Shl(u, 3) == 4 * Shl(u, 1);
    }

    /** Write the state of the block in transit. */
    method Mark(blk: nat, ghost k: Kind, flag: int)
      requires ValidBut(blk, NIL) && blk in layout && !layout[blk].kind.Free? && InUse(k) && flag == FlagOf(k)
      modifies this`layout, flags
      ensures ValidBut(NIL, NIL) && layout == Retag(old(layout), blk, k)
    {
      hide Pictures, LinksOk, Log2;
      StampPictures(layout, hi, size[..], flags[..], back[..], lists, blk, k);
      flags[blk] := flag;
      layout := Retag(layout, blk, k);
    }

    /** A block of `needed` bytes was cut from the tightest class sure to fit and handed out in state k. */
    ghost predicate Granted(m: Layout, r: Chunk, needed: nat, k: Kind)
      requires Searchable(needed)
      reads this`layout
    {
      exists x: nat :: x in layout && GrantedAt(m, r, x, needed, k)
    }

    ghost predicate GrantedAt(m: Layout, r: Chunk, x: nat, needed: nat, k: Kind)
      requires Searchable(needed) && x in layout
      reads this`layout
    {
      && Bytes(layout, x) >= ALIGN && r == Chunk(Address(x), Bytes(layout, x) - ALIGN)
      && Taken(m, layout, x, layout[x].size, needed, k)
    }

    /**
     The requests this pool answers rightly: refused for their sheer size, or with a block size whose
     search keeps its promise here.
     */
    predicate Serves(n: nat)
    {
      AdjustedBlockSize(n) == 0 || Servable(AdjustedBlockSize(n), flCount)
    }

    /**
     Good fit: a request succeeds exactly when some free block lies in a class all of whose blocks
     hold it. The payload exceeds the request by at least 32 bytes.
     */
    method Allocate(n: nat) returns (r: Chunk)
      requires Valid() && Serves(n)
      modifies this`heads, this`lists, this`flBitmap, this`slBitmap, this`layout, this`allocatedBytes
      modifies size, flags, back, next, prev
      ensures Valid()
      ensures r.Null? <==> AdjustedBlockSize(n) == 0 || !HasFit(old(layout), AdjustedBlockSize(n))
      ensures r.Null? ==> layout == old(layout)
      ensures r.Chunk? ==> n + ALIGN <= r.len && Granted(old(layout), r, AdjustedBlockSize(n), Alloc)
    {
      hide ValidBut, Accounted, SlotsOk, HasFit, Taken, Temporals, SearchClass, Log2;
      var needed := AdjustedBlockSize(n);
      if needed == 0 {
        return Null;
      }
      var blk := Carve(needed, Alloc, FLAG_ALLOC);
      if blk == NIL {
        return Null;
      }
      Rows();
      GrantedSize(old(layout), layout, blk, needed, Alloc);
      r := Chunk(base + ALIGN * blk + ALIGN, size[blk] - ALIGN);
      assert GrantedAt(old(layout), r, blk, needed, Alloc);
    }

    static lemma GrantedSize(m: Layout, m': Layout, x: nat, needed: nat, k: Kind)
      requires Searchable(needed) && x in m' && Taken(m, m', x, m'[x].size, needed, k)
      ensures needed <= Bytes(m', x) <= needed + ALIGN
    {
      hide Suits, Class;
    }

    /** The ring entry of class c the rotor points at, or else the other one. */
    function RingHit(c: nat): int
      reads this`active, this`rotor
    {
      if c < |rotor| && 0 <= rotor[c] <= 1 && 2 * c + 1 < |active| then
        if active[2 * c + rotor[c]] != NIL then active[2 * c + rotor[c]] else active[2 * c + (1 - rotor[c])]
      else NIL
    }

    /** The ring first, then the free blocks. */
    method TemporalAllocate(n: nat) returns (r: Chunk)
      requires Valid() && Serves(n)
      modifies this`heads, this`lists, this`flBitmap, this`slBitmap, this`layout, this`allocatedBytes
      modifies this`active, this`rotor, this`home
      modifies size, flags, back, next, prev
      ensures Valid()
      ensures AdjustedBlockSize(n) == 0 ==> r.Null? && layout == old(layout)
      ensures AdjustedBlockSize(n) > 0 ==>
                TemporalGiven(old(layout), r, n, AdjustedBlockSize(n), old(RingHit(SearchClass(AdjustedBlockSize(n)))))
      ensures r.Chunk? ==> var c := SearchClass(AdjustedBlockSize(n));
                           Shares(r, c) <==> c !in stale
    {
      hide ValidBut, Accounted, HasFit, Taken, Temporals, SearchClass, MappingSearch, Log2, SlotsOk, HomeFits, Granted, Wrap;
      hide Rounded, Pow2, BlockSize, SharedAt;
      var needed := AdjustedBlockSize(n);
      if needed == 0 {
        return Null;
      }
      var fs := MappingSearch(needed);
      var c := Idx(fs.0, fs.1);
      SearchIdx(needed);
      Rings();
      if fs.0 < flCount {
        var k := rotor[c];
        var blk := active[2 * c + k];
        if blk == NIL {
          k := 1 - k;
          blk := active[2 * c + k];
        }
        if blk != NIL {
          ghost var x := HitRead(2 * c + k);
          rotor := rotor[c := 1 - k];
          return Chunk(base + ALIGN * blk + ALIGN, Wrap(size[blk] - ALIGN));
        }
      }
      r := FreshTemporal(n, needed, c);
    }

    /** What a temporal request yields: the block its ring entry names, or else a fresh one. */
    ghost predicate TemporalGiven(m: Layout, r: Chunk, n: nat, needed: nat, hit: int)
      requires Searchable(needed)
      reads this`layout
    {
      if hit != NIL then
        hit >= 0 && layout == m && r.Chunk? && r.ptr == Address(hit)
      else
        && (r.Null? <==> !HasFit(m, needed)) && (r.Null? ==> layout == m)
        && (r.Chunk? ==> n + ALIGN <= r.len && Granted(m, r, needed, Temporal))
    }

    /** x is a temporal block asked for under class c. */
    ghost predicate SharedAt(x: nat, c: nat)
      reads this`layout, this`home
    {
      x in layout && layout[x].kind.Temporal? && x in home && home[x] == c
    }

    /** r is the temporal block of class c, at its full length. */
    ghost predicate Shares(r: Chunk, c: nat)
      reads this`layout, this`home
    {
      exists x: nat :: SharedAt(x, c) && Bytes(layout, x) >= ALIGN && r == Chunk(Address(x), Bytes(layout, x) - ALIGN)
    }

    static lemma SearchIdx(needed: nat)
      requires Searchable(needed)
      ensures Idx(MappingSearch(needed).0, MappingSearch(needed).1) == SearchClass(needed)
    {
      hide MappingSearch;
    }

    lemma Rings()
      requires Valid()
      ensures |active| == 2 * LISTS && flCount <= FL_COUNT
      ensures forall i :: 0 <= i < |active| ==> active[i] == NIL || (0 < active[i] < hi < size.Length && i < 2 * SL_COUNT * flCount)
    {
      hide Pictures, LinksOk, Accounted, HomeOk, RingsOk, Log2, Temporals;
    }

    /** A ring entry names the temporal block of its class exactly when the class is not stale. */
    lemma HitRead(i: nat) returns (x: nat)
      requires Valid() && i < |active| && active[i] != NIL
      ensures active[i] == x && x < size.Length
      ensures SharedAt(x, i / 2) <==> i / 2 !in stale
      ensures i / 2 !in stale ==> Bytes(layout, x) >= ALIGN && Wrap(size[x] - ALIGN) == Bytes(layout, x) - ALIGN
      ensures i / 2 in stale ==> forall t: nat :: !SharedAt(t, i / 2)
    {
      hide ValidBut, Accounted, SlotsOk, Log2, Wrap, Temporals;
      Rows();
      Rings();
      x := RingNames(Temporals(layout), hi, flCount, active, home, stale, i);
      TemporalIn(layout, x);
      if i / 2 !in stale {
        SizeRead(x, NIL, NIL);
        WrapSmall(size[x] - ALIGN);
      } else {
        NoneShared(i / 2);
      }
    }

    /** A stale class has no temporal block. */
    lemma NoneShared(c: nat)
      requires Valid() && c in stale && c < LISTS
      ensures forall t: nat :: !SharedAt(t, c)
    {
      hide ValidBut, Accounted, Temporals, HomeOk, EntriesOk;
      assert RingState(active[2 * c], active[2 * c + 1], home, c, c in stale);
    }

    method FreshTemporal(n: nat, needed: nat, c: nat) returns (r: Chunk)
      requires Valid() && needed == AdjustedBlockSize(n) && Servable(needed, flCount) && c == SearchClass(needed)
      requires c < LISTS ==> active[2 * c] == NIL && active[2 * c + 1] == NIL
      modifies this`heads, this`lists, this`flBitmap, this`slBitmap, this`layout, this`allocatedBytes
      modifies this`active, this`rotor, this`home
      modifies size, flags, back, next, prev
      ensures Valid()
      ensures r.Null? <==> !HasFit(old(layout), needed)
      ensures r.Null? ==> layout == old(layout)
      ensures r.Chunk? ==> n + ALIGN <= r.len && Granted(old(layout), r, needed, Temporal)
      ensures r.Chunk? ==> Shares(r, c) && c !in stale
    {
      hide ValidBut, Accounted, HasFit, Taken, Temporals, SearchClass, Log2, SlotsOk, HomeFits;
      Rings();
      ghost var m := layout;
      var blk := Carve(needed, Temporal, FLAG_ALLOC + FLAG_TEMPORAL);
      if blk == NIL {
        return Null;
      }
      Rows();
      GrantedSize(m, layout, blk, needed, Temporal);
      HomeOf(m, blk, needed);
      RegisterSlots(Temporals(m), hi, flCount, active, home, stale, blk, layout[blk].size, c, 2 * c + rotor[c]);
      active := active[2 * c + rotor[c] := blk];
      home := home[blk := c];
      rotor := rotor[c := 1 - rotor[c]];
      r := Chunk(base + ALIGN * blk + ALIGN, size[blk] - ALIGN);
      assert GrantedAt(m, r, blk, needed, Temporal);
      TemporalIn(layout, blk);
      assert SharedAt(blk, c);
      EntryFresh(blk);
    }

    /** The class of a live temporal block is not stale. */
    lemma EntryFresh(s: nat)
      requires SlotsOk(Temporals(layout), hi, flCount, active, home, stale) && s in Temporals(layout)
      ensures s in home && home[s] !in stale
    {
      hide Temporals, SlotsOk, HomeFits;
      RingFinds(Temporals(layout), hi, flCount, active, home, stale, s);
    }

    lemma Rows()
      requires ValidBut(NIL, NIL)
      ensures flCount <= FL_COUNT && ALIGN * (hi - FIRST) == total <= POOL_MAX && size.Length == hi + 1
    {
    }

    /** A fresh temporal block fits its class, and was not temporal before. */
    lemma HomeOf(m: Layout, blk: nat, needed: nat)
      requires ValidBut(NIL, NIL) && BlockSize(needed) && Servable(needed, flCount) && Carved(m, blk, needed, Temporal)
      ensures blk !in Temporals(m) && HomeFits(layout[blk].size, SearchClass(needed), flCount)
    {
      hide SearchClass, Class, Pictures, LinksOk;
      SizeRead(blk, NIL, NIL);
    }

    // ---- exact requests ----

    /**
     The head of the list of the requested power of two, never cut. Its blocks are less than a
     sixteenth larger than asked for.
     */
    method AllocateExact(n: nat) returns (r: Chunk)
      requires Valid()
      modifies this`heads, this`lists, this`flBitmap, this`slBitmap, this`layout, this`allocatedBytes
      modifies flags, next, prev
      ensures Valid()
      ensures r.Null? ==> layout == old(layout)
      ensures r.Chunk? <==> ExactSize(n) && exists x: nat :: FreeIn(old(layout), x, Class(n))
      ensures r.Chunk? ==> exists x: nat :: x in old(layout) && ExactAt(old(layout), r, x, n)
    {
      hide ValidBut, Accounted, SlotsOk, Class, Temporals, Log2, And, FreeIn, MappingInsert, Wrap, Occupied, Pow2, Shl;
      if n < MIN_BLOCK {
        return Null;
      }
      PowerTest(n);
      if And(n, n - 1) != 0 {
        return Null;
      }
      var fs := MappingInsert(n);
      var i := Idx(fs.0, fs.1);
      InsertIdx(n);
      HeadTells(i);
      if fs.0 >= flCount || heads[i] == NIL {
        return Null;
      }
      ghost var m := layout;
      var blk := heads[i];
      ExactRange(m, blk, n);
      TakeListed(blk);
      Mark(blk, Alloc, FLAG_ALLOC);
      Rows();
      SizeRead(blk, NIL, NIL);
      TakenWhole(m, blk);
      ShlUnits(m[blk].size);
      GrantRecount(m, layout, blk, layout[blk], allocatedBytes, tombstonedBytes, lost, UNIT_LOG2);
      allocatedBytes := Wrap(allocatedBytes + size[blk]);
      r := Chunk(base + ALIGN * blk + ALIGN, size[blk] - ALIGN);
      assert ExactAt(m, r, blk, n);
    }

    static lemma InsertIdx(n: nat)
      requires n >= MIN_BLOCK
      ensures Idx(MappingInsert(n).0, MappingInsert(n).1) == Class(n)
    {
      hide MappingInsert;
    }

    /** The head of list i, if any, is a free block of class i; an empty list means there is none. */
    lemma HeadTells(i: nat)
      requires ValidBut(NIL, NIL)
      ensures |heads| == LISTS && flCount <= FL_COUNT
      ensures i >= SL_COUNT * flCount || heads[i] == NIL ==> forall x: nat :: !FreeIn(layout, x, i)
      ensures i < LISTS && heads[i] != NIL ==> 0 <= heads[i] <= hi && heads[i] in layout && FreeIn(layout, heads[i], i)
    {
      Tables();
      HighRowsEmpty();
      Listing();
      hide Sound, Class, SizesOk, FlagsOk, BacksOk, BitsOk, Log2;
      if i < LISTS {
        HeadListed(next[..], prev[..], heads, lists, i);
        if heads[i] == NIL {
          assert lists[i] == [];
        }
        if heads[i] != NIL {
          assert FreeIn(layout, heads[i], i);
          SizeRead(heads[i], NIL, NIL);
        }
      } else {
        forall x: nat
          ensures !FreeIn(layout, x, i)
        {
          if FreeIn(layout, x, i) {
            FitListed(layout, lists, hi, x);
          }
        }
      }
    }

    static lemma ExactRange(m: Layout, x: nat, n: nat)
      requires ExactSize(n) && FreeIn(m, x, Class(n))
      ensures x in m && m[x].kind.Free? && n <= Bytes(m, x) < n + n / SL_COUNT && Bytes(m, x) >= MIN_BLOCK
    {
      hide Class, Log2;
      ExactClass(n, Bytes(m, x));
    }

    static lemma TakenWhole(m: Layout, x: nat)
      requires x in m && m[x].kind.Free?
      ensures var n := Retag(Retag(m, x, Alloc), x, Alloc);
              && n[x] == Seg(m[x].size, Alloc) && x !in Occupied(m)
              && Occupied(n) == Occupied(m)[x := n[x]] && Temporals(n) == Temporals(m)
    {
      var n := Retag(m, x, Alloc);
      assert Retag(n, x, Alloc) == n;
      TakeOccupied(m, x, Alloc);
      PutBack(n, m, x);
      TemporalsRetag(m, x, Alloc);
      NotTemporal(m, x);
    }

    /** Take the free block at x off its list, into transit. */
    method TakeListed(x: nat)
      requires ValidBut(NIL, NIL) && x in layout && layout[x].kind.Free?
      modifies this`heads, this`lists, this`flBitmap, this`slBitmap, this`layout, next, prev
      ensures layout == Retag(old(layout), x, Alloc) && ValidBut(x, NIL)
    {
      hide Pictures, Class, Threaded, BitsOk, Log2, FreeIn, NextUsed;
      FreeRead(x, NIL, NIL);
      ghost var l0 := lists;
      ghost var c := Class(size[x]);
      ghost var k: nat :| k < |l0[c]| && l0[c][k] == x;
      ghost var l := FlRemove(x);
      TakePictures(layout, hi, size[..], flags[..], back[..], l0, c, k, l);
      layout := Retag(layout, x, Alloc);
    }

    static predicate ExactSize(n: nat)
    {
      n >= MIN_BLOCK && n == Pow2(Log2(n))
    }

    ghost predicate ExactAt(m: Layout, r: Chunk, x: nat, n: nat)
      requires x in m
      reads this`layout
    {
      && m[x].kind.Free? && n <= Bytes(m, x) < n + n / SL_COUNT
      && Occupied(layout) == Occupied(m)[x := Seg(m[x].size, Alloc)]
      && Bytes(m, x) >= ALIGN && r == Chunk(Address(x), Bytes(m, x) - ALIGN)
    }

    // ---- giving back ----

    /** ptr is the address of a block in use. */
    ghost predicate Names(ptr: int)
      reads `layout
    {
      exists s: nat :: s in layout && InUse(layout[s].kind) && ptr == Address(s)
    }

    /** ptr is the address of some block, in use or free. */
    ghost predicate Starts(ptr: int)
      reads `layout
    {
      exists s: nat :: s in layout && ptr == Address(s)
    }

    /** The block at ptr, through its header. */
    lemma HeaderAt(ptr: int) returns (s: nat)
      requires ValidBut(NIL, NIL) && Starts(ptr)
      ensures ptr - base - ALIGN == ALIGN * s && s in layout && ptr == Address(s)
      ensures s < hi && flags.Length == size.Length == hi + 1
      ensures size[s] == Bytes(layout, s) && flags[s] == FlagOf(layout[s].kind) && MIN_BLOCK <= size[s] <= total <= POOL_MAX
      ensures layout[s].kind.Free? || InUse(layout[s].kind)
      ensures Names(ptr) <==> InUse(layout[s].kind)
    {
      hide BacksOk, FreeListed, Tiles, Apart, LinksOk, Log2;
      s :| s in layout && ptr == Address(s);
      SizeRead(s, NIL, NIL);
    }

    /** Clear the first ring entry of the class searched for `sz` bytes that names s. */
    method ClearClass(s: nat, sz: nat) returns (found: bool)
      requires MIN_BLOCK <= sz <= SEARCH_LIMIT && |active| == 2 * LISTS && flCount <= FL_COUNT
      modifies this`active
      ensures active == if SearchClass(sz) < SL_COUNT * flCount then ClearSlot(old(active), SearchClass(sz), s) else old(active)
      ensures found <==> active != old(active)
    {
      hide MappingSearch;
      var fs := MappingSearch(sz);
      if fs.0 >= flCount {
        return false;
      }
      var c := Idx(fs.0, fs.1);
      var r := 0;
      while r < 2
        invariant 0 <= r <= 2 && active == old(active)
        invariant r >= 1 ==> active[2 * c] != s
        invariant r == 2 ==> active[2 * c + 1] != s
      {
        if active[2 * c + r] == s {
          active := active[2 * c + r := NIL];
          assert active[2 * c + r] == NIL;
          return true;
        }
        r := r + 1;
      }
      return false;
    }

    /**
     Forget the temporal block s of bsz bytes. A block one unit larger than was asked for is
     found under the class of the smaller size, unless a stale entry under the larger one is met first.
     */
    method ClearTemporal(s: nat, bsz: nat)
      requires SlotsOk(Temporals(layout), hi, flCount, active, home, stale) && flCount <= FL_COUNT
      requires s in layout && layout[s].kind.Temporal? && bsz == Bytes(layout, s) && BlockSize(bsz) && bsz <= POOL_MAX
      modifies this`active, this`home, this`stale
      ensures SlotsOk(Temporals(layout) - {s}, hi, flCount, active, home, stale)
      ensures |old(active)| == 2 * LISTS && s in old(home) && home == old(home) - {s}
      ensures var f := ForgetClass(old(active), flCount, s, bsz);
              && f < LISTS && active == ClearSlot(old(active), f, s)
              && stale == StaleAfter(old(stale), f, old(home)[s])
    {
      hide SearchClass, ClearSlot, HomeOk, RingsOk, Temporals, EntriesOk, StaleAfter;
      ghost var temps := Temporals(layout);
      TemporalIn(layout, s);
      TemporalSize(s);
      ghost var a0 := active;
      RingLength();
      ForgetFinds(temps, hi, flCount, active, home, stale, s, bsz);
      ghost var f := ForgetClass(active, flCount, s, bsz);
      ClearClassSlots(temps, hi, flCount, active, home, stale, s, f);
      if SearchClass(bsz) < LISTS {
        ClearTells(active, SearchClass(bsz), s);
      }
      var found := ClearClass(s, bsz);
      if !found && bsz > MIN_BLOCK {
        found := ClearClass(s, bsz - ALIGN);
      }
      assert active == ClearSlot(a0, f, s);
      stale := StaleAfter(stale, f, home[s]);
      home := home - {s};
    }

    static lemma ClearTells(active: seq<int>, c: nat, s: nat)
      requires 2 * c + 1 < |active|
      ensures ClearSlot(active, c, s) != active <==> active[2 * c] == s || active[2 * c + 1] == s
    {
    }

    lemma RingLength()
      requires SlotsOk(Temporals(layout), hi, flCount, active, home, stale)
      ensures |active| == 2 * LISTS
    {
    }

    lemma TemporalSize(s: nat)
      requires s in layout && layout[s].kind.Temporal?
      ensures s in Temporals(layout) && ALIGN * Temporals(layout)[s] == Bytes(layout, s)
    {
    }

    /**
     Free a block. The layout afterwards is the one fixed by the remaining blocks in use; a block
     that is free already is refused.
     */
    method Deallocate(ptr: int) returns (r: Outcome)
      requires Valid() && (ptr == 0 || Starts(ptr))
      modifies this`heads, this`lists, this`flBitmap, this`slBitmap, this`layout, this`active, this`home
      modifies this`allocatedBytes, this`tombstonedBytes, this`lost, this`stale
      modifies size, flags, back, next, prev
      ensures Valid()
      ensures r.Failure? <==> ptr == 0
      ensures r.Ok? <==> old(Names(ptr))
      ensures !r.Ok? ==> r.Failure? || r.Invalid?
      ensures !r.Ok? ==> layout == old(layout) && active == old(active) && lost == old(lost) && stale == old(stale)
      ensures forall s: nat :: s in old(layout) && InUse(old(layout)[s].kind) && ptr == Address(s) ==>
                Freed(old(layout), s, old(lost)) && Forgets(old(layout), s, old(active), old(home), old(stale))
    {
      hide ValidBut, Accounted, SlotsOk, Temporals, Occupied, Freed, Forgets, Names;
      if ptr == 0 {
        assert !Names(ptr) by {
          NoNullName();
        }
        return Failure;
      }
      ghost var t := HeaderAt(ptr);
      var s := (ptr - base - ALIGN) / ALIGN;
      assert s == t;
      if flags[s] == FLAG_FREE {
        return Invalid;
      }
      FreeBlock(s, size[s], flags[s]);
      return Ok;
    }

    lemma NoNullName()
      requires base > 0
      ensures !Names(0)
    {
    }

    ghost predicate Freed(m: Layout, s: nat, l0: int)
      requires s in m
      reads `layout, `lost
    {
      && Occupied(layout) == Occupied(m) - {s}
      && lost == l0 + (if m[s].kind.Tombstoned? then Bytes(m, s) else 0)
    }

    /**
     What freeing the block at s does to the rings. A temporal block loses one entry. If its size class
     holds a stale entry with its address, that one goes, and its own class becomes stale instead.
     */
    ghost predicate Forgets(m: Layout, s: nat, a0: seq<int>, h0: map<nat, nat>, s0: set<nat>)
      requires s in m
      reads `active, `home, `stale
    {
      if m[s].kind.Temporal? then
        && |a0| == 2 * LISTS && s in h0 && flCount <= FL_COUNT && BlockSize(Bytes(m, s)) && Bytes(m, s) <= POOL_MAX
        && var f := ForgetClass(a0, flCount, s, Bytes(m, s));
        && f < LISTS && active == ClearSlot(a0, f, s) && home == h0 - {s} && stale == StaleAfter(s0, f, h0[s])
      else active == a0 && home == h0 && stale == s0
    }

    method FreeBlock(s: nat, bsz: nat, fl: int)
      requires Valid() && s in layout && InUse(layout[s].kind)
      requires bsz == Bytes(layout, s) && BlockSize(bsz) && bsz <= POOL_MAX && fl == FlagOf(layout[s].kind)
      modifies this`heads, this`lists, this`flBitmap, this`slBitmap, this`layout, this`active, this`home
      modifies this`allocatedBytes, this`tombstonedBytes, this`lost, this`stale
      modifies size, flags, back, next, prev
      ensures Valid() && Freed(old(layout), s, old(lost))
      ensures Forgets(old(layout), s, old(active), old(home), old(stale))
    {
      hide ValidBut, Accounted, SlotsOk, Temporals, Occupied, Wrap, Shl, Log2, Pow2, ForgetClass, ClearSlot, StaleAfter, SearchClass, BlockSize;
      ghost var m, a0, t0, l0 := layout, allocatedBytes, tombstonedBytes, lost;
      Rows();
      ShlUnits(m[s].size);
      allocatedBytes := Wrap(allocatedBytes - bsz);
      if fl / 2 % 2 == 1 {
        tombstonedBytes := tombstonedBytes - bsz;
        lost := lost + bsz;
      }
      if fl / 4 % 2 == 1 {
        ClearTemporal(s, bsz);
      } else {
        NotTemporal(m, s);
      }
      Detach(s);
      TemporalsRetag(m, s, Alloc);
      RelabelOccupied(m, s, Alloc);
      CoalesceAndFree(s);
      assert Occupied(layout) == Occupied(m) - {s};
      ReleaseRecount(m, layout, s, a0, t0, l0, UNIT_LOG2);
    }

    /** The block at s goes into transit. */
    ghost method Detach(s: nat)
      requires ValidBut(NIL, NIL) && s in layout && !layout[s].kind.Free?
      modifies this`layout
      ensures layout == Retag(old(layout), s, Alloc) && ValidBut(s, NIL)
    {
      hide Pictures, LinksOk, Log2;
      HolePictures(layout, hi, size[..], flags[..], back[..], lists, s);
      layout := Retag(layout, s, Alloc);
    }

    ghost predicate Tombstonable(m: Layout, ptr: int, s: nat)
    {
      ptr == Address(s) && s in m && (m[s].kind.Alloc? || m[s].kind.Temporal?)
    }

    /** Only a live block can be tombstoned; it keeps its place and stops counting as allocated. */
    method TombstoneBlock(ptr: int) returns (r: Outcome)
      requires Valid() && Starts(ptr)
      modifies this`layout, this`allocatedBytes, this`tombstonedBytes, this`stale, this`home, flags
      ensures Valid()
      ensures r.Tombstone? || r.Invalid?
      ensures r.Tombstone? <==> exists s: nat :: Tombstonable(old(layout), ptr, s)
      ensures r.Invalid? ==> layout == old(layout) && stale == old(stale) && home == old(home)
      ensures forall s: nat :: Tombstonable(old(layout), ptr, s) ==>
                layout == Retag(old(layout), s, Tombstoned) && Staled(old(layout), s, old(home), old(stale))
    {
      hide ValidBut, Accounted, SlotsOk, Temporals, Wrap, Shl, Amount, Names;
      ghost var t := HeaderAt(ptr);
      var s := (ptr - base - ALIGN) / ALIGN;
      assert s == t;
      if flags[s] % 2 == 0 {
        return Invalid;
      }
      assert Tombstonable(layout, ptr, s);
      Bury(s);
      return Tombstone;
    }

    /** Tombstoning a temporal block leaves the class it was asked for under stale. */
    ghost predicate Staled(m: Layout, s: nat, h0: map<nat, nat>, s0: set<nat>)
      requires s in m
      reads `home, `stale
    {
      if m[s].kind.Temporal? then s in h0 && home == h0 - {s} && stale == s0 + {h0[s]}
      else home == h0 && stale == s0
    }

    method Bury(s: nat)
      requires Valid() && s in layout && (layout[s].kind.Alloc? || layout[s].kind.Temporal?)
      modifies this`layout, this`allocatedBytes, this`tombstonedBytes, this`stale, this`home, flags
      ensures Valid()
      ensures layout == Retag(old(layout), s, Tombstoned)
      ensures Staled(old(layout), s, old(home), old(stale))
    {
      hide ValidBut, Accounted, Temporals, SlotsOk, Wrap, Shl, Amount, Log2;
      ghost var m := layout;
      Rows();
      ShlUnits(m[s].size);
      TombRecount(m, s, allocatedBytes, tombstonedBytes, lost, UNIT_LOG2);
      if m[s].kind.Alloc? {
        NotTemporal(m, s);
      } else {
        TemporalSize(s);
        TombSlots(Temporals(m), hi, flCount, active, home, stale, s);
      }
      TemporalsRetag(m, s, Tombstoned);
      TemporalsRetag(m, s, Alloc);
      SizeRead(s, NIL, NIL);
      var bsz := size[s];
      Detach(s);
      assert Retag(layout, s, Tombstoned) == Retag(m, s, Tombstoned);
      Mark(s, Tombstoned, FLAG_TOMBSTONE);
      allocatedBytes := Wrap(allocatedBytes - bsz);
      tombstonedBytes := tombstonedBytes + bsz;
      if m[s].kind.Temporal? {
        stale := stale + {home[s]};
        home := home - {s};
      }
    }

    /** A client writes inside the payload of a block in use. Headers under the payload are its to overwrite. */
    method ClientStore(ghost s: nat, u: nat, words: (int, int, int, int, int))
      requires Valid() && s in layout && InUse(layout[s].kind) && s < u < End(layout, s)
      modifies size, flags, back, next, prev
      ensures Valid()
    {
      hide Accounted, SlotsOk, Pictures, Chains, BitsOk, Temporals, Log2, Listed;
      PayloadPictures(layout, hi, size[..], flags[..], back[..], lists, s, u, words.0, words.1, words.2);
      ghost var n0, p0 := next[..], prev[..];
      StoreLinks(u, words.3, words.4);
      size[u] := words.0;
      flags[u] := words.1;
      back[u] := words.2;
      next[u] := words.3;
      prev[u] := words.4;
      assert next[..] == n0[u := words.3] && prev[..] == p0[u := words.4];
    }

    lemma StoreLinks(u: nat, a: int, b: int)
      requires LinksOk() && u < next.Length && u < prev.Length && !Listed(lists, u)
      ensures Threaded(next[..][u := a], prev[..][u := b], heads, lists)
    {
      hide Chain;
      UnlistedWrite(next[..], prev[..], heads, lists, u, a);
      UnlistedWriteBack(next[..][u := a], prev[..], heads, lists, u, b);
      forall o | 0 <= o < |heads| && heads[o] != NIL
        ensures heads[o] != u
      {
        HeadListed(next[..], prev[..], heads, lists, o);
      }
    }

    // ---- what the invariant says about temporal blocks and bytes ----

    /** A live temporal block is what its class's ring yields, and the class's only one. */
    lemma TemporalShared(s: nat)
      requires Valid() && s in layout && layout[s].kind.Temporal?
      ensures s in home && RingHit(home[s]) == s && home[s] !in stale
      ensures forall t: nat :: t in layout && layout[t].kind.Temporal? && t in home && home[t] == home[s] ==> t == s
    {
      hide ValidBut, Accounted, SlotsOk, Temporals, RingHit, HomeFits;
      TemporalIn(layout, s);
      Rings();
      RingFinds(Temporals(layout), hi, flCount, active, home, stale, s);
      RotorHits(home[s], s);
    }

    /** The ring's answer for a class is its temporal block, or nothing, exactly while the class is not stale. */
    lemma RingTells(c: nat)
      requires Valid() && c < LISTS
      ensures RingHit(c) == NIL || (RingHit(c) >= 0 && SharedAt(RingHit(c), c)) <==> c !in stale
    {
      hide ValidBut, Accounted, SlotsOk, Temporals, Log2;
      Rings();
      if RingHit(c) != NIL {
        var x := HitRead(if active[2 * c + rotor[c]] != NIL then 2 * c + rotor[c] else 2 * c + (1 - rotor[c]));
      } else {
        StaleHas(c);
      }
    }

    /** A stale class has an entry. */
    lemma StaleHas(c: nat)
      requires Valid() && c < LISTS
      ensures c in stale ==> RingHit(c) != NIL
    {
      hide ValidBut, Accounted, Temporals, HomeOk, EntriesOk;
      assert RingState(active[2 * c], active[2 * c + 1], home, c, c in stale);
    }

    lemma RotorHits(c: nat, s: nat)
      requires |rotor| == LISTS && c < LISTS && 0 <= rotor[c] <= 1 && |active| == 2 * LISTS
      requires (active[2 * c] == s && active[2 * c + 1] == NIL) || (active[2 * c] == NIL && active[2 * c + 1] == s)
      ensures RingHit(c) == s
    {
    }

    /** In the classes up to two KiB a shared block has room for every request of its class. */
    lemma TemporalRoom(s: nat, n: nat)
      requires Valid() && s in layout && layout[s].kind.Temporal? && s in home
      requires 0 < AdjustedBlockSize(n) <= SEARCH_LIMIT && SearchClass(AdjustedBlockSize(n)) == home[s] <= 80
      ensures n + ALIGN <= Bytes(layout, s)
    {
      hide ValidBut, Accounted, SlotsOk, Temporals, SearchClass;
      TemporalIn(layout, s);
      RingFinds(Temporals(layout), hi, flCount, active, home, stale, s);
      RoomFor(Temporals(layout), layout, s, n, home[s]);
    }

    static lemma RoomFor(temps: map<nat, nat>, m: Layout, s: nat, n: nat, c: nat)
      requires s in temps && temps == Temporals(m) && s in m && c <= 80
      requires exists rows: nat :: HomeFits(temps[s], c, rows)
      requires 0 < AdjustedBlockSize(n) <= SEARCH_LIMIT && SearchClass(AdjustedBlockSize(n)) == c
      ensures n + ALIGN <= Bytes(m, s)
    {
      hide SearchClass;
      var a := if c == SearchClass(Bytes(m, s)) then Bytes(m, s) else Bytes(m, s) - ALIGN;
      assert SharedSearch(a, AdjustedBlockSize(n), c);
      SharedClose(a, AdjustedBlockSize(n), c);
    }

    /**
     Allocated, tombstoned and free bytes make up the pool exactly while the tombstoned blocks that
     were freed add up to a multiple of 2^64 bytes.
     */
    lemma BytesConserved()
      requires Valid()
      ensures allocatedBytes + tombstonedBytes + ALIGN * Amount(layout, Free) == total <==> Wrap(lost) == 0
    {
      Rows();
      Listing();
      hide ValidBut, SlotsOk, Accounted, Amount, Apart, Temporals, Shl, Wrap;
      NoneParked(layout, hi);
      ShlUnits(hi - FIRST);
      ShlUnits(Amount(layout, Free));
      ShlUnits(0);
      PoolConserved(layout, FIRST, hi, allocatedBytes, tombstonedBytes, lost, UNIT_LOG2);
    }

    /**
     The test used() == 0: it means that no live block is left exactly while the lost bytes vanish in
     64 bits; otherwise it holds of pools whose live bytes equal them, and of no empty pool.
     */
    lemma UsedTells()
      requires Valid()
      ensures allocatedBytes == 0 <==> ALIGN * Live(layout) == Wrap(lost)
      ensures Wrap(lost) == 0 ==> (allocatedBytes == 0 <==> NoneLive(layout))
      ensures NoneLive(layout) ==> (allocatedBytes == 0 <==> Wrap(lost) == 0)
    {
      Rows();
      Listing();
      hide ValidBut, SlotsOk, Accounted, Amount, Apart, Temporals, Shl, Wrap, NoneLive;
      ShlUnits(hi - FIRST);
      ShlUnits(Live(layout));
      UsedZero(layout, FIRST, hi, allocatedBytes, tombstonedBytes, lost, UNIT_LOG2);
    }
  }

  lemma NoneParked(m: Layout, hi: nat)
    requires Sound(m, hi)
    ensures Amount(m, Parked) == 0
  {
    hide Tiles, Apart;
    ZeroAmount(m, Parked);
  }

  /** Giving back what was just granted restores every block boundary. */
  method Undo(b: Book, n: nat) returns (r: Chunk)
    requires b.Valid() && b.Serves(n)
    modifies b, b.size, b.flags, b.back, b.next, b.prev
    ensures b.Valid() && b.layout == old(b.layout)
  {
    hide Book.ValidBut, Sound, Accounted, Occupied, Temporals, SlotsOk, HasFit;
    b.Listing();
    ghost var m := b.layout;
    r := b.Allocate(n);
    if r.Chunk? {
      ghost var needed := AdjustedBlockSize(n);
      ghost var x: nat :| x in b.layout && b.GrantedAt(m, r, x, needed, Alloc);
      ghost var taken := b.layout;
      GrantedKind(m, taken, x, needed, Alloc);
      var out := b.Deallocate(r.ptr);
      b.Listing();
      GrantThenRelease(m, taken, b.layout, b.hi, x, Seg(taken[x].size, Alloc));
    }
  }

  lemma GrantedKind(m: Layout, m': Layout, x: nat, needed: nat, k: Kind)
    requires Searchable(needed) && x in m' && Taken(m, m', x, m'[x].size, needed, k) && InUse(k)
    ensures m'[x].kind == k
  {
    hide Suits, Class;
    assert x in Occupied(m');
  }

  // ---- what tombstones break ----

  /** Freeing a tombstoned temporal block leaves its ring entry behind. */
  method BuryThenFree(b: Book, ptr: nat, ghost s: nat)
    requires b.Valid() && s in b.layout && b.layout[s].kind.Temporal? && ptr == b.Address(s)
    modifies b`heads, b`lists, b`flBitmap, b`slBitmap, b`layout, b`active, b`home, b`stale
    modifies b`allocatedBytes, b`tombstonedBytes, b`lost
    modifies b.size, b.flags, b.back, b.next, b.prev
    ensures b.Valid() && s in old(b.home) && b.RingHit(old(b.home)[s]) == s && old(b.home)[s] in b.stale
    ensures !b.Names(ptr)
  {
    hide Book.ValidBut, Sound, Accounted, Occupied, Temporals, SlotsOk, Book.Names;
    b.TemporalShared(s);
    assert b.Tombstonable(b.layout, ptr, s);
    Started(b, ptr, s);
    var out := b.TombstoneBlock(ptr);
    ghost var dead := b.layout;
    Started(b, ptr, s);
    out := b.Deallocate(ptr);
    Unnamed(b, dead, s);
  }

  lemma Started(b: Book, ptr: nat, s: nat)
    requires s in b.layout && ptr == b.Address(s)
    ensures b.Starts(ptr) && (InUse(b.layout[s].kind) ==> b.Names(ptr))
  {
  }

  lemma Unnamed(b: Book, m: Layout, s: nat)
    requires Occupied(b.layout) == Occupied(m) - {s}
    ensures !b.Names(b.Address(s))
  {
    forall t: nat | t in b.layout && b.Address(t) == b.Address(s)
      ensures !InUse(b.layout[t].kind)
    {
      assert t == s && s !in Occupied(b.layout);
    }
  }

  /**
   Why a temporal block must not be tombstoned: once it is, freeing it no longer clears its ring entry,
   and the next temporal request of its class is given the address of a block not in use.
   */
  method StaleTemporal(b: Book, n: nat) returns (first: Chunk, second: Chunk)
    requires b.Valid() && AdjustedBlockSize(n) != 0 && Servable(AdjustedBlockSize(n), b.flCount)
    requires SearchClass(AdjustedBlockSize(n)) !in b.stale
    modifies b, b.size, b.flags, b.back, b.next, b.prev
    ensures b.Valid()
    ensures first.Chunk? <==> old(b.RingHit(SearchClass(AdjustedBlockSize(n)))) != NIL || HasFit(old(b.layout), AdjustedBlockSize(n))
    ensures first.Chunk? ==> second.Chunk? && second.ptr == first.ptr && !b.Names(second.ptr)
  {
    hide Book.ValidBut, Sound, Accounted, Occupied, Temporals, SlotsOk, HasFit, SearchClass, Book.Names;
    first := b.TemporalAllocate(n);
    if first.Null? {
      return first, Null;
    }
    ghost var c := SearchClass(AdjustedBlockSize(n));
    ghost var s: nat :| b.SharedAt(s, c) && Bytes(b.layout, s) >= ALIGN && first == Chunk(b.Address(s), Bytes(b.layout, s) - ALIGN);
    BuryThenFree(b, first.ptr, s);
    second := b.TemporalAllocate(n);
  }

  /**
   Sharing by class above list 80: of two temporal requests of one class, the second is given the block
   of the first, which is smaller than the second asked for.
   */
  method SharedTooSmall(b: Book, n1: nat, n2: nat, ghost i: nat) returns (first: Chunk, second: Chunk)
    requires b.Valid() && i < LISTS && SharedRequest(n1, n2, i) && AdjustedBlockSize(n1) < n2
    requires i !in b.stale && b.RingHit(i) == NIL
    modifies b, b.size, b.flags, b.back, b.next, b.prev
    ensures b.Valid()
    ensures 0 < AdjustedBlockSize(n1) <= SEARCH_LIMIT
    ensures first.Chunk? <==> HasFit(old(b.layout), AdjustedBlockSize(n1))
    ensures first.Chunk? ==> second == first && n1 <= first.len < n2
  {
    hide Book.ValidBut, Sound, Accounted, Occupied, Temporals, SlotsOk, HasFit, SearchClass, Taken;
    ghost var m := b.layout;
    first := b.TemporalAllocate(n1);
    if first.Null? {
      return first, Null;
    }
    ghost var x: nat :| x in b.layout && b.GrantedAt(m, first, x, AdjustedBlockSize(n1), Temporal);
    Book.GrantedSize(m, b.layout, x, AdjustedBlockSize(n1), Temporal);
    ghost var s: nat :| b.SharedAt(s, i) && Bytes(b.layout, s) >= ALIGN && first == Chunk(b.Address(s), Bytes(b.layout, s) - ALIGN);
    b.TemporalShared(s);
    second := b.TemporalAllocate(n2);
  }

  /** Allocate, tombstone and free: the layout is as before, the bytes are lost. */
  method LoseOne(b: Book, n: nat) returns (r: Chunk, ghost size: nat)
    requires b.Valid() && b.Serves(n)
    modifies b, b.size, b.flags, b.back, b.next, b.prev
    ensures b.Valid() && b.layout == old(b.layout)
    ensures r.Chunk? <==> AdjustedBlockSize(n) != 0 && HasFit(b.layout, AdjustedBlockSize(n))
    ensures r.Chunk? ==> b.lost == old(b.lost) + size && 0 < size <= POOL_MAX
  {
    hide Book.ValidBut, Sound, Accounted, Occupied, Temporals, SlotsOk, HasFit, Book.Names, Suits, Class, SearchClass, Pow2, Log2;
    b.Listing();
    ghost var m := b.layout;
    r := b.Allocate(n);
    size := 0;
    if r.Chunk? {
      ghost var needed := AdjustedBlockSize(n);
      ghost var x: nat :| x in b.layout && b.GrantedAt(m, r, x, needed, Alloc);
      ghost var taken := b.layout;
      GrantedKind(m, taken, x, needed, Alloc);
      SizeInPool(b, x);
      size := Bytes(taken, x);
      Started(b, r.ptr, x);
      var out := b.TombstoneBlock(r.ptr);
      ghost var dead := b.layout;
      Started(b, r.ptr, x);
      RelabelOccupied(taken, x, Tombstoned);
      out := b.Deallocate(r.ptr);
      b.Listing();
      GrantThenRelease(m, taken, b.layout, b.hi, x, Seg(taken[x].size, Alloc));
    }
  }

  lemma SizeInPool(b: Book, x: nat)
    requires b.Valid() && x in b.layout
    ensures 0 < Bytes(b.layout, x) <= POOL_MAX
  {
    hide SizesOk, FlagsOk, BacksOk, FreeListed, Accounted, SlotsOk, Temporals;
  }

  /** Freeing a tombstoned block breaks the accounts: the bytes no longer add up. */
  method TombstoneThenFree(b: Book, n: nat) returns (r: Chunk)
    requires b.Valid() && b.Serves(n) && Wrap(b.lost) == 0
    modifies b, b.size, b.flags, b.back, b.next, b.prev
    ensures b.Valid()
    ensures r.Chunk? <==> AdjustedBlockSize(n) != 0 && HasFit(old(b.layout), AdjustedBlockSize(n))
    ensures r.Chunk? ==> b.allocatedBytes + b.tombstonedBytes + ALIGN * Amount(b.layout, Free) != b.total
  {
    hide Book.Valid, HasFit, Wrap, Amount;
    ghost var size;
    r, size := LoseOne(b, n);
    if r.Chunk? {
      LostIs(old(b.lost), size);
      b.BytesConserved();
    }
  }

  // ---- a fresh pool ----

  /** The sentinels and the back pointers of a pool of one block. */
  ghost predicate Headers(size: seq<int>, flags: seq<int>, back: seq<int>, hi: nat)
  {
    && |size| == |flags| == |back| == hi + 1 && hi > FIRST
    && flags[0] == FLAG_ALLOC && flags[hi] == FLAG_ALLOC
    && size[0] == ALIGN && size[hi] == ALIGN
    && back[0] == NIL && back[FIRST] == 0 && back[hi] == FIRST
  }

  /** Both sentinels, and one block of `total` bytes between them. */
  method NewHeaders(end: nat, total: nat) returns (size: array<int>, flags: array<int>, back: array<int>)
    requires end > FIRST
    ensures fresh(size) && fresh(flags) && fresh(back) && size != flags && size != back && flags != back
    ensures Headers(size[..], flags[..], back[..], end)
    ensures size[FIRST] == total && flags[FIRST] == FLAG_FREE
  {
    size, flags, back := new int[end + 1], new int[end + 1], new int[end + 1];
    size[0], flags[0], back[0] := ALIGN, FLAG_ALLOC, NIL;
    size[end], flags[end] := ALIGN, FLAG_ALLOC;
    size[FIRST], flags[FIRST], back[FIRST] := total, FLAG_FREE, 0;
    back[end] := FIRST;
  }

  lemma EmptyLinks(next: seq<int>, prev: seq<int>)
    ensures Threaded(next, prev, Filled<int>(LISTS, NIL), Filled<seq<nat>>(LISTS, []))
    ensures BitsOk(0, Filled<nat>(FL_COUNT, 0), Filled<seq<nat>>(LISTS, []))
    ensures forall s: nat :: !Listed(Filled<seq<nat>>(LISTS, []), s)
  {
    var heads, lists := Filled<int>(LISTS, NIL), Filled<seq<nat>>(LISTS, []);
    ChainsEmpty(next, prev, heads, lists);
    forall j: nat
      ensures !BitAt(0, j)
    {
      ZeroBit(j);
    }
    assert forall f :: 0 <= f < FL_COUNT ==> RowOk(0, lists, f);
  }

  lemma InitialSlots(m: Layout, hi: nat, rows: nat)
    requires hi > FIRST && m == map[FIRST := Seg(hi - FIRST, Free)] && rows <= FL_COUNT
    ensures SlotsOk(Temporals(m), hi, rows, Filled<int>(2 * LISTS, NIL), map[], {})
  {
    var active := Filled<int>(2 * LISTS, NIL);
    assert forall c: nat :: c < LISTS ==> RingState(active[2 * c], active[2 * c + 1], map[], c, false);
    assert Temporals(m) == map[];
  }

  /** Unlinking node k of list o by its own two links, at the head or inside. */
  lemma UnlinkAt(next: seq<int>, prev: seq<int>, heads: seq<int>, lists: seq<seq<nat>>, o: nat, k: nat) returns (l: seq<nat>)
    requires Threaded(next, prev, heads, lists) && o < |lists| && k < |lists[o]|
    ensures |heads| == |lists|
    ensures var x := lists[o][k];
            && x < |next| && x < |prev|
            && (forall t: nat :: t in l <==> t in lists[o] && t != x)
            && (next[x] == NIL || 0 <= next[x] < |prev|) && (prev[x] == NIL || 0 <= prev[x] < |next|)
            && var heads' := if prev[x] == NIL then heads[o := next[x]] else heads;
            && Threaded(if prev[x] == NIL then next else next[prev[x] := next[x]],
                        SetBack(prev, next[x], prev[x]), heads', lists[o := l])
            && (heads'[o] == NIL <==> l == [])
  {
    assert Chain(next, prev, heads[o], lists[o]);
    l := Without(lists[o], k);
    WithoutMembers(lists[o], k);
    if k == 0 {
      ThreadedPop(next, prev, heads, lists, o);
      assert l == lists[o][1..];
    } else {
      ThreadedUnlink(next, prev, heads, lists, o, k);
      assert l[0] == lists[o][0];
    }
  }
}
