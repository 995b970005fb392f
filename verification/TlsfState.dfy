/** How the TLSF book's headers and lists spell out a layout. */
module TlsfState {
  import opened Powers
  import opened Tiling
  import opened FreeList
  import opened TlsfMapping
  import opened TlsfLayout
  import opened TlsfBitmaps

  /** Pools of more than 4 GiB are rejected. */
  const POOL_MAX: int := 0xFFFF_FFFF

  /** Bytes of the block at s. */
  function Bytes(m: Layout, s: nat): nat
    requires s in m
  {
    ALIGN * m[s].size
  }

  /** Sizes are stored in unsigned 32-bit words. */
  function U32(x: nat): nat
  {
    x % 0x1_0000_0000
  }

  lemma U32Exact(x: nat)
    requires x <= POOL_MAX
    ensures U32(x) == x
  {
  }

  lemma ClassInTable(size: nat, total: nat)
    requires MIN_BLOCK <= size <= total <= POOL_MAX
    ensures MappingInsert(size).0 <= Log2(total) - FL_SHIFT < FL_COUNT && Class(size) < LISTS
    ensures size <= SEARCH_LIMIT
  {
    SizeLog(size);
    Log2Mono(size, total);
    Pow2Values();
    Pow2Le(32, if Log2(total) < 32 then 32 else Log2(total));
  }

  /** A free block of class c starts at s. */
  predicate FreeIn(m: Layout, s: nat, c: nat)
  {
    s in m && m[s].kind.Free? && m[s].size >= MIN_UNITS && Class(Bytes(m, s)) == c
  }

  /** The free lists hold exactly the free blocks, each under its own class. */
  ghost predicate FreeListed(m: Layout, lists: seq<seq<nat>>)
  {
    forall c, s: nat :: 0 <= c < |lists| ==> (s in lists[c] <==> FreeIn(m, s, c))
  }

  lemma NotListed(m: Layout, lists: seq<seq<nat>>, s: nat)
    requires FreeListed(m, lists) && (s !in m || !m[s].kind.Free?)
    ensures !Listed(lists, s)
  {
  }

  // ---- headers ----

  ghost predicate SizesOk(m: Layout, size: seq<int>)
  {
    forall s :: s in m ==> s < |size| && size[s] == Bytes(m, s)
  }

  /** The flags of both sentinels and of every block, except the one at `hole`. */
  ghost predicate FlagsOk(m: Layout, hi: nat, flags: seq<int>, hole: int)
  {
    && |flags| == hi + 1 && flags[0] == FLAG_ALLOC && flags[hi] == FLAG_ALLOC
    && forall s :: s in m && s != hole ==> s < |flags| && flags[s] == FlagOf(m[s].kind)
  }

  /** The header after block s, if it lies in the pool and is not at `stale`, points back to s. */
  ghost predicate BackAt(m: Layout, hi: nat, back: seq<int>, s: nat, stale: int)
    requires s in m && |back| == hi + 1
  {
    End(m, s) <= hi && (End(m, s) != stale ==> back[End(m, s)] == s)
  }

  ghost predicate BacksOk(m: Layout, hi: nat, back: seq<int>, stale: int)
  {
    && |back| == hi + 1 && hi > FIRST && back[0] == NIL && back[FIRST] == 0
    && forall s {:trigger BackAt(m, hi, back, s, stale)} :: s in m ==> BackAt(m, hi, back, s, stale)
  }

  ghost predicate Pictures(m: Layout, hi: nat, size: seq<int>, flags: seq<int>, back: seq<int>,
                           lists: seq<seq<nat>>, hole: int, stale: int)
  {
    && Sound(m, hi) && SizesOk(m, size) && |size| == hi + 1
    && FlagsOk(m, hi, flags, hole) && BacksOk(m, hi, back, stale)
    && FreeListed(m, lists)
  }

  // ---- taking a block off its list ----

  lemma TakeListed(m: Layout, lists: seq<seq<nat>>, c: nat, k: nat, l: seq<nat>)
    requires FreeListed(m, lists) && c < |lists| && k < |lists[c]|
    requires forall s: nat :: s in l <==> s in lists[c] && s != lists[c][k]
    ensures FreeIn(m, lists[c][k], c)
    ensures FreeListed(Retag(m, lists[c][k], Alloc), lists[c := l])
  {
    var x := lists[c][k];
    assert x in lists[c];
    var n, lists' := Retag(m, x, Alloc), lists[c := l];
    hide Class;
    forall p, s: nat | 0 <= p < |lists'|
      ensures s in lists'[p] <==> FreeIn(n, s, p)
    {
      assert s in lists[p] <==> FreeIn(m, s, p);
    }
  }

  lemma RetagSizes(m: Layout, hi: nat, size: seq<int>, back: seq<int>, stale: int, x: nat, k: Kind)
    requires x in m && SizesOk(m, size) && BacksOk(m, hi, back, stale)
    ensures SizesOk(Retag(m, x, k), size) && BacksOk(Retag(m, x, k), hi, back, stale)
  {
    var n := Retag(m, x, k);
    forall s | s in n
      ensures BackAt(n, hi, back, s, stale)
    {
      assert BackAt(m, hi, back, s, stale);
    }
  }

  lemma RetagFlags(m: Layout, hi: nat, flags: seq<int>, hole: int, x: nat, k: Kind)
    requires x in m && FlagsOk(m, hi, flags, hole) && (hole == NIL || hole == x)
    ensures FlagsOk(Retag(m, x, k), hi, flags, x)
  {
  }

  /** The block popped or unlinked from list c is in transit: its header still says free. */
  lemma TakePictures(m: Layout, hi: nat, size: seq<int>, flags: seq<int>, back: seq<int>,
                     lists: seq<seq<nat>>, c: nat, k: nat, l: seq<nat>)
    requires Pictures(m, hi, size, flags, back, lists, NIL, NIL)
    requires c < |lists| && k < |lists[c]|
    requires forall s: nat :: s in l <==> s in lists[c] && s != lists[c][k]
    ensures FreeIn(m, lists[c][k], c) && NextUsed(Retag(m, lists[c][k], Alloc), lists[c][k])
    ensures Pictures(Retag(m, lists[c][k], Alloc), hi, size, flags, back, lists[c := l], lists[c][k], NIL)
  {
    hide Sound, SizesOk, FlagsOk, BacksOk;
    var x := lists[c][k];
    TakeListed(m, lists, c, k, l);
    hide FreeListed, Class, NextUsed;
    TakeSound(m, hi, x, Alloc);
    RetagSizes(m, hi, size, back, NIL, x, Alloc);
    RetagFlags(m, hi, flags, NIL, x, Alloc);
  }

  // ---- listing a block ----

  lemma PushListed(m: Layout, lists: seq<seq<nat>>, x: nat, c: nat)
    requires FreeListed(m, lists) && c < |lists|
    requires x in m && !m[x].kind.Free? && m[x].size >= MIN_UNITS && Class(Bytes(m, x)) == c
    ensures FreeListed(Retag(m, x, Free), lists[c := [x] + lists[c]])
  {
    var n, lists' := Retag(m, x, Free), lists[c := [x] + lists[c]];
    hide Class;
    forall p, s: nat | 0 <= p < |lists'|
      ensures s in lists'[p] <==> FreeIn(n, s, p)
    {
      assert s in lists[p] <==> FreeIn(m, s, p);
    }
  }

  lemma StampFlags(m: Layout, hi: nat, flags: seq<int>, x: nat, k: Kind)
    requires Sound(m, hi) && x in m && FlagsOk(m, hi, flags, x)
    ensures 0 < x < hi && FlagsOk(Retag(m, x, k), hi, flags[x := FlagOf(k)], NIL)
  {
  }

  /** The coalesced block at x joins the list of its class. */
  lemma PushPictures(m: Layout, hi: nat, size: seq<int>, flags: seq<int>, back: seq<int>,
                     lists: seq<seq<nat>>, x: nat, c: nat)
    requires Pictures(m, hi, size, flags, back, lists, x, NIL)
    requires x in m && !m[x].kind.Free? && NextUsed(m, x) && PrevUsed(m, x)
    requires c < |lists| && m[x].size >= MIN_UNITS && Class(Bytes(m, x)) == c
    ensures Pictures(Retag(m, x, Free), hi, size, flags[x := FLAG_FREE], back, lists[c := [x] + lists[c]], NIL, NIL)
  {
    hide SizesOk, FlagsOk, BacksOk, FreeListed, Class;
    StampFlags(m, hi, flags, x, Free);
    hide Sound;
    ReleaseSound(m, hi, x);
    RetagSizes(m, hi, size, back, NIL, x, Free);
    PushListed(m, lists, x, c);
  }

  /** The block in transit at x gets its header and state. */
  lemma StampPictures(m: Layout, hi: nat, size: seq<int>, flags: seq<int>, back: seq<int>,
                      lists: seq<seq<nat>>, x: nat, k: Kind)
    requires Pictures(m, hi, size, flags, back, lists, x, NIL) && x in m && !m[x].kind.Free? && InUse(k)
    ensures 0 < x < hi
    ensures Pictures(Retag(m, x, k), hi, size, flags[x := FlagOf(k)], back, lists, NIL, NIL)
  {
    hide SizesOk, FlagsOk, BacksOk, FreeListed;
    StampFlags(m, hi, flags, x, k);
    hide Sound;
    UsedRetagSound(m, hi, x, k);
    RetagSizes(m, hi, size, back, NIL, x, k);
    UsedListed(m, lists, x, k);
  }

  /** A block in use goes into transit. */
  lemma HolePictures(m: Layout, hi: nat, size: seq<int>, flags: seq<int>, back: seq<int>,
                     lists: seq<seq<nat>>, x: nat)
    requires Pictures(m, hi, size, flags, back, lists, NIL, NIL) && x in m && !m[x].kind.Free?
    ensures Pictures(Retag(m, x, Alloc), hi, size, flags, back, lists, x, NIL)
  {
    hide SizesOk, FlagsOk, BacksOk, FreeListed, Sound;
    UsedRetagSound(m, hi, x, Alloc);
    RetagSizes(m, hi, size, back, NIL, x, Alloc);
    RetagFlags(m, hi, flags, NIL, x, Alloc);
    UsedListed(m, lists, x, Alloc);
  }

  lemma UsedListed(m: Layout, lists: seq<seq<nat>>, x: nat, k: Kind)
    requires FreeListed(m, lists) && x in m && !m[x].kind.Free? && !k.Free?
    ensures FreeListed(Retag(m, x, k), lists)
  {
    var n := Retag(m, x, k);
    hide Class;
    forall c, s: nat | 0 <= c < |lists|
      ensures s in lists[c] <==> FreeIn(n, s, c)
    {
      assert s in lists[c] <==> FreeIn(m, s, c);
    }
  }

  // ---- splitting the block in transit ----

  lemma SplitSizes(m: Layout, hi: nat, size: seq<int>, s: nat, n: nat)
    requires Tiles(m, FIRST, hi) && SizesOk(m, size) && |size| == hi + 1
    requires s in m && 0 < n < m[s].size && s + n !in m
    ensures s + n < hi
    ensures SizesOk(SplitAt(m, s, n), size[s := ALIGN * n][s + n := ALIGN * (m[s].size - n)])
  {
  }

  lemma SplitFlags(m: Layout, hi: nat, flags: seq<int>, s: nat, n: nat)
    requires Tiles(m, FIRST, hi) && FlagsOk(m, hi, flags, s)
    requires s in m && 0 < n < m[s].size && s + n !in m
    ensures s + n < hi
    ensures FlagsOk(SplitAt(m, s, n), hi, flags[s + n := FLAG_FREE], s)
  {
  }

  lemma SplitBackAt(m: Layout, hi: nat, back: seq<int>, s: nat, n: nat, t: nat)
    requires Tiles(m, FIRST, hi) && |back| == hi + 1
    requires s in m && 0 < n < m[s].size && s + n !in m && t in SplitAt(m, s, n)
    requires t in m ==> BackAt(m, hi, back, t, NIL)
    ensures BackAt(SplitAt(m, s, n), hi, back[s + n := s][End(m, s) := s + n], t, NIL)
  {
    if t in m && t != s {
      assert End(m, t) != End(m, s) && End(m, t) != s + n;
    }
  }

  lemma SplitBacks(m: Layout, hi: nat, back: seq<int>, s: nat, n: nat)
    requires Tiles(m, FIRST, hi) && BacksOk(m, hi, back, NIL)
    requires s in m && 0 < n < m[s].size && s + n !in m
    ensures s + n < hi && End(m, s) <= hi
    ensures BacksOk(SplitAt(m, s, n), hi, back[s + n := s][End(m, s) := s + n], NIL)
  {
    var c, back' := SplitAt(m, s, n), back[s + n := s][End(m, s) := s + n];
    forall t | t in c
      ensures BackAt(c, hi, back', t, NIL)
    {
      assert t in m ==> BackAt(m, hi, back, t, NIL);
      SplitBackAt(m, hi, back, s, n, t);
    }
  }

  lemma SplitListed(m: Layout, lists: seq<seq<nat>>, s: nat, n: nat, c: nat)
    requires FreeListed(m, lists) && c < |lists|
    requires s in m && !m[s].kind.Free? && 0 < n && m[s].size >= n + MIN_UNITS && s + n !in m
    requires Class(ALIGN * (m[s].size - n)) == c
    ensures FreeListed(SplitAt(m, s, n), lists[c := [s + n] + lists[c]])
  {
    var d, lists' := SplitAt(m, s, n), lists[c := [s + n] + lists[c]];
    hide Class;
    forall p, x: nat | 0 <= p < |lists'|
      ensures x in lists'[p] <==> FreeIn(d, x, p)
    {
      assert x in lists[p] <==> FreeIn(m, x, p);
    }
  }

  lemma SplitPictures(m: Layout, hi: nat, size: seq<int>, flags: seq<int>, back: seq<int>,
                      lists: seq<seq<nat>>, s: nat, n: nat, c: nat)
    requires Pictures(m, hi, size, flags, back, lists, s, NIL)
    requires s in m && !m[s].kind.Free? && NextUsed(m, s) && MIN_UNITS <= n && m[s].size >= n + MIN_UNITS
    requires c < |lists| && Class(ALIGN * (m[s].size - n)) == c
    ensures s + n !in m && s + n < hi && End(m, s) <= hi && !Listed(lists, s + n)
    ensures Pictures(SplitAt(m, s, n), hi, size[s := ALIGN * n][s + n := ALIGN * (m[s].size - n)], flags[s + n := FLAG_FREE],
                     back[s + n := s][End(m, s) := s + n], lists[c := [s + n] + lists[c]], s, NIL)
  {
    hide SizesOk, FlagsOk, BacksOk, FreeListed, Class, NextUsed, Tiles, Apart;
    TrimSound(m, hi, s, n);
    NotListed(m, lists, s + n);
    SplitSizes(m, hi, size, s, n);
    SplitFlags(m, hi, flags, s, n);
    SplitBacks(m, hi, back, s, n);
    SplitListed(m, lists, s, n, c);
  }

  /** Sums of neighbouring sizes stay inside the 32-bit words that store them. */
  lemma SumFits(m: Layout, hi: nat, a: nat)
    requires Tiles(m, FIRST, hi) && ALIGN * (hi - FIRST) <= POOL_MAX && a in m && End(m, a) in m
    ensures U32(Bytes(m, a) + Bytes(m, End(m, a))) == Bytes(m, a) + Bytes(m, End(m, a))
  {
    assert a >= FIRST && End(m, End(m, a)) <= hi;
    U32Exact(Bytes(m, a) + Bytes(m, End(m, a)));
  }

  // ---- reading the neighbours ----

  /** The flags after the block in transit say free exactly when a free block follows it. */
  lemma ReadNext(m: Layout, hi: nat, size: seq<int>, flags: seq<int>, back: seq<int>,
                 lists: seq<seq<nat>>, s: nat, stale: int)
    requires Pictures(m, hi, size, flags, back, lists, s, stale) && s in m
    ensures End(m, s) <= hi && size[s] == Bytes(m, s) && s < hi
    ensures flags[End(m, s)] == FLAG_FREE <==> End(m, s) in m && m[End(m, s)].kind.Free?
    ensures flags[End(m, s)] != FLAG_FREE ==> NextUsed(m, s)
  {
    hide FreeListed, BacksOk;
    assert Linked(m, s, hi);
  }

  /** The header before the block in transit, found through its back pointer. */
  lemma ReadPrev(m: Layout, hi: nat, size: seq<int>, flags: seq<int>, back: seq<int>,
                 lists: seq<seq<nat>>, s: nat, stale: int) returns (p: nat)
    requires Pictures(m, hi, size, flags, back, lists, s, stale) && s in m && stale != s
    ensures s < hi && back[s] == p < hi
    ensures flags[p] == FLAG_FREE <==> p in m && m[p].kind.Free? && End(m, p) == s
    ensures flags[p] != FLAG_FREE ==> PrevUsed(m, s)
  {
    hide FreeListed, SizesOk;
    if s == FIRST {
      p := 0;
    } else {
      p := Owner(m, FIRST, hi, s - 1);
      assert Linked(m, p, hi) && BackAt(m, hi, back, p, stale);
      assert End(m, p) == s;
      assert forall q :: q in m && End(m, q) == s ==> q == p;
    }
  }

  // ---- fusing the block in transit with a neighbour ----

  lemma FuseSizes(m: Layout, hi: nat, size: seq<int>, a: nat, k: Kind)
    requires Tiles(m, FIRST, hi) && SizesOk(m, size) && a in m && End(m, a) in m
    ensures a < |size| && SizesOk(Fuse(m, a, k), size[a := Bytes(m, a) + Bytes(m, End(m, a))])
  {
  }

  lemma FuseFlags(m: Layout, hi: nat, flags: seq<int>, a: nat, k: Kind, hole: nat)
    requires FlagsOk(m, hi, flags, hole) && a in m && End(m, a) in m && (hole == a || hole == End(m, a))
    ensures FlagsOk(Fuse(m, a, k), hi, flags, a)
  {
  }

  lemma FuseBacks(m: Layout, hi: nat, back: seq<int>, a: nat, k: Kind, stale: int)
    requires Tiles(m, FIRST, hi) && BacksOk(m, hi, back, stale) && a in m && End(m, a) in m
    requires stale == NIL || stale == End(m, End(m, a))
    ensures BacksOk(Fuse(m, a, k), hi, back, End(m, End(m, a)))
  {
    var n, e := Fuse(m, a, k), End(m, a);
    assert BackAt(m, hi, back, e, stale);
    forall t | t in n
      ensures BackAt(n, hi, back, t, End(m, e))
    {
      assert BackAt(m, hi, back, t, stale);
    }
  }

  lemma FuseListed(m: Layout, lists: seq<seq<nat>>, a: nat, s: nat, c: nat, l: seq<nat>)
    requires a in m && End(m, a) in m && m[a].size > 0 && (s == a || s == End(m, a)) && !m[s].kind.Free?
    requires FreeListed(m, lists) && c < |lists|
    requires FreeIn(m, if s == a then End(m, a) else a, c)
    requires forall t: nat :: t in l <==> t in lists[c] && t != (if s == a then End(m, a) else a)
    ensures FreeListed(Fuse(m, a, m[s].kind), lists[c := l])
  {
    var n, lists' := Fuse(m, a, m[s].kind), lists[c := l];
    hide Class;
    forall p, t: nat | 0 <= p < |lists'|
      ensures t in lists'[p] <==> FreeIn(n, t, p)
    {
      assert t in lists[p] <==> FreeIn(m, t, p);
    }
  }

  /** The block at a and the one after it become one in transit; `s` names which of them was in transit before. */
  lemma FusePictures(m: Layout, hi: nat, size: seq<int>, flags: seq<int>, back: seq<int>,
                     lists: seq<seq<nat>>, a: nat, s: nat, c: nat, l: seq<nat>, stale: int)
    requires Pictures(m, hi, size, flags, back, lists, s, stale)
    requires a in m && End(m, a) in m && (s == a || s == End(m, a)) && s in m && !m[s].kind.Free?
    requires c < |lists| && FreeIn(m, if s == a then End(m, a) else a, c)
    requires forall t: nat :: t in l <==> t in lists[c] && t != (if s == a then End(m, a) else a)
    requires stale == NIL || stale == End(m, End(m, a))
    ensures a < |size|
    ensures Pictures(Fuse(m, a, m[s].kind), hi, size[a := Bytes(m, a) + Bytes(m, End(m, a))], flags, back,
                     lists[c := l], a, End(m, End(m, a)))
  {
    hide SizesOk, FlagsOk, BacksOk, FreeListed, Class, FreeIn;
    assert m[a].size > 0;
    FuseSound(m, hi, a, m[s].kind);
    FuseSizes(m, hi, size, a, m[s].kind);
    FuseFlags(m, hi, flags, a, m[s].kind, s);
    FuseBacks(m, hi, back, a, m[s].kind, stale);
    hide Sound, Tiles;
    FuseListed(m, lists, a, s, c, l);
  }

  /** Writing the back pointer after the fused block completes the headers. */
  lemma RepairPictures(m: Layout, hi: nat, size: seq<int>, flags: seq<int>, back: seq<int>,
                       lists: seq<seq<nat>>, s: nat)
    requires s in m && Pictures(m, hi, size, flags, back, lists, s, End(m, s))
    ensures End(m, s) <= hi
    ensures Pictures(m, hi, size, flags, back[End(m, s) := s], lists, s, NIL)
  {
    hide FreeListed, SizesOk, FlagsOk;
    var back' := back[End(m, s) := s];
    forall t | t in m
      ensures BackAt(m, hi, back', t, NIL)
    {
      assert BackAt(m, hi, back, t, End(m, s));
    }
  }

  // ---- a fresh pool ----

  lemma InitialPictures(hi: nat, size: seq<int>, flags: seq<int>, back: seq<int>, lists: seq<seq<nat>>, c: nat)
    requires hi >= FIRST + MIN_UNITS && |size| == |flags| == |back| == hi + 1
    requires size[FIRST] == ALIGN * (hi - FIRST) && flags[FIRST] == FLAG_FREE
    requires flags[0] == FLAG_ALLOC && flags[hi] == FLAG_ALLOC
    requires back[0] == NIL && back[FIRST] == 0 && back[hi] == FIRST
    requires c < |lists| && Class(ALIGN * (hi - FIRST)) == c
    requires lists[c] == [FIRST] && forall p :: 0 <= p < |lists| && p != c ==> lists[p] == []
    ensures Pictures(map[FIRST := Seg(hi - FIRST, Free)], hi, size, flags, back, lists, NIL, NIL)
  {
    var m: Layout := map[FIRST := Seg(hi - FIRST, Free)];
    InitialSound(hi);
    hide Class, Sound;
    assert BackAt(m, hi, back, FIRST, NIL);
  }

  // ---- temporal slots ----

  /** Sizes of the temporal blocks. */
  ghost function Temporals(m: Layout): map<nat, nat>
  {
    map s | s in m && m[s].kind.Temporal? :: m[s].size
  }

  /** A block of `units` may serve requests of search class c: it is of the size asked for or one unit larger. */
  ghost predicate HomeFits(units: nat, c: nat, rows: nat)
  {
    && MIN_UNITS <= units && ALIGN * units <= POOL_MAX
    && c < SL_COUNT * rows
    && (c == SearchClass(ALIGN * units) || (units > MIN_UNITS && c == SearchClass(ALIGN * (units - 1))))
  }

  /** `home` gives the search class each temporal block was asked for under. */
  ghost predicate HomeOk(temps: map<nat, nat>, home: map<nat, nat>, rows: nat)
  {
    && home.Keys == temps.Keys
    && forall s :: s in temps ==> HomeFits(temps[s], home[s], rows)
  }

  /** The two ring entries of class c name its temporal block, or are both empty when it has none. */
  ghost predicate RingAt(a: int, b: int, home: map<nat, nat>, c: nat)
  {
    && (a == NIL || b == NIL)
    && (a != NIL ==> a >= 0 && a in home && home[a] == c)
    && (b != NIL ==> b >= 0 && b in home && home[b] == c)
    && forall s :: s in home && home[s] == c ==> s == a || s == b
  }

  /** An entry of class c is stale: it names no temporal block of the class, which has none. */
  ghost predicate RingStale(a: int, b: int, home: map<nat, nat>, c: nat)
  {
    && (a == NIL || b == NIL) && (a != NIL || b != NIL)
    && forall s :: s in home ==> home[s] != c
  }

  ghost predicate RingState(a: int, b: int, home: map<nat, nat>, c: nat, isStale: bool)
  {
    if isStale then RingStale(a, b, home, c) else RingAt(a, b, home, c)
  }

  ghost predicate RingsOk(active: seq<int>, home: map<nat, nat>, stale: set<nat>)
  {
    && |active| == 2 * LISTS
    && forall c: nat :: c < LISTS ==> RingState(active[2 * c], active[2 * c + 1], home, c, c in stale)
  }

  /** Entries name positions inside the pool, and only the rows in use have any. */
  ghost predicate EntriesOk(active: seq<int>, hi: nat, rows: nat)
  {
    && |active| == 2 * LISTS
    && forall i :: 0 <= i < |active| ==> active[i] == NIL || (0 < active[i] < hi && i < 2 * SL_COUNT * rows)
  }

  /** The temporal rings; `stale` are the classes left with an entry that names no temporal block of theirs. */
  ghost predicate SlotsOk(temps: map<nat, nat>, hi: nat, rows: nat, active: seq<int>, home: map<nat, nat>, stale: set<nat>)
  {
    && rows <= FL_COUNT && EntriesOk(active, hi, rows)
    && HomeOk(temps, home, rows) && RingsOk(active, home, stale)
  }

  function ClearSlot(active: seq<int>, c: nat, s: nat): seq<int>
    requires 2 * c + 1 < |active|
  {
    if active[2 * c] == s then active[2 * c := NIL]
    else if active[2 * c + 1] == s then active[2 * c + 1 := NIL]
    else active
  }

  lemma ClearEntries(active: seq<int>, hi: nat, rows: nat, c: nat, s: nat)
    requires EntriesOk(active, hi, rows) && c < LISTS
    ensures EntriesOk(ClearSlot(active, c, s), hi, rows)
  {
  }

  /** The classes left stale when block s, asked for under class d, is forgotten by clearing class c. */
  function StaleAfter(stale: set<nat>, c: nat, d: nat): set<nat>
  {
    if c == d then stale else stale - {c} + {d}
  }

  /**
   Clearing an entry of class c that names s, where s is leaving. If c is the class s was asked for
   under, nothing of s is left there. If not, the entry was a stale one: class c is mended and the
   class of s becomes stale in its place.
   */
  lemma ClearRing(active: seq<int>, home: map<nat, nat>, stale: set<nat>, c: nat, s: nat, e: nat)
    requires RingsOk(active, home, stale) && s in home && c < LISTS && e < LISTS && home[s] < LISTS
    requires active[2 * c] == s || active[2 * c + 1] == s
    ensures var cleared := ClearSlot(active, c, s);
            && |cleared| == |active| && cleared != active && cleared[2 * c] == cleared[2 * c + 1] == NIL
            && RingState(cleared[2 * e], cleared[2 * e + 1], home - {s}, e, e in StaleAfter(stale, c, home[s]))
    ensures home[s] !in stale && (c != home[s] ==> c in stale)
  {
    var d := home[s];
    assert RingState(active[2 * c], active[2 * c + 1], home, c, c in stale);
    assert RingState(active[2 * d], active[2 * d + 1], home, d, d in stale);
    assert RingState(active[2 * e], active[2 * e + 1], home, e, e in stale);
  }

  /** What is left of the rings when the temporal block s is forgotten by clearing class c. */
  lemma ClearClassSlots(temps: map<nat, nat>, hi: nat, rows: nat, active: seq<int>, home: map<nat, nat>, stale: set<nat>,
                        s: nat, c: nat)
    requires SlotsOk(temps, hi, rows, active, home, stale) && s in temps && c < LISTS
    requires active[2 * c] == s || active[2 * c + 1] == s
    ensures s in home
    ensures SlotsOk(temps - {s}, hi, rows, ClearSlot(active, c, s), home - {s}, StaleAfter(stale, c, home[s]))
  {
    assert s in home.Keys;
    assert HomeFits(temps[s], home[s], rows);
    ClearEntries(active, hi, rows, c, s);
    hide HomeFits, RingState, ClearSlot, EntriesOk, StaleAfter;
    ClearRing(active, home, stale, c, s, c);
    forall e: nat | e < LISTS
      ensures RingState(ClearSlot(active, c, s)[2 * e], ClearSlot(active, c, s)[2 * e + 1], home - {s}, e,
                        e in StaleAfter(stale, c, home[s]))
    {
      ClearRing(active, home, stale, c, s, e);
    }
    assert (home - {s}).Keys == (temps - {s}).Keys;
  }

  /** Stale classes never mend by frees: their number stays, and one moves at most, to a lower class. */
  lemma StaleMoves(temps: map<nat, nat>, hi: nat, rows: nat, active: seq<int>, home: map<nat, nat>, stale: set<nat>,
                   s: nat, bsz: nat)
    requires SlotsOk(temps, hi, rows, active, home, stale) && s in temps
    requires BlockSize(bsz) && bsz == ALIGN * temps[s] && bsz <= POOL_MAX
    ensures s in home
    ensures var f, d := ForgetClass(active, rows, s, bsz), home[s];
            && |StaleAfter(stale, f, d)| == |stale|
            && (StaleAfter(stale, f, d) != stale <==> f != d)
            && (f != d ==> f == SearchClass(bsz) && d < f && f in stale && StaleAfter(stale, f, d) == stale - {f} + {d})
  {
    hide SearchClass, SlotsOk, ForgetClass;
    ForgetFinds(temps, hi, rows, active, home, stale, s, bsz);
    RingFinds(temps, hi, rows, active, home, stale, s);
    var f, d := ForgetClass(active, rows, s, bsz), home[s];
    if f != d {
      assert |stale - {f}| == |stale| - 1;
      assert d !in stale - {f};
    }
  }

  lemma TombRing(active: seq<int>, home: map<nat, nat>, stale: set<nat>, s: nat, e: nat)
    requires RingsOk(active, home, stale) && s in home && home[s] < LISTS && e < LISTS
    ensures RingState(active[2 * e], active[2 * e + 1], home - {s}, e, e in stale + {home[s]})
  {
    var d := home[s];
    assert RingState(active[2 * d], active[2 * d + 1], home, d, d in stale);
    assert RingState(active[2 * e], active[2 * e + 1], home, e, e in stale);
  }

  /**
   The class in which freeing a temporal block of bsz bytes clears an entry: the class of its own size
   if an entry there names it, and otherwise the class of the next smaller size.
   */
  function ForgetClass(active: seq<int>, rows: nat, s: nat, bsz: nat): nat
    requires BlockSize(bsz) && bsz <= SEARCH_LIMIT
  {
    hide MappingSearch, SearchClass;
    if bsz == MIN_BLOCK || Named(active, rows, SearchClass(bsz), s) then SearchClass(bsz)
    else SearchClass(bsz - ALIGN)
  }

  predicate Named(active: seq<int>, rows: nat, c: nat, s: nat)
  {
    c < SL_COUNT * rows && 2 * c + 1 < |active| && (active[2 * c] == s || active[2 * c + 1] == s)
  }

  /** That class does have an entry for the block. If it is not the block's own, it is a higher one, and was stale. */
  lemma ForgetFinds(temps: map<nat, nat>, hi: nat, rows: nat, active: seq<int>, home: map<nat, nat>, stale: set<nat>,
                    s: nat, bsz: nat)
    requires SlotsOk(temps, hi, rows, active, home, stale) && s in temps
    requires BlockSize(bsz) && bsz == ALIGN * temps[s] && bsz <= POOL_MAX
    ensures var f := ForgetClass(active, rows, s, bsz);
            && f < SL_COUNT * rows <= LISTS && (active[2 * f] == s || active[2 * f + 1] == s)
            && s in home && (f == home[s] || (f == SearchClass(bsz) && home[s] < f && f in stale))
  {
    hide SearchClass, RingState, EntriesOk;
    RingFinds(temps, hi, rows, active, home, stale, s);
    var d, c := home[s], SearchClass(bsz);
    if bsz > MIN_BLOCK {
      SearchMono(bsz - ALIGN, bsz);
    }
    var f := ForgetClass(active, rows, s, bsz);
    if f != d {
      ClearRing(active, home, stale, c, s, c);
    }
  }

  /** Tombstoning the temporal block s leaves its entry behind: its class becomes stale. */
  lemma TombSlots(temps: map<nat, nat>, hi: nat, rows: nat, active: seq<int>, home: map<nat, nat>, stale: set<nat>, s: nat)
    requires SlotsOk(temps, hi, rows, active, home, stale) && s in temps
    ensures s in home && SlotsOk(temps - {s}, hi, rows, active, home - {s}, stale + {home[s]})
  {
    assert s in home.Keys;
    assert HomeFits(temps[s], home[s], rows);
    hide HomeFits, RingState, EntriesOk;
    forall e: nat | e < LISTS
      ensures RingState(active[2 * e], active[2 * e + 1], home - {s}, e, e in stale + {home[s]})
    {
      TombRing(active, home, stale, s, e);
    }
    assert (home - {s}).Keys == (temps - {s}).Keys;
  }

  /** A new temporal block takes an entry of its class, both of which were empty. */
  lemma RegisterSlots(temps: map<nat, nat>, hi: nat, rows: nat, active: seq<int>, home: map<nat, nat>, stale: set<nat>,
                      s: nat, units: nat, c: nat, i: nat)
    requires SlotsOk(temps, hi, rows, active, home, stale) && s !in temps && 0 < s < hi
    requires HomeFits(units, c, rows) && (i == 2 * c || i == 2 * c + 1)
    requires c < SL_COUNT * rows && active[2 * c] == NIL && active[2 * c + 1] == NIL
    ensures SlotsOk(temps[s := units], hi, rows, active[i := s], home[s := c], stale)
  {
    hide HomeFits;
    var active', home' := active[i := s], home[s := c];
    assert s !in home.Keys;
    assert RingState(active[2 * c], active[2 * c + 1], home, c, c in stale);
    forall d: nat | d < LISTS
      ensures RingState(active'[2 * d], active'[2 * d + 1], home', d, d in stale)
    {
      assert RingState(active[2 * d], active[2 * d + 1], home, d, d in stale);
    }
    assert home'.Keys == temps[s := units].Keys;
  }

  /** An entry names a temporal block of its class exactly when the class is not stale. */
  lemma RingNames(temps: map<nat, nat>, hi: nat, rows: nat, active: seq<int>, home: map<nat, nat>, stale: set<nat>, i: nat)
    returns (x: nat)
    requires SlotsOk(temps, hi, rows, active, home, stale) && i < 2 * LISTS && active[i] != NIL
    ensures active[i] == x && (x in temps && x in home && home[x] == i / 2 <==> i / 2 !in stale)
  {
    hide HomeFits, SearchClass;
    assert RingState(active[2 * (i / 2)], active[2 * (i / 2) + 1], home, i / 2, i / 2 in stale);
    x := active[i];
    assert x in home ==> x in home.Keys;
  }

  /** Each temporal block is what its class's ring entries name, and the only such block. */
  lemma RingFinds(temps: map<nat, nat>, hi: nat, rows: nat, active: seq<int>, home: map<nat, nat>, stale: set<nat>, s: nat)
    requires SlotsOk(temps, hi, rows, active, home, stale) && s in temps
    ensures s in home && home[s] < SL_COUNT * rows <= LISTS && HomeFits(temps[s], home[s], rows) && home[s] !in stale
    ensures var c := home[s];
            && ((active[2 * c] == s && active[2 * c + 1] == NIL) || (active[2 * c] == NIL && active[2 * c + 1] == s))
            && forall t :: t in home && home[t] == c ==> t == s
  {
    hide SearchClass;
    assert s in home.Keys;
    assert HomeFits(temps[s], home[s], rows);
    hide HomeFits;
    var c := home[s];
    assert RingState(active[2 * c], active[2 * c + 1], home, c, c in stale);
  }

  lemma TemporalsRetag(m: Layout, s: nat, k: Kind)
    requires s in m
    ensures Temporals(Retag(m, s, k)) == if k.Temporal? then Temporals(m)[s := m[s].size] else Temporals(m) - {s}
  {
  }

  lemma TemporalIn(m: Layout, s: nat)
    ensures s in Temporals(m) <==> s in m && m[s].kind.Temporal?
  {
  }

  lemma NotTemporal(m: Layout, s: nat)
    requires s !in m || !m[s].kind.Temporal?
    ensures Temporals(m) - {s} == Temporals(m)
  {
  }

  lemma TemporalsSplit(m: Layout, s: nat, n: nat)
    requires s in m && !m[s].kind.Temporal? && n < m[s].size && s + n !in m
    ensures Temporals(SplitAt(m, s, n)) == Temporals(m)
  {
  }

  lemma TemporalsFuse(m: Layout, a: nat, k: Kind)
    requires a in m && End(m, a) in m && !m[a].kind.Temporal? && !m[End(m, a)].kind.Temporal? && !k.Temporal?
    ensures Temporals(Fuse(m, a, k)) == Temporals(m)
  {
  }

  // ---- fitting a request ----

  /** The block at x lies in a class all of whose blocks hold `needed` bytes. */
  ghost predicate Suits(m: Layout, x: nat, needed: nat)
    requires Searchable(needed)
  {
    x in m && m[x].kind.Free? && m[x].size >= MIN_UNITS && SearchClass(needed) <= Class(Bytes(m, x))
  }

  ghost predicate HasFit(m: Layout, needed: nat)
    requires Searchable(needed)
  {
    exists x: nat :: Suits(m, x, needed)
  }

  /** A request of a block no larger than a sixteenth below some free block is served; one above all of them is not. */
  lemma FitBounds(m: Layout, needed: nat, x: nat)
    requires MIN_BLOCK <= needed <= SEARCH_LIMIT && x in m && m[x].kind.Free? && m[x].size >= MIN_UNITS
    ensures needed + needed / SL_COUNT <= Bytes(m, x) ==> Suits(m, x, needed)
    ensures Suits(m, x, needed) <==> Floor(SearchClass(needed)) <= Bytes(m, x)
    ensures Suits(m, x, needed) ==> needed <= Bytes(m, x)
  {
    hide SearchClass, Class, Floor;
    if needed + needed / SL_COUNT <= Bytes(m, x) {
      SearchSlack(needed, Bytes(m, x));
    }
    ClassAtLeast(Bytes(m, x), SearchClass(needed));
    if SearchClass(needed) <= Class(Bytes(m, x)) {
      SearchHolds(needed, Bytes(m, x));
    }
  }

  /** The block at x was found for `needed` bytes in the tightest class that is sure to fit, and cut to `units`. */
  ghost predicate Taken(m: Layout, m': Layout, x: nat, units: nat, needed: nat, k: Kind)
    requires Searchable(needed)
  {
    && Suits(m, x, needed)
    && (forall t: nat :: Suits(m, t, needed) ==> Class(Bytes(m, x)) <= Class(Bytes(m, t)))
    && (ALIGN * units == needed || (units == m[x].size && ALIGN * units == needed + ALIGN))
    && x !in Occupied(m) && Occupied(m') == Occupied(m)[x := Seg(units, k)]
  }

  lemma CutUnits(size: nat, needed: nat) returns (n: nat)
    requires BlockSize(needed) && needed <= ALIGN * size
    ensures n == needed / ALIGN && MIN_UNITS <= n <= size && ALIGN * n == needed
    ensures size - n < MIN_UNITS ==> ALIGN * size == needed || ALIGN * size == needed + ALIGN
  {
    n := needed / ALIGN;
  }

  /** Popping, cutting and marking a block, seen on layouts. */
  lemma CutLayout(m: Layout, hi: nat, x: nat, needed: nat, k: Kind)
    requires Sound(m, hi) && x in m && m[x].kind.Free? && BlockSize(needed) && needed <= Bytes(m, x) && InUse(k)
    ensures var n := needed / ALIGN;
            && n <= m[x].size
            && var cut := Retag(Trim(Retag(m, x, Alloc), x, n), x, k);
            && x !in Occupied(m) && x in cut && Occupied(cut) == Occupied(m)[x := cut[x]] && cut[x].kind == k
            && (ALIGN * cut[x].size == needed || (cut[x].size == m[x].size && ALIGN * cut[x].size == needed + ALIGN))
            && Temporals(cut) == if k.Temporal? then Temporals(m)[x := cut[x].size] else Temporals(m)
  {
    var n := CutUnits(m[x].size, needed);
    TakeSound(m, hi, x, Alloc);
    TakeOccupied(m, x, Alloc);
    var r := Retag(m, x, Alloc);
    TrimSound(r, hi, x, n);
    CutTemporals(m, x, n, k);
    hide Sound, NextUsed, Temporals, Occupied, BlockSize;
    var t := Trim(r, x, n);
    RelabelOccupied(t, x, k);
    PutBack(Retag(t, x, k), m, x);
  }

  lemma CutTemporals(m: Layout, x: nat, n: nat, k: Kind)
    requires x in m && m[x].kind.Free? && n <= m[x].size
    requires m[x].size - n >= MIN_UNITS ==> x + n !in m
    ensures var cut := Retag(Trim(Retag(m, x, Alloc), x, n), x, k);
            x in cut && Temporals(cut) == if k.Temporal? then Temporals(m)[x := cut[x].size] else Temporals(m)
  {
    var r := Retag(m, x, Alloc);
    TemporalsRetag(m, x, Alloc);
    NotTemporal(m, x);
    if m[x].size - n >= MIN_UNITS {
      TemporalsSplit(r, x, n);
    }
    TemporalsRetag(Trim(r, x, n), x, k);
    NotTemporal(Trim(r, x, n), x);
  }

  lemma TakenBy(m: Layout, lists: seq<seq<nat>>, hi: nat, x: nat, needed: nat, i: nat, k: Kind)
    requires Sound(m, hi) && FreeListed(m, lists) && |lists| == LISTS && ALIGN * (hi - FIRST) <= POOL_MAX
    requires BlockSize(needed) && needed <= SEARCH_LIMIT && InUse(k)
    requires FreeIn(m, x, i) && SearchClass(needed) <= i && NoneBetween(lists, SearchClass(needed), i)
    ensures needed <= Bytes(m, x) && needed / ALIGN <= m[x].size && HasFit(m, needed) && x !in Occupied(m)
    ensures x in Trim(Retag(m, x, Alloc), x, needed / ALIGN) && !Trim(Retag(m, x, Alloc), x, needed / ALIGN)[x].kind.Free?
    ensures var cut := Retag(Trim(Retag(m, x, Alloc), x, needed / ALIGN), x, k);
            && x in cut && cut[x].kind == k && Taken(m, cut, x, cut[x].size, needed, k)
            && Occupied(cut) == Occupied(m)[x := cut[x]]
            && Temporals(cut) == if k.Temporal? then Temporals(m)[x := cut[x].size] else Temporals(m)
  {
    hide SearchClass, Class, Floor, Temporals, Occupied;
    assert Suits(m, x, needed);
    FitBounds(m, needed, x);
    CutLayout(m, hi, x, needed, k);
    hide Sound, Trim, Retag;
    forall t: nat | Suits(m, t, needed)
      ensures Class(Bytes(m, x)) <= Class(Bytes(m, t))
    {
      FitListed(m, lists, hi, t);
    }
  }

  lemma FitListed(m: Layout, lists: seq<seq<nat>>, hi: nat, t: nat)
    requires Sound(m, hi) && FreeListed(m, lists) && |lists| == LISTS && ALIGN * (hi - FIRST) <= POOL_MAX
    requires t in m && m[t].kind.Free?
    ensures m[t].size >= MIN_UNITS && Class(Bytes(m, t)) < LISTS && lists[Class(Bytes(m, t))] != []
  {
    hide Class, Apart;
    ClassInTable(Bytes(m, t), ALIGN * (hi - FIRST));
    assert t in lists[Class(Bytes(m, t))];
  }

  lemma NoneFits(m: Layout, lists: seq<seq<nat>>, hi: nat, needed: nat)
    requires Sound(m, hi) && FreeListed(m, lists) && |lists| == LISTS && ALIGN * (hi - FIRST) <= POOL_MAX
    requires Searchable(needed) && NoneBetween(lists, SearchClass(needed), LISTS)
    ensures !HasFit(m, needed)
  {
    hide SearchClass, Class, Sound;
    forall t: nat
      ensures !Suits(m, t, needed)
    {
      if Suits(m, t, needed) {
        FitListed(m, lists, hi, t);
      }
    }
  }

  // ---- the payload of a block in use belongs to the client ----

  lemma InsideNoStart(m: Layout, hi: nat, s: nat, u: nat)
    requires Tiles(m, FIRST, hi) && s in m && s < u < End(m, s)
    ensures 0 < u < hi && u !in m && forall t :: t in m ==> End(m, t) != u
  {
  }

  lemma PayloadPictures(m: Layout, hi: nat, size: seq<int>, flags: seq<int>, back: seq<int>,
                        lists: seq<seq<nat>>, s: nat, u: nat, a: int, b: int, c: int)
    requires Pictures(m, hi, size, flags, back, lists, NIL, NIL) && s in m && s < u < End(m, s)
    ensures u < hi && !Listed(lists, u)
    ensures Pictures(m, hi, size[u := a], flags[u := b], back[u := c], lists, NIL, NIL)
  {
    InsideNoStart(m, hi, s, u);
    NotListed(m, lists, u);
    hide Sound, FreeListed;
    var back' := back[u := c];
    forall t | t in m
      ensures BackAt(m, hi, back', t, NIL)
    {
      assert BackAt(m, hi, back, t, NIL);
    }
  }
}
