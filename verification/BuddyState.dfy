/** How the buddy book's arrays spell out a layout. Positions count min-blocks. */
module BuddyState {
  import opened Powers
  import opened Words
  import opened Tiling
  import opened BuddyLayout
  import opened FreeList

  const TAG_FREE: int := 0x80
  const TAG_NONE: int := 0xFF

  /** Orders the tables have room for (Mx). */
  const ORDERS: nat := 64

  // ---- block tags ----

  function TagOf(m: Layout, u: nat): int
  {
    if u !in m || m[u].size == 0 then TAG_NONE
    else
      match m[u].kind
      case Free => TAG_FREE + Log2(m[u].size)
      case Parked => TAG_NONE
      case _ => Log2(m[u].size)
  }

  /** Every min-block except the one at `hole` carries the tag its block calls for. */
  ghost predicate TagsOk(tags: seq<int>, m: Layout, hole: int)
  {
    forall u :: 0 <= u < |tags| && u != hole ==> tags[u] == TagOf(m, u)
  }

  /** A tag says free at order o exactly when a free block of order o starts there. */
  lemma FreeTag(tags: seq<int>, m: Layout, top: nat, hole: int, u: nat, o: nat)
    requires TagsOk(tags, m, hole) && Dyadic(m, top) && top < ORDERS && o < ORDERS
    requires u < |tags| && u != hole
    ensures tags[u] == TAG_FREE + o <==> FreeAt(m, u, o)
  {
    assert tags[u] == TagOf(m, u);
    if u in m {
      assert DyadicBlock(m[u], u, top);
      Log2Unique(Pow2(o), o);
    }
  }

  /** A tag below the number of orders is exactly the start of a block in use. */
  lemma UsedTag(tags: seq<int>, m: Layout, top: nat, hole: int, u: nat)
    requires TagsOk(tags, m, hole) && Dyadic(m, top) && top < ORDERS
    requires u < |tags| && u != hole
    ensures 0 <= tags[u] <= TAG_NONE
    ensures tags[u] < TAG_FREE && tags[u] <= top <==> u in m && InUse(m[u].kind)
    ensures u in m && InUse(m[u].kind) ==> tags[u] == Log2(m[u].size) && m[u].size == Pow2(tags[u])
  {
    assert tags[u] == TagOf(m, u);
    if u in m {
      assert DyadicBlock(m[u], u, top);
    }
  }

  // ---- list membership ----

  /** The free lists hold exactly the free blocks, each at its own order. */
  ghost predicate FreeListed(m: Layout, lists: seq<seq<nat>>)
  {
    forall o, s: nat :: 0 <= o < |lists| ==> (s in lists[o] <==> FreeAt(m, s, o))
  }

  ghost predicate ParkedListed(m: Layout, parked: seq<seq<nat>>)
  {
    forall o, s: nat :: 0 <= o < |parked| ==> (s in parked[o] <==> s in m && m[s] == Seg(Pow2(o), Parked))
  }

  lemma FreeNotListed(m: Layout, lists: seq<seq<nat>>, s: nat)
    requires FreeListed(m, lists)
    requires s !in m || !m[s].kind.Free?
    ensures !Listed(lists, s)
  {
  }

  lemma ParkedNotListed(m: Layout, parked: seq<seq<nat>>, s: nat)
    requires ParkedListed(m, parked)
    requires s !in m || !m[s].kind.Parked?
    ensures !Listed(parked, s)
  {
  }

  ghost predicate MaskOk(mask: nat, lists: seq<seq<nat>>)
  {
    && Fits(mask, |lists|)
    && forall o :: 0 <= o < |lists| ==> (BitAt(mask, o) <==> lists[o] != [])
  }

  lemma MaskKeeps(mask: nat, lists: seq<seq<nat>>, o: nat, l: seq<nat>)
    requires MaskOk(mask, lists) && o < |lists| && (l == [] <==> lists[o] == [])
    ensures MaskOk(mask, lists[o := l])
  {
  }

  lemma MaskSet(mask: nat, lists: seq<seq<nat>>, o: nat, l: seq<nat>)
    requires MaskOk(mask, lists) && o < |lists| && l != []
    ensures Fits(mask, |lists|) && MaskOk(Set(mask, o, |lists|), lists[o := l])
  {
  }

  lemma MaskClear(mask: nat, lists: seq<seq<nat>>, o: nat)
    requires MaskOk(mask, lists) && o < |lists|
    ensures Fits(mask, |lists|) && MaskOk(Clear(mask, o, |lists|), lists[o := []])
  {
  }

  /** What `o + ctz(mask >> o)` finds: the first nonempty list at or above o. */
  lemma MaskScan(mask: nat, lists: seq<seq<nat>>, m: Layout, top: nat, o: nat, i: nat)
    requires MaskOk(mask, lists) && FreeListed(m, lists) && Dyadic(m, top)
    requires o <= top < |lists|
    requires i == if Shr(mask, o) == 0 then top + 1 else o + Ctz(Shr(mask, o))
    ensures o <= i
    ensures Shr(mask, o) != 0 ==> i <= top && lists[i] != []
    ensures forall p :: o <= p < i && p < |lists| ==> lists[p] == []
    ensures forall s: nat, q: nat :: o <= q < i ==> !FreeAt(m, s, q)
    ensures Shr(mask, o) == 0 ==> forall s: nat, q: nat :: o <= q ==> !FreeAt(m, s, q)
  {
    var w := Shr(mask, o);
    if w != 0 {
      ShrBit(mask, o, Ctz(w));
      if i >= |lists| {
        HighBit(mask, |lists|, i);
      }
      NonemptyBelowTop(m, lists, top, i);
    }
    forall p | o <= p < i && p < |lists|
      ensures lists[p] == []
    {
      ShrBit(mask, o, p - o);
      if w == 0 {
        ZeroBit(p - o);
      }
    }
    forall s: nat, q: nat | o <= q && (q < i || w == 0)
      ensures !FreeAt(m, s, q)
    {
      if FreeAt(m, s, q) {
        BlockBelowTop(m, top, s, q);
      }
    }
  }

  lemma NonemptyBelowTop(m: Layout, lists: seq<seq<nat>>, top: nat, i: nat)
    requires FreeListed(m, lists) && Dyadic(m, top) && i < |lists| && lists[i] != []
    ensures i <= top
  {
    assert lists[i][0] in lists[i];
    BlockBelowTop(m, top, lists[i][0], i);
  }

  // ---- tail headers ----

  function Tail(m: Layout, s: nat): int
    requires s in m
  {
    End(m, s) - 1
  }

  /** Each block in use, except the one at `hole`, ends in a header giving its order and state. */
  ghost predicate HeadersOk(m: Layout, order: seq<int>, flags: seq<int>, hole: int)
  {
    && |order| == |flags|
    && forall s :: s in m && s != hole && InUse(m[s].kind) ==> HeaderAt(m, order, flags, s)
  }

  ghost predicate HeaderAt(m: Layout, order: seq<int>, flags: seq<int>, s: nat)
    requires s in m && |order| == |flags|
  {
    && m[s].size > 0
    && Tail(m, s) < |order|
    && order[Tail(m, s)] == Log2(m[s].size)
    && flags[Tail(m, s)] == FlagOf(m[s].kind)
  }

  // ---- temporal slots ----

  predicate TemporalAt(m: Layout, s: int, o: nat)
  {
    s >= 0 && s in m && m[s] == Seg(Pow2(o), Temporal)
  }

  /**
   The two ring entries of an order name its temporal block, or are both empty when it has none. The
   tainted orders are those that had a temporal block tombstoned: they keep a stale entry for good.
   */
  ghost predicate SlotsOk(m: Layout, active: seq<int>, tainted: set<nat>)
  {
    && |active| == 2 * ORDERS
    && (forall i :: 0 <= i < |active| ==> active[i] >= NIL)
    && forall o: nat :: o < ORDERS ==> EntriesOk(m, active[2 * o], active[2 * o + 1], o, o in tainted)
  }

  ghost predicate EntriesOk(m: Layout, a: int, b: int, o: nat, stale: bool)
  {
    if stale then SlotStale(m, a, b, o) else SlotOk(m, a, b, o)
  }

  ghost predicate SlotStale(m: Layout, a: int, b: int, o: nat)
  {
    (a != NIL || b != NIL) && forall s: nat :: !TemporalAt(m, s, o)
  }

  ghost predicate SlotOk(m: Layout, a: int, b: int, o: nat)
  {
    && (a == NIL || b == NIL)
    && (a != NIL ==> TemporalAt(m, a, o))
    && (b != NIL ==> TemporalAt(m, b, o))
    && (forall s: nat :: TemporalAt(m, s, o) ==> s == a || s == b)
  }

  ghost predicate SameTemporals(m: Layout, n: Layout)
  {
    forall s: nat, o: nat :: TemporalAt(m, s, o) <==> TemporalAt(n, s, o)
  }

  lemma SlotsFrame(m: Layout, n: Layout, active: seq<int>, tainted: set<nat>)
    requires SlotsOk(m, active, tainted) && SameTemporals(m, n)
    ensures SlotsOk(n, active, tainted)
  {
    forall o: nat | o < ORDERS
      ensures EntriesOk(n, active[2 * o], active[2 * o + 1], o, o in tainted)
    {
      assert EntriesOk(m, active[2 * o], active[2 * o + 1], o, o in tainted);
    }
  }

  // ---- how the pictures move when a block changes state or place ----

  /** Only the block at x changes state; it stays out of the free and parked lists, or becomes free. */
  lemma RetagPictures(m: Layout, x: nat, k: Kind, order: seq<int>, flags: seq<int>, parked: seq<seq<nat>>)
    requires x in m && InUse(m[x].kind) && (k.Free? || InUse(k))
    requires HeadersOk(m, order, flags, x) && ParkedListed(m, parked)
    ensures HeadersOk(Retag(m, x, k), order, flags, x) && ParkedListed(Retag(m, x, k), parked)
    ensures k.Free? ==> HeadersOk(Retag(m, x, k), order, flags, NIL)
  {
    var n := Retag(m, x, k);
    forall s | s in n && s != x && InUse(n[s].kind)
      ensures HeaderAt(n, order, flags, s)
    {
      assert HeaderAt(m, order, flags, s);
    }
  }

  lemma PushListed(m: Layout, lists: seq<seq<nat>>, x: nat, o: nat)
    requires FreeListed(m, lists) && o < |lists|
    requires x in m && m[x].size == Pow2(o) && !m[x].kind.Free?
    ensures FreeListed(Retag(m, x, Free), lists[o := [x] + lists[o]])
  {
    var n, l := Retag(m, x, Free), lists[o := [x] + lists[o]];
    forall p, s: nat | 0 <= p < |l|
      ensures s in l[p] <==> FreeAt(n, s, p)
    {
      if s == x && FreeAt(n, x, p) {
        Pow2Injective(p, o);
      }
    }
  }

  lemma RetagTags(tags: seq<int>, m: Layout, x: nat, k: Kind)
    requires TagsOk(tags, m, x) && x in m && x < |tags|
    ensures TagsOk(tags, Retag(m, x, k), x)
    ensures TagsOk(tags[x := TagOf(Retag(m, x, k), x)], Retag(m, x, k), NIL)
  {
    var n := Retag(m, x, k);
    forall u | 0 <= u < |tags| && u != x
      ensures tags[u] == TagOf(n, u)
    {
      assert tags[u] == TagOf(m, u);
    }
  }

  /** Only nodes of the lists, and x, got new links. */
  ghost predicate OnlyListed(lists: seq<seq<nat>>, x: int, next: seq<int>, next': seq<int>)
  {
    |next'| == |next| && forall u: nat :: u < |next| && !Listed(lists, u) && u != x ==> next'[u] == next[u]
  }

  /** Links of parked blocks are not disturbed by writes to free-list nodes and to x. */
  lemma ParkedUndisturbed(m: Layout, lists: seq<seq<nat>>, parked: seq<seq<nat>>, next: seq<int>, next': seq<int>,
                          back: seq<int>, heads: seq<int>, x: int)
    requires FreeListed(m, lists) && ParkedListed(m, parked) && Chains(next, back, heads, parked)
    requires |next| == |back| && OnlyListed(lists, x, next, next')
    requires x < 0 || !Listed(parked, x)
    ensures Chains(next', back, heads, parked)
  {
    forall u: nat | u < |next| && Listed(parked, u)
      ensures next'[u] == next[u]
    {
      var o :| 0 <= o < |parked| && u in parked[o];
      assert m[u].kind.Parked?;
    }
    ChainsFrame(next, back, next', back, heads, parked);
  }

  // ---- the value side of the invariant in one piece ----

  ghost predicate Pictures(m: Layout, top: nat, tags: seq<int>, order: seq<int>, flags: seq<int>,
                           lists: seq<seq<nat>>, parked: seq<seq<nat>>, active: seq<int>, tainted: set<nat>, hole: int)
  {
    && Sound(m, top)
    && TagsOk(tags, m, hole)
    && FreeListed(m, lists)
    && ParkedListed(m, parked)
    && HeadersOk(m, order, flags, hole)
    && SlotsOk(m, active, tainted)
  }

  predicate Transit(m: Layout, x: nat, o: nat)
  {
    x in m && m[x].size == Pow2(o) && (m[x].kind.Alloc? || m[x].kind.Tombstoned?)
  }

  /** Where the block in transit lies, and that no list holds it. */
  lemma TransitUnlisted(m: Layout, top: nat, tags: seq<int>, order: seq<int>, flags: seq<int>,
                        lists: seq<seq<nat>>, parked: seq<seq<nat>>, active: seq<int>, tainted: set<nat>, x: nat, o: nat)
    requires Pictures(m, top, tags, order, flags, lists, parked, active, tainted, x) && Transit(m, x, o)
    ensures x < Pow2(top)
    ensures !Listed(lists, x) && !Listed(parked, x)
    ensures FreeListed(m, lists) && ParkedListed(m, parked)
  {
    FreeNotListed(m, lists, x);
    ParkedNotListed(m, parked, x);
  }

  lemma PushPictures(m: Layout, top: nat, tags: seq<int>, order: seq<int>, flags: seq<int>,
                     lists: seq<seq<nat>>, parked: seq<seq<nat>>, active: seq<int>, tainted: set<nat>, x: nat, o: nat)
    requires Pictures(m, top, tags, order, flags, lists, parked, active, tainted, x)
    requires Transit(m, x, o) && o <= top && x < |tags| && o < |lists|
    requires o < top ==> !FreeAt(m, BuddyOf(x, o), o)
    ensures Pictures(Retag(m, x, Free), top, tags[x := TAG_FREE + o], order, flags,
                     lists[o := [x] + lists[o]], parked, active, tainted, NIL)
  {
    hide Sound, TagsOk, FreeListed, HeadersOk, ParkedListed, SlotsOk, FreeAt;
    var n := Retag(m, x, Free);
    assert Sound(n, top) by {
      RetagSound(m, x, o, top);
    }
    assert TagsOk(tags[x := TAG_FREE + o], n, NIL) by {
      RetagTags(tags, m, x, Free);
      Log2Unique(Pow2(o), o);
    }
    assert FreeListed(n, lists[o := [x] + lists[o]]) by {
      PushListed(m, lists, x, o);
    }
    assert HeadersOk(n, order, flags, NIL) && ParkedListed(n, parked) by {
      RetagPictures(m, x, Free, order, flags, parked);
    }
    assert SlotsOk(n, active, tainted) by {
      SlotsFrame(m, n, active, tainted);
    }
  }

  // ---- taking a free block and splitting it ----

  lemma TakeListed(m: Layout, lists: seq<seq<nat>>, o: nat)
    requires FreeListed(m, lists) && o < |lists| && lists[o] != [] && NoDup(lists[o])
    requires forall p, q, s :: 0 <= p < |lists| && 0 <= q < |lists| && s in lists[p] && s in lists[q] ==> p == q
    ensures FreeAt(m, lists[o][0], o)
    ensures FreeListed(Retag(m, lists[o][0], Alloc), lists[o := lists[o][1..]])
  {
    var x := lists[o][0];
    assert x in lists[o];
    var n, l := Retag(m, x, Alloc), lists[o := lists[o][1..]];
    forall p, s: nat | 0 <= p < |l|
      ensures s in l[p] <==> FreeAt(n, s, p)
    {
      if p == o {
        assert s in lists[o] <==> s == x || s in lists[o][1..];
      } else {
        assert x !in lists[p];
      }
    }
  }

  lemma TakeHeaders(m: Layout, x: nat, order: seq<int>, flags: seq<int>, parked: seq<seq<nat>>)
    requires HeadersOk(m, order, flags, NIL) && ParkedListed(m, parked) && x in m && !m[x].kind.Parked?
    ensures HeadersOk(Retag(m, x, Alloc), order, flags, x) && ParkedListed(Retag(m, x, Alloc), parked)
  {
    var n := Retag(m, x, Alloc);
    forall s | s in n && s != x && InUse(n[s].kind)
      ensures HeaderAt(n, order, flags, s)
    {
      assert HeaderAt(m, order, flags, s);
    }
  }

  lemma TakePictures(m: Layout, top: nat, tags: seq<int>, order: seq<int>, flags: seq<int>,
                     lists: seq<seq<nat>>, parked: seq<seq<nat>>, active: seq<int>, tainted: set<nat>,
                     next: seq<int>, prev: seq<int>, heads: seq<int>, o: nat)
    requires Pictures(m, top, tags, order, flags, lists, parked, active, tainted, NIL)
    requires Chains(next, prev, heads, lists) && o < |lists| && lists[o] != [] && Pow2(top) <= |tags|
    ensures var x := lists[o][0];
            && FreeAt(m, x, o)
            && Sound(Retag(m, x, Alloc), top)
            && Pictures(Retag(m, x, Alloc), top, tags, order, flags,
                        lists[o := lists[o][1..]], parked, active, tainted, x)
  {
    hide Sound, TagsOk, HeadersOk, ParkedListed, SlotsOk, LinkedAt;
    var x := lists[o][0];
    assert Chain(next, prev, heads[o], lists[o]);
    TakeListed(m, lists, o);
    var n := Retag(m, x, Alloc);
    TakeSound(m, x, o, Alloc, top);
    assert TagsOk(tags, n, x) by {
      TakeTags(tags, m, x, Alloc);
    }
    TakeHeaders(m, x, order, flags, parked);
    SlotsFrame(m, n, active, tainted);
  }

  lemma TakeTags(tags: seq<int>, m: Layout, x: nat, k: Kind)
    requires TagsOk(tags, m, NIL) && x in m
    ensures TagsOk(tags, Retag(m, x, k), x)
  {
    forall u | 0 <= u < |tags| && u != x
      ensures tags[u] == TagOf(Retag(m, x, k), u)
    {
      assert tags[u] == TagOf(m, u);
    }
  }

  lemma SplitListed(m: Layout, lists: seq<seq<nat>>, parked: seq<seq<nat>>, x: nat, h: nat)
    requires FreeListed(m, lists) && ParkedListed(m, parked) && h < |lists|
    requires Transit(m, x, h + 1) && x + Pow2(h) !in m
    ensures !Listed(lists, x + Pow2(h)) && !Listed(parked, x + Pow2(h))
    ensures FreeListed(SplitAt(m, x, Pow2(h)), lists[h := [x + Pow2(h)] + lists[h]])
    ensures ParkedListed(SplitAt(m, x, Pow2(h)), parked)
  {
    hide Pow2;
    Pow2Step(h);
    var r, n, l := x + Pow2(h), SplitAt(m, x, Pow2(h)), lists[h := [x + Pow2(h)] + lists[h]];
    FreeNotListed(m, lists, r);
    ParkedNotListed(m, parked, r);
    forall p, s: nat | 0 <= p < |l|
      ensures s in l[p] <==> FreeAt(n, s, p)
    {
      if s == r && FreeAt(n, r, p) {
        Pow2Injective(p, h);
      }
    }
  }

  lemma SplitTags(tags: seq<int>, m: Layout, x: nat, h: nat)
    requires TagsOk(tags, m, x) && Transit(m, x, h + 1) && x + Pow2(h) < |tags|
    ensures TagsOk(tags[x + Pow2(h) := TAG_FREE + h], SplitAt(m, x, Pow2(h)), x)
  {
    var r, n := x + Pow2(h), SplitAt(m, x, Pow2(h));
    Log2Unique(Pow2(h), h);
    assert n[r] == Seg(Pow2(h), Free);
    forall u | 0 <= u < |tags| && u != x && u != r
      ensures tags[u] == TagOf(n, u)
    {
      assert tags[u] == TagOf(m, u);
      assert u in n <==> u in m;
    }
  }

  lemma SplitHeaders(m: Layout, x: nat, h: nat, order: seq<int>, flags: seq<int>)
    requires HeadersOk(m, order, flags, x) && Transit(m, x, h + 1) && x + Pow2(h) !in m
    ensures HeadersOk(SplitAt(m, x, Pow2(h)), order, flags, x)
  {
    var n := SplitAt(m, x, Pow2(h));
    forall s | s in n && s != x && InUse(n[s].kind)
      ensures HeaderAt(n, order, flags, s)
    {
      assert HeaderAt(m, order, flags, s);
    }
  }

  lemma SplitPictures(m: Layout, top: nat, tags: seq<int>, order: seq<int>, flags: seq<int>,
                      lists: seq<seq<nat>>, parked: seq<seq<nat>>, active: seq<int>, tainted: set<nat>, x: nat, h: nat)
    requires Pictures(m, top, tags, order, flags, lists, parked, active, tainted, x)
    requires Transit(m, x, h + 1) && h < top && h < |lists| && Pow2(top) <= |tags|
    ensures x + Pow2(h) < Pow2(top)
    ensures !Listed(lists, x + Pow2(h)) && !Listed(parked, x + Pow2(h))
    ensures FreeListed(m, lists) && ParkedListed(m, parked)
    ensures Transit(SplitAt(m, x, Pow2(h)), x, h)
    ensures Pictures(SplitAt(m, x, Pow2(h)), top, tags[x + Pow2(h) := TAG_FREE + h], order, flags,
                     lists[h := [x + Pow2(h)] + lists[h]], parked, active, tainted, x)
  {
    hide TagsOk, HeadersOk, ParkedListed, FreeListed, SlotsOk, Dyadic, Canonical, Listed, Pow2;
    Pow2Step(h);
    assert End(m, x) <= Pow2(top);
    hide Tiles;
    SplitOnce(m, x, h, top);
    SplitListed(m, lists, parked, x, h);
    SplitTags(tags, m, x, h);
    SplitHeaders(m, x, h, order, flags);
    SlotsFrame(m, SplitAt(m, x, Pow2(h)), active, tainted);
  }

  // ---- joining with a free buddy ----

  /** The lists after node b left list o. */
  ghost predicate Removed(lists: seq<seq<nat>>, lists': seq<seq<nat>>, o: nat, b: nat)
  {
    && |lists'| == |lists|
    && forall p, s: nat :: 0 <= p < |lists| ==> (s in lists'[p] <==> s in lists[p] && (p != o || s != b))
  }

  lemma JoinListed(m: Layout, lists: seq<seq<nat>>, lists': seq<seq<nat>>, parked: seq<seq<nat>>, x: nat, b: nat, o: nat)
    requires FreeListed(m, lists) && ParkedListed(m, parked) && Removed(lists, lists', o, b)
    requires Transit(m, x, o) && FreeAt(m, b, o) && o < |lists| && (End(m, x) == b || End(m, b) == x)
    ensures FreeListed(Join(m, x, b), lists') && ParkedListed(Join(m, x, b), parked)
  {
    var n := Join(m, x, b);
    forall p, s: nat | 0 <= p < |lists'|
      ensures s in lists'[p] <==> FreeAt(n, s, p)
    {
      if s == b && FreeAt(m, s, p) {
        Pow2Injective(p, o);
      }
    }
  }

  lemma JoinTags(tags: seq<int>, m: Layout, x: nat, b: nat)
    requires TagsOk(tags, m, x) && x in m && b in m && x < |tags| && b < |tags|
    requires m[x].size > 0 && m[b].size > 0
    requires End(m, x) == b || End(m, b) == x
    ensures TagsOk(tags[(if x < b then b else x) := TAG_NONE], Join(m, x, b), if x < b then x else b)
  {
    var n := Join(m, x, b);
    forall u | 0 <= u < |tags| && u != x && u != b
      ensures tags[u] == TagOf(n, u)
    {
      assert tags[u] == TagOf(m, u);
    }
  }

  lemma JoinHeaders(m: Layout, x: nat, b: nat, order: seq<int>, flags: seq<int>)
    requires HeadersOk(m, order, flags, x) && x in m && b in m
    requires End(m, x) == b || End(m, b) == x
    ensures HeadersOk(Join(m, x, b), order, flags, if x < b then x else b)
  {
    var n := Join(m, x, b);
    forall s | s in n && s != (if x < b then x else b) && InUse(n[s].kind)
      ensures HeaderAt(n, order, flags, s)
    {
      assert HeaderAt(m, order, flags, s);
    }
  }

  lemma JoinSlots(m: Layout, x: nat, b: nat, active: seq<int>, tainted: set<nat>)
    requires SlotsOk(m, active, tainted) && x in m && b in m && m[b].kind.Free? && !m[x].kind.Temporal?
    requires m[x].size > 0 && m[b].size > 0
    requires End(m, x) == b || End(m, b) == x
    ensures SlotsOk(Join(m, x, b), active, tainted)
  {
    SlotsFrame(m, Join(m, x, b), active, tainted);
  }

  /** The merge loop's test reads the buddy's tag, which lies inside the pool. */
  lemma BuddyTag(m: Layout, top: nat, tags: seq<int>, order: seq<int>, flags: seq<int>,
                 lists: seq<seq<nat>>, parked: seq<seq<nat>>, active: seq<int>, tainted: set<nat>, x: nat, o: nat)
    requires Pictures(m, top, tags, order, flags, lists, parked, active, tainted, x)
    requires Transit(m, x, o) && o < top < ORDERS && Pow2(top) <= |tags| && |lists| == ORDERS
    ensures Xor(x, Pow2(o)) == BuddyOf(x, o) < Pow2(top)
    ensures tags[Xor(x, Pow2(o))] == TAG_FREE + o <==> FreeAt(m, BuddyOf(x, o), o)
    ensures FreeAt(m, BuddyOf(x, o), o) ==> BuddyOf(x, o) in lists[o]
  {
    assert DyadicBlock(m[x], x, top);
    Log2Unique(Pow2(o), o);
    XorPow2(x, o);
    assert End(m, x) <= Pow2(top);
    BuddyInPool(x, o, top);
    FreeTag(tags, m, top, x, BuddyOf(x, o), o);
  }

  lemma JoinPictures(m: Layout, top: nat, tags: seq<int>, order: seq<int>, flags: seq<int>,
                     lists: seq<seq<nat>>, lists': seq<seq<nat>>, parked: seq<seq<nat>>,
                     active: seq<int>, tainted: set<nat>, x: nat, o: nat)
    requires Pictures(m, top, tags, order, flags, lists, parked, active, tainted, x)
    requires Transit(m, x, o) && o < top && Pow2(top) <= |tags| && o < |lists|
    requires FreeAt(m, BuddyOf(x, o), o) && Removed(lists, lists', o, BuddyOf(x, o))
    ensures var b := BuddyOf(x, o);
            var p := if x < b then x else b;
            && x < |tags| && b < |tags|
            && Transit(Join(m, x, b), p, o + 1)
            && Pictures(Join(m, x, b), top, tags[(if x < b then b else x) := TAG_NONE], order, flags,
                        lists', parked, active, tainted, p)
  {
    hide TagsOk, HeadersOk, ParkedListed, FreeListed, SlotsOk, Dyadic, Canonical, Removed;
    var b: nat := BuddyOf(x, o);
    assert End(m, x) <= Pow2(top) && End(m, b) <= Pow2(top);
    hide Tiles;
    JoinSound(m, x, o, top);
    JoinListed(m, lists, lists', parked, x, b, o);
    JoinTags(tags, m, x, b);
    JoinHeaders(m, x, b, order, flags);
    JoinSlots(m, x, b, active, tainted);
  }

  lemma JoinUndisturbed(m: Layout, top: nat, tags: seq<int>, order: seq<int>, flags: seq<int>,
                        lists: seq<seq<nat>>, parked: seq<seq<nat>>, active: seq<int>, tainted: set<nat>,
                        next: seq<int>, next': seq<int>, back: seq<int>, heads: seq<int>, hole: int)
    requires Pictures(m, top, tags, order, flags, lists, parked, active, tainted, hole)
    requires |next| == |back| && OnlyListed(lists, NIL, next, next') && Chains(next, back, heads, parked)
    ensures Chains(next', back, heads, parked)
  {
    ParkedUndisturbed(m, lists, parked, next, next', back, heads, NIL);
  }

  // ---- stamping a block's tag and header ----

  lemma StampTags(tags: seq<int>, m: Layout, x: nat, o: nat, k: Kind)
    requires TagsOk(tags, m, x) && x in m && m[x].size == Pow2(o) && x < |tags| && InUse(k)
    ensures TagsOk(tags[x := o], Retag(m, x, k), NIL)
  {
    RetagTags(tags, m, x, k);
    Log2Unique(Pow2(o), o);
  }

  lemma StampHeader(m: Layout, x: nat, o: nat, k: Kind, order: seq<int>, flags: seq<int>, s: nat)
    requires |order| == |flags| && s in m && x in m && s != x && HeaderAt(m, order, flags, s)
    requires End(m, s) <= x || x + Pow2(o) <= s
    requires x + Pow2(o) <= |order|
    ensures HeaderAt(Retag(m, x, k), order[x + Pow2(o) - 1 := o], flags[x + Pow2(o) - 1 := FlagOf(k)], s)
  {
  }

  ghost predicate Apart(m: Layout, x: nat, z: nat)
  {
    forall s :: s in m && s != x ==> End(m, s) <= x || x + z <= s
  }

  lemma StampHeaders(m: Layout, x: nat, o: nat, k: Kind, order: seq<int>, flags: seq<int>)
    requires Apart(m, x, Pow2(o)) && HeadersOk(m, order, flags, x)
    requires x in m && m[x].size == Pow2(o) && x + Pow2(o) <= |order| && InUse(k)
    ensures HeadersOk(Retag(m, x, k), order[x + Pow2(o) - 1 := o], flags[x + Pow2(o) - 1 := FlagOf(k)], NIL)
  {
    var n, e := Retag(m, x, k), x + Pow2(o) - 1;
    Log2Unique(Pow2(o), o);
    forall s | s in n && InUse(n[s].kind)
      ensures HeaderAt(n, order[e := o], flags[e := FlagOf(k)], s)
    {
      if s != x {
        StampHeader(m, x, o, k, order, flags, s);
      }
    }
  }

  lemma StampLists(m: Layout, x: nat, k: Kind, lists: seq<seq<nat>>, parked: seq<seq<nat>>)
    requires FreeListed(m, lists) && ParkedListed(m, parked)
    requires x in m && InUse(m[x].kind) && InUse(k)
    ensures FreeListed(Retag(m, x, k), lists) && ParkedListed(Retag(m, x, k), parked)
  {
    var n := Retag(m, x, k);
    assert forall s: nat, o: nat :: FreeAt(n, s, o) <==> FreeAt(m, s, o);
  }

  lemma RetagUsedSound(m: Layout, x: nat, k: Kind, top: nat)
    requires Sound(m, top) && x in m && !m[x].kind.Free? && !k.Free?
    ensures Sound(Retag(m, x, k), top)
  {
    var n := Retag(m, x, k);
    RetagTiles(m, x, k, 0, Pow2(top));
    forall t | t in n
      ensures DyadicBlock(n[t], t, top)
    {
      assert DyadicBlock(m[t], t, top);
    }
    forall t: nat, q: nat | q < top && t in n
      ensures Lonely(n, t, q)
    {
      assert Lonely(m, t, q);
    }
  }

  /** The block in transit settles in state k with its tag and tail header written. */
  lemma StampPictures(m: Layout, top: nat, tags: seq<int>, order: seq<int>, flags: seq<int>,
                      lists: seq<seq<nat>>, parked: seq<seq<nat>>, active: seq<int>, active': seq<int>,
                      tainted: set<nat>, x: nat, o: nat, k: Kind)
    requires Pictures(m, top, tags, order, flags, lists, parked, active, tainted, x)
    requires x in m && m[x].size == Pow2(o) && InUse(m[x].kind) && InUse(k)
    requires Pow2(top) <= |tags| == |order|
    requires SlotsOk(Retag(m, x, k), active', tainted)
    ensures x < |tags| && x + Pow2(o) <= Pow2(top)
    ensures Pictures(Retag(m, x, k), top, tags[x := o], order[x + Pow2(o) - 1 := o],
                     flags[x + Pow2(o) - 1 := FlagOf(k)], lists, parked, active', tainted, NIL)
  {
    hide TagsOk, HeadersOk, ParkedListed, FreeListed, SlotsOk, Dyadic, Canonical, Pow2;
    assert End(m, x) <= Pow2(top);
    assert Apart(m, x, Pow2(o)) by {
      forall s | s in m && s != x
        ensures End(m, s) <= x || x + Pow2(o) <= s
      {
        Disjoint(m, top, s, x);
      }
    }
    hide Tiles, Apart;
    RetagUsedSound(m, x, k, top);
    StampTags(tags, m, x, o, k);
    StampHeaders(m, x, o, k, order, flags);
    StampLists(m, x, k, lists, parked);
  }

  // ---- leaving the in-use state, parking and unparking ----

  /** A block in use is taken into transit on its way out; its slot, if it had one, is already cleared. */
  lemma ReleasePictures(m: Layout, top: nat, tags: seq<int>, order: seq<int>, flags: seq<int>,
                        lists: seq<seq<nat>>, parked: seq<seq<nat>>, active: seq<int>, active': seq<int>,
                        tainted: set<nat>, tainted': set<nat>, x: nat, k: Kind)
    requires Pictures(m, top, tags, order, flags, lists, parked, active, tainted, NIL)
    requires x in m && InUse(m[x].kind) && InUse(k)
    requires SlotsOk(Retag(m, x, k), active', tainted')
    ensures Pictures(Retag(m, x, k), top, tags, order, flags, lists, parked, active', tainted', x)
  {
    hide SlotsOk, Dyadic, Canonical, Tiles;
    RetagUsedSound(m, x, k, top);
    StampLists(m, x, k, lists, parked);
    RetagPictures(m, x, k, order, flags, parked);
    TakeTags(tags, m, x, k);
  }

  lemma ParkListed(m: Layout, lists: seq<seq<nat>>, parked: seq<seq<nat>>, x: nat, o: nat)
    requires FreeListed(m, lists) && ParkedListed(m, parked) && Transit(m, x, o) && o < |parked|
    ensures FreeListed(Retag(m, x, Parked), lists)
    ensures ParkedListed(Retag(m, x, Parked), parked[o := [x] + parked[o]])
  {
    var n, q := Retag(m, x, Parked), parked[o := [x] + parked[o]];
    forall p, s: nat | 0 <= p < |q|
      ensures s in q[p] <==> s in n && n[s] == Seg(Pow2(p), Parked)
    {
      if s == x && n[x] == Seg(Pow2(p), Parked) {
        Pow2Injective(p, o);
      }
    }
  }

  lemma ParkHeaders(m: Layout, x: nat, order: seq<int>, flags: seq<int>)
    requires HeadersOk(m, order, flags, x) && x in m
    ensures HeadersOk(Retag(m, x, Parked), order, flags, NIL)
  {
    var n := Retag(m, x, Parked);
    forall s | s in n && InUse(n[s].kind)
      ensures HeaderAt(n, order, flags, s)
    {
      assert HeaderAt(m, order, flags, s);
    }
  }

  lemma ParkPictures(m: Layout, top: nat, tags: seq<int>, order: seq<int>, flags: seq<int>,
                     lists: seq<seq<nat>>, parked: seq<seq<nat>>, active: seq<int>, tainted: set<nat>, x: nat, o: nat)
    requires Pictures(m, top, tags, order, flags, lists, parked, active, tainted, x)
    requires Transit(m, x, o) && o < |parked| && Pow2(top) <= |tags|
    ensures x < |tags|
    ensures Pictures(Retag(m, x, Parked), top, tags[x := TAG_NONE], order, flags,
                     lists, parked[o := [x] + parked[o]], active, tainted, NIL)
  {
    hide TagsOk, HeadersOk, ParkedListed, FreeListed, SlotsOk, Dyadic, Canonical;
    assert x < Pow2(top);
    hide Tiles;
    RetagUsedSound(m, x, Parked, top);
    RetagTags(tags, m, x, Parked);
    ParkListed(m, lists, parked, x, o);
    ParkHeaders(m, x, order, flags);
    SlotsFrame(m, Retag(m, x, Parked), active, tainted);
  }

  lemma UnparkListed(m: Layout, lists: seq<seq<nat>>, parked: seq<seq<nat>>, o: nat)
    requires FreeListed(m, lists) && ParkedListed(m, parked)
    requires o < |parked| && parked[o] != [] && NoDup(parked[o])
    requires forall p, q, s :: 0 <= p < |parked| && 0 <= q < |parked| && s in parked[p] && s in parked[q] ==> p == q
    ensures var x := parked[o][0];
            && x in m && m[x] == Seg(Pow2(o), Parked)
            && FreeListed(Retag(m, x, Alloc), lists)
            && ParkedListed(Retag(m, x, Alloc), parked[o := parked[o][1..]])
  {
    var x := parked[o][0];
    assert x in parked[o];
    var n, q := Retag(m, x, Alloc), parked[o := parked[o][1..]];
    forall p, s: nat | 0 <= p < |q|
      ensures s in q[p] <==> s in n && n[s] == Seg(Pow2(p), Parked)
    {
      if p == o {
        assert s in parked[o] <==> s == x || s in parked[o][1..];
      } else {
        assert x !in parked[p];
      }
    }
  }

  lemma UnparkPictures(m: Layout, top: nat, tags: seq<int>, order: seq<int>, flags: seq<int>,
                       lists: seq<seq<nat>>, parked: seq<seq<nat>>, active: seq<int>, tainted: set<nat>,
                       next: seq<int>, back: seq<int>, heads: seq<int>, o: nat)
    requires Pictures(m, top, tags, order, flags, lists, parked, active, tainted, NIL)
    requires Chains(next, back, heads, parked) && o < |parked| && parked[o] != []
    ensures var x := parked[o][0];
            && x in m && m[x] == Seg(Pow2(o), Parked)
            && Pictures(Retag(m, x, Alloc), top, tags, order, flags,
                        lists, parked[o := parked[o][1..]], active, tainted, x)
  {
    hide Sound, TagsOk, HeadersOk, SlotsOk, LinkedAt;
    var x := parked[o][0];
    assert Chain(next, back, heads[o], parked[o]);
    UnparkListed(m, lists, parked, o);
    hide ParkedListed, FreeListed;
    RetagUsedSound(m, x, Alloc, top);
    TakeTags(tags, m, x, Alloc);
    UnparkHeaders(m, x, order, flags);
    SlotsFrame(m, Retag(m, x, Alloc), active, tainted);
  }

  lemma UnparkHeaders(m: Layout, x: nat, order: seq<int>, flags: seq<int>)
    requires HeadersOk(m, order, flags, NIL) && x in m
    ensures HeadersOk(Retag(m, x, Alloc), order, flags, x)
  {
    var n := Retag(m, x, Alloc);
    forall s | s in n && s != x && InUse(n[s].kind)
      ensures HeaderAt(n, order, flags, s)
    {
      assert HeaderAt(m, order, flags, s);
    }
  }

  // ---- slots ----

  /** Clearing the first ring entry that names s. */
  function ClearSlot(active: seq<int>, o: nat, s: nat): seq<int>
    requires 2 * o + 1 < |active|
  {
    if active[2 * o] == s then active[2 * o := NIL]
    else if active[2 * o + 1] == s then active[2 * o + 1 := NIL]
    else active
  }

  /** Once its slot is cleared a temporal block may change state. */
  lemma SlotCleared(m: Layout, active: seq<int>, tainted: set<nat>, s: nat, o: nat)
    requires SlotsOk(m, active, tainted) && TemporalAt(m, s, o) && o < ORDERS
    ensures SlotsOk(Retag(m, s, Alloc), ClearSlot(active, o, s), tainted)
  {
    var n, active' := Retag(m, s, Alloc), ClearSlot(active, o, s);
    forall q: nat | q < ORDERS
      ensures EntriesOk(n, active'[2 * q], active'[2 * q + 1], q, q in tainted)
    {
      assert EntriesOk(m, active[2 * q], active[2 * q + 1], q, q in tainted);
      if q != o && TemporalAt(m, s, q) {
        Pow2Injective(q, o);
      }
      assert forall t: nat :: TemporalAt(n, t, q) ==> TemporalAt(m, t, q);
    }
  }

  /** A block that becomes the temporal block of an order without one is entered in the ring. */
  lemma SlotSet(m: Layout, active: seq<int>, tainted: set<nat>, s: nat, o: nat, r: nat)
    requires SlotsOk(m, active, tainted) && Transit(m, s, o) && o < ORDERS && r < 2
    requires active[2 * o] == NIL && active[2 * o + 1] == NIL
    ensures SlotsOk(Retag(m, s, Temporal), active[2 * o + r := s], tainted)
  {
    var n, active' := Retag(m, s, Temporal), active[2 * o + r := s];
    forall q: nat | q < ORDERS
      ensures EntriesOk(n, active'[2 * q], active'[2 * q + 1], q, q in tainted)
    {
      assert EntriesOk(m, active[2 * q], active[2 * q + 1], q, q in tainted);
      if TemporalAt(n, s, q) {
        Pow2Injective(q, o);
      }
      assert forall t: nat :: t != s && TemporalAt(n, t, q) ==> TemporalAt(m, t, q);
    }
  }

  /** Tombstoning a temporal block leaves its slot behind: the order is tainted. */
  lemma SlotTainted(m: Layout, active: seq<int>, tainted: set<nat>, s: nat, o: nat)
    requires SlotsOk(m, active, tainted) && s in m && m[s].size == Pow2(o)
    requires InUse(m[s].kind)
    ensures SlotsOk(Retag(m, s, Tombstoned), active, if m[s].kind.Temporal? then tainted + {o} else tainted)
  {
    var n, tainted' := Retag(m, s, Tombstoned), if m[s].kind.Temporal? then tainted + {o} else tainted;
    forall q: nat | q < ORDERS
      ensures EntriesOk(n, active[2 * q], active[2 * q + 1], q, q in tainted')
    {
      assert EntriesOk(m, active[2 * q], active[2 * q + 1], q, q in tainted);
      if TemporalAt(m, s, q) {
        Pow2Injective(q, o);
      }
      assert forall t: nat :: TemporalAt(n, t, q) ==> TemporalAt(m, t, q);
    }
  }

  /** The ring after a block is granted: unchanged, or naming the new temporal block at `slot`. */
  function GrantedSlots(active: seq<int>, slot: int, blk: nat): seq<int>
    requires slot == NIL || 0 <= slot < |active|
  {
    if slot == NIL then active else active[slot := blk]
  }

  ghost predicate SlotFor(active: seq<int>, slot: int, o: nat, k: Kind)
  {
    && |active| == 2 * ORDERS && o < ORDERS
    && if k.Temporal? then 2 * o <= slot <= 2 * o + 1 && active[2 * o] == NIL && active[2 * o + 1] == NIL
       else slot == NIL
  }

  lemma GrantSlots(m: Layout, active: seq<int>, tainted: set<nat>, blk: nat, o: nat, k: Kind, slot: int)
    requires SlotsOk(m, active, tainted) && Transit(m, blk, o)
    requires SlotFor(active, slot, o, k) && (k.Alloc? || k.Temporal?)
    ensures SlotsOk(Retag(m, blk, k), GrantedSlots(active, slot, blk), tainted)
  {
    if k.Temporal? {
      SlotSet(m, active, tainted, blk, o, slot - 2 * o);
    } else {
      SlotsFrame(m, Retag(m, blk, k), active, tainted);
    }
  }

  // ---- reading a block's tag and header ----

  ghost predicate UsedAt(m: Layout, s: nat, o: nat)
  {
    s in m && InUse(m[s].kind) && m[s].size == Pow2(o)
  }

  /** The tag alone decides whether a block in use starts at s. */
  lemma ReadTag(m: Layout, top: nat, tags: seq<int>, order: seq<int>, flags: seq<int>,
                lists: seq<seq<nat>>, parked: seq<seq<nat>>, active: seq<int>, tainted: set<nat>, s: nat)
    requires Pictures(m, top, tags, order, flags, lists, parked, active, tainted, NIL)
    requires top < ORDERS && s < |tags|
    ensures 0 <= tags[s] <= TAG_NONE
    ensures tags[s] < TAG_FREE && tags[s] <= top <==> s in m && InUse(m[s].kind)
    ensures s in m && InUse(m[s].kind) ==> UsedAt(m, s, tags[s])
  {
    UsedTag(tags, m, top, NIL, s);
  }

  lemma ReadHeader(m: Layout, top: nat, tags: seq<int>, order: seq<int>, flags: seq<int>,
                   lists: seq<seq<nat>>, parked: seq<seq<nat>>, active: seq<int>, tainted: set<nat>, s: nat, o: nat)
    requires Pictures(m, top, tags, order, flags, lists, parked, active, tainted, NIL)
    requires UsedAt(m, s, o) && Pow2(top) <= |order|
    ensures s + Pow2(o) <= Pow2(top) && |flags| == |order|
    ensures order[s + Pow2(o) - 1] == o && flags[s + Pow2(o) - 1] == FlagOf(m[s].kind)
  {
    hide Sound, SlotsOk, FreeListed, ParkedListed, TagsOk, HeaderAt;
    assert HeaderAt(m, order, flags, s);
    InsidePool(m, top, s);
    HeaderValue(m, order, flags, s, o);
  }

  lemma HeaderValue(m: Layout, order: seq<int>, flags: seq<int>, s: nat, o: nat)
    requires UsedAt(m, s, o) && |order| == |flags| && HeaderAt(m, order, flags, s) && s + Pow2(o) <= |order|
    ensures order[s + Pow2(o) - 1] == o && flags[s + Pow2(o) - 1] == FlagOf(m[s].kind)
  {
    hide Pow2, Log2;
    Log2OfPow2(o);
  }

  lemma InsidePool(m: Layout, top: nat, s: nat)
    requires Sound(m, top) && s in m
    ensures s < End(m, s) <= Pow2(top)
  {
  }

  /** A freed temporal block continues as an ordinary one. */
  function OutKind(k: Kind): Kind
  {
    if k.Temporal? then Alloc else k
  }

  lemma ReleaseSlots(m: Layout, active: seq<int>, tainted: set<nat>, s: nat, o: nat)
    requires SlotsOk(m, active, tainted) && UsedAt(m, s, o) && o < ORDERS
    ensures SlotsOk(Retag(m, s, OutKind(m[s].kind)),
                    if m[s].kind.Temporal? then ClearSlot(active, o, s) else active, tainted)
  {
    if m[s].kind.Temporal? {
      SlotCleared(m, active, tainted, s, o);
    } else {
      assert Retag(m, s, m[s].kind) == m;
    }
  }

  /** No list node lies inside a block in use, so clients cannot reach a link through their own block. */
  lemma InsideUnlisted(m: Layout, top: nat, lists: seq<seq<nat>>, parked: seq<seq<nat>>, s: nat, u: nat)
    requires Sound(m, top) && FreeListed(m, lists) && ParkedListed(m, parked)
    requires s in m && InUse(m[s].kind) && s <= u < End(m, s)
    ensures !Listed(lists, u) && !Listed(parked, u)
  {
    if u in m && u != s {
      Disjoint(m, top, s, u);
    }
    FreeNotListed(m, lists, u);
    ParkedNotListed(m, parked, u);
  }

  lemma OnlyTemporal(m: Layout, active: seq<int>, tainted: set<nat>, s: nat, o: nat, r: nat)
    requires SlotsOk(m, active, tainted) && TemporalAt(m, s, o) && o < ORDERS && r <= 1
    ensures (if active[2 * o + r] != NIL then active[2 * o + r] else active[2 * o + (1 - r)]) == s
  {
    assert EntriesOk(m, active[2 * o], active[2 * o + 1], o, o in tainted);
  }

  lemma TombstonePictures(m: Layout, top: nat, tags: seq<int>, order: seq<int>, flags: seq<int>,
                          lists: seq<seq<nat>>, parked: seq<seq<nat>>, active: seq<int>, tainted: set<nat>, s: nat, o: nat)
    requires Pictures(m, top, tags, order, flags, lists, parked, active, tainted, NIL)
    requires UsedAt(m, s, o) && top < ORDERS && Pow2(top) <= |tags| == |order|
    ensures s + Pow2(o) <= |flags|
    ensures Pictures(Retag(m, s, Tombstoned), top, tags, order, flags[s + Pow2(o) - 1 := FLAG_TOMBSTONE],
                     lists, parked, active, if m[s].kind.Temporal? then tainted + {o} else tainted, NIL)
  {
    hide Sound, TagsOk, HeadersOk, ParkedListed, FreeListed, SlotsOk;
    var tainted' := if m[s].kind.Temporal? then tainted + {o} else tainted;
    var n := Retag(m, s, Tombstoned);
    InsidePool(m, top, s);
    ReadTag(m, top, tags, order, flags, lists, parked, active, tainted, s);
    ReadHeader(m, top, tags, order, flags, lists, parked, active, tainted, s, o);
    Pow2Injective(tags[s], o);
    SlotTainted(m, active, tainted, s, o);
    ReleasePictures(m, top, tags, order, flags, lists, parked, active, active, tainted, tainted', s, Tombstoned);
    assert Retag(n, s, Tombstoned) == n;
    StampPictures(n, top, tags, order, flags, lists, parked, active, active, tainted', s, o, Tombstoned);
    assert tags[s := o] == tags;
    assert order[s + Pow2(o) - 1 := o] == order;
  }

  // ---- a fresh pool ----

  function FreshHeads(top: nat): (h: seq<int>)
    requires top < ORDERS
    ensures |h| == ORDERS
  {
    Filled(ORDERS, NIL)[top := 0]
  }

  ghost function FreshLists(top: nat): (l: seq<seq<nat>>)
    requires top < ORDERS
    ensures |l| == ORDERS
  {
    NoLists()[top := [0]]
  }

  function NoHeads(): (h: seq<int>)
    ensures |h| == ORDERS
  {
    Filled(ORDERS, NIL)
  }

  ghost function NoLists(): (l: seq<seq<nat>>)
    ensures |l| == ORDERS && forall o :: 0 <= o < ORDERS ==> l[o] == []
  {
    seq(ORDERS, _ => [])
  }

  lemma InitialPictures(top: nat, units: nat, order: seq<int>, flags: seq<int>)
    requires units > 0 && |order| == |flags| && top < ORDERS
    ensures Pictures(map[0 := FreeSeg(top)], top, Filled(units, TAG_NONE)[0 := TAG_FREE + top], order, flags,
                     FreshLists(top), NoLists(), Filled(2 * ORDERS, NIL), {}, NIL)
  {
    var m: Layout := map[0 := FreeSeg(top)];
    InitialSound(top);
    Log2OfPow2(top);
    var lists := FreshLists(top);
    var active := Filled(2 * ORDERS, NIL);
    forall o, s: nat | 0 <= o < |lists|
      ensures s in lists[o] <==> FreeAt(m, s, o)
    {
      if FreeAt(m, s, o) {
        Pow2Injective(o, top);
      }
    }
    assert forall o: nat :: o < ORDERS ==> EntriesOk(m, active[2 * o], active[2 * o + 1], o, false);
  }

  lemma InitialMask(top: nat)
    requires top < ORDERS && Fits(0, ORDERS)
    ensures MaskOk(Set(0, top, ORDERS), FreshLists(top))
  {
    var lists := FreshLists(top);
    var mask := Set(0, top, ORDERS);
    forall o | 0 <= o < ORDERS
      ensures BitAt(mask, o) <==> lists[o] != []
    {
      ZeroBit(o);
    }
  }

  lemma InitialChains(next: seq<int>, prev: seq<int>, back: seq<int>, top: nat)
    requires |next| > 0 && |prev| > 0 && next[0] == NIL && top < ORDERS
    ensures Chains(next, prev, FreshHeads(top), FreshLists(top))
    ensures Chains(next, back, NoHeads(), NoLists())
  {
    ChainsSingle(next, prev, FreshHeads(top), FreshLists(top), top);
    ChainsEmpty(next, back, NoHeads(), NoLists());
  }
}
