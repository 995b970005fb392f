/**
 Carving sheets out of one address-space reservation: a list of returned runs, best fit first, and a
 bump cursor. Runs count granules. In the ghost layout a free piece is listed, an allocated one is
 granted, and a tombstoned one is leaked.
 */
module VaReserve {
  import opened Tiling

  const GRANULE: nat := 0x20_0000
  const U32_RANGE: nat := 0x1_0000_0000
  const U64_RANGE: nat := 0x1_0000_0000_0000_0000
  const U64_GRANULES: nat := 0x800_0000_0000      // granules whose bytes are a whole turn of the 64-bit word
  const NONE: int := -1

  /** Largest request whose granule count fits the 32-bit word it is kept in. */
  const CARVE_LIMIT: nat := 0x1F_FFFF_FFE0_0000

  datatype Run = Run(off: nat, granules: nat)

  /** Granules of a request of `bytes`, rounded up. */
  function Granules(bytes: nat): nat
  {
    (bytes + (GRANULE - 1)) / GRANULE
  }

  /** The same sum in a 64-bit word. */
  function Rounded(bytes: nat): nat
  {
    (bytes + (GRANULE - 1)) % U64_RANGE / GRANULE
  }

  /** The 32-bit count the list is searched for. */
  function Want(bytes: nat): nat
  {
    Rounded(bytes) % U32_RANGE
  }

  /** The 32-bit count is the real one for exactly the requests up to the limit. */
  lemma WantExact(bytes: nat)
    requires bytes < U64_RANGE
    ensures Want(bytes) == Granules(bytes) <==> bytes <= CARVE_LIMIT
    ensures Rounded(bytes) == Granules(bytes) <==> bytes <= U64_RANGE - GRANULE
    ensures bytes > U64_RANGE - GRANULE ==> Rounded(bytes) == 0
    ensures Rounded(bytes) < U64_GRANULES && Want(bytes) <= Rounded(bytes) <= Granules(bytes)
  {
    if bytes <= U64_RANGE - GRANULE {
      assert bytes + (GRANULE - 1) < U64_RANGE;
    } else {
      assert (bytes + (GRANULE - 1)) % U64_RANGE == bytes + (GRANULE - 1) - U64_RANGE;
    }
  }

  /** The pieces below the cursor, end to end; nothing if the cursor has not moved. */
  ghost predicate Pieces(m: Layout, cursor: nat)
  {
    && (if cursor == 0 then m == map[] else Tiles(m, 0, cursor))
    && forall s :: s in m ==> m[s].kind.Free? || m[s].kind.Alloc? || m[s].kind.Tombstoned?
  }

  ghost predicate DistinctOffs(runs: seq<Run>)
  {
    forall i, j :: 0 <= i < j < |runs| ==> runs[i].off != runs[j].off
  }

  predicate FreePiece(m: Layout, r: Run)
  {
    r.off in m && m[r.off] == Seg(r.granules, Free)
  }

  /** The list holds exactly the free pieces, each once. */
  ghost predicate Listed(m: Layout, runs: seq<Run>)
  {
    && DistinctOffs(runs)
    && (forall i :: 0 <= i < |runs| ==> FreePiece(m, runs[i]))
    && forall r: Run :: FreePiece(m, r) ==> r in runs
  }

  // ---- how the pieces move ----

  lemma ReplaceListed(m: Layout, n: Layout, runs: seq<Run>, i: nat, r: Run)
    requires Listed(m, runs) && i < |runs| && r.off !in m && FreePiece(n, r)
    requires forall s: nat :: s != runs[i].off && s != r.off ==> (s in n <==> s in m)
    requires forall s: nat :: s != runs[i].off && s != r.off && s in m ==> n[s] == m[s]
    requires runs[i].off in n ==> !n[runs[i].off].kind.Free?
    ensures Listed(n, runs[i := r])
  {
    var runs' := runs[i := r];
    assert FreePiece(m, runs[i]);
    forall j | 0 <= j < |runs'|
      ensures FreePiece(n, runs'[j])
    {
      assert FreePiece(m, runs[j]);
    }
    forall q: Run | FreePiece(n, q)
      ensures q in runs'
    {
      if q.off == r.off {
        assert runs'[i] == q;
      } else {
        assert FreePiece(m, q) && q in runs;
        var j :| 0 <= j < |runs| && runs[j] == q;
        assert runs'[j] == q;
      }
    }
    forall a, b | 0 <= a < b < |runs'|
      ensures runs'[a].off != runs'[b].off
    {
      assert FreePiece(m, runs[a]) && FreePiece(m, runs[b]);
    }
  }

  /** A listed run is handed out from its front; the rest keeps its place in the list. */
  lemma CutFront(m: Layout, cursor: nat, runs: seq<Run>, i: nat, want: nat)
    requires Pieces(m, cursor) && Listed(m, runs) && i < |runs| && 0 < want < runs[i].granules
    ensures var r := runs[i];
            && r.off in m && want <= m[r.off].size && r.off + want !in m
            && var n := SplitAt(Retag(m, r.off, Alloc), r.off, want);
            && Pieces(n, cursor) && Listed(n, runs[i := Run(r.off + want, r.granules - want)])
  {
    var r := runs[i];
    assert FreePiece(m, r);
    hide Listed;
    CutPieces(m, cursor, r.off, want);
    hide Pieces;
    ReplaceListed(m, SplitAt(Retag(m, r.off, Alloc), r.off, want), runs, i, Run(r.off + want, r.granules - want));
  }

  lemma CutPieces(m: Layout, cursor: nat, off: nat, want: nat)
    requires Pieces(m, cursor) && off in m && 0 < want < m[off].size
    ensures off + want !in m && Pieces(SplitAt(Retag(m, off, Alloc), off, want), cursor)
  {
    var t := Retag(m, off, Alloc);
    RetagTiles(m, off, Alloc, 0, cursor);
    SplitTiles(t, off, want, 0, cursor);
    hide Tiles;
  }

  function SwapRemove(runs: seq<Run>, i: nat): seq<Run>
    requires i < |runs|
  {
    runs[i := runs[|runs| - 1]][..|runs| - 1]
  }

  lemma SwapRemoved(runs: seq<Run>, i: nat)
    requires i < |runs| && DistinctOffs(runs)
    ensures DistinctOffs(SwapRemove(runs, i))
    ensures forall q: Run :: q in SwapRemove(runs, i) <==> q in runs && q != runs[i]
  {
    var s := SwapRemove(runs, i);
    forall q: Run | q in runs && q != runs[i]
      ensures q in s
    {
      var j :| 0 <= j < |runs| && runs[j] == q;
      assert s[if j == |runs| - 1 then i else j] == q;
    }
    forall q: Run | q in s
      ensures q in runs && q != runs[i]
    {
      var j :| 0 <= j < |s| && s[j] == q;
    }
  }

  /** A run of exactly the wanted length leaves the list. */
  lemma TakeWhole(m: Layout, cursor: nat, runs: seq<Run>, i: nat, k: Kind)
    requires Pieces(m, cursor) && Listed(m, runs) && i < |runs| && (k.Alloc? || k.Tombstoned?)
    ensures runs[i].off in m
    ensures Pieces(Retag(m, runs[i].off, k), cursor) && Listed(Retag(m, runs[i].off, k), SwapRemove(runs, i))
  {
    var r := runs[i];
    assert FreePiece(m, r);
    var n, runs' := Retag(m, r.off, k), SwapRemove(runs, i);
    RetagTiles(m, r.off, k, 0, cursor);
    SwapRemoved(runs, i);
    hide Tiles, SwapRemove;
    forall j | 0 <= j < |runs'|
      ensures FreePiece(n, runs'[j])
    {
      assert runs'[j] in runs';
      var l :| 0 <= l < |runs| && runs[l] == runs'[j];
      assert FreePiece(m, runs[l]);
      assert l != i;
    }
    forall q: Run | FreePiece(n, q)
      ensures q in runs'
    {
      assert FreePiece(m, q) && q in runs;
    }
  }

  /** The cursor moves past a new piece. */
  lemma Bumped(m: Layout, cursor: nat, runs: seq<Run>, n: nat, k: Kind)
    requires Pieces(m, cursor) && Listed(m, runs) && n > 0 && (k.Alloc? || k.Tombstoned?)
    ensures cursor !in m
    ensures Pieces(m[cursor := Seg(n, k)], cursor + n) && Listed(m[cursor := Seg(n, k)], runs)
  {
    var m' := m[cursor := Seg(n, k)];
    AppendTiles(m, cursor, n, k);
    hide Tiles;
    forall i | 0 <= i < |runs|
      ensures FreePiece(m', runs[i])
    {
      assert FreePiece(m, runs[i]);
    }
    assert forall q: Run :: FreePiece(m', q) ==> FreePiece(m, q);
  }

  lemma AppendTiles(m: Layout, cursor: nat, n: nat, k: Kind)
    requires (if cursor == 0 then m == map[] else Tiles(m, 0, cursor)) && n > 0
    ensures cursor !in m && Tiles(m[cursor := Seg(n, k)], 0, cursor + n)
  {
    var m' := m[cursor := Seg(n, k)];
    if cursor > 0 {
      forall s | s in m
        ensures s != cursor && End(m', s) == End(m, s) <= cursor && Linked(m', s, cursor + n)
      {
        assert Linked(m, s, cursor);
      }
    }
    assert Linked(m', cursor, cursor + n);
    hide Linked;
    assert forall s :: s in m' ==> s == cursor || s in m;
  }

  /** A granted run comes back and is listed. */
  lemma Returned(m: Layout, cursor: nat, runs: seq<Run>, r: Run)
    requires Pieces(m, cursor) && Listed(m, runs) && r.off in m && m[r.off] == Seg(r.granules, Alloc)
    ensures Pieces(Retag(m, r.off, Free), cursor) && Listed(Retag(m, r.off, Free), runs + [r])
  {
    var n, runs' := Retag(m, r.off, Free), runs + [r];
    RetagTiles(m, r.off, Free, 0, cursor);
    hide Tiles;
    forall i | 0 <= i < |runs'|
      ensures FreePiece(n, runs'[i])
    {
      assert i < |runs| ==> FreePiece(m, runs[i]);
    }
    forall q: Run | FreePiece(n, q)
      ensures q in runs'
    {
      if q.off != r.off {
        assert FreePiece(m, q);
      } else {
        assert runs'[|runs|] == q;
      }
    }
    forall a, b | 0 <= a < b < |runs'|
      ensures runs'[a].off != runs'[b].off
    {
      assert FreePiece(m, runs[a]);
    }
  }

  /** A granted run is lost: its commit failed, or the list had no room. */
  lemma Lost(m: Layout, cursor: nat, runs: seq<Run>, s: nat)
    requires Pieces(m, cursor) && Listed(m, runs) && s in m && m[s].kind.Alloc?
    ensures Pieces(Retag(m, s, Tombstoned), cursor) && Listed(Retag(m, s, Tombstoned), runs)
  {
    var n := Retag(m, s, Tombstoned);
    RetagTiles(m, s, Tombstoned, 0, cursor);
    hide Tiles;
    forall i | 0 <= i < |runs|
      ensures FreePiece(n, runs[i])
    {
      assert FreePiece(m, runs[i]);
    }
    assert forall q: Run :: FreePiece(n, q) ==> FreePiece(m, q);
  }

  // ---- capacity ----

  lemma {:induction false} PiecesFit(m: Layout, lo: nat, hi: nat)
    requires Tiles(m, lo, hi)
    ensures |m| <= hi - lo
    decreases hi - lo
  {
    RestTiles(m, lo, hi);
    assert lo in m;
    hide Tiles;
    var rest := m - {lo};
    assert rest.Keys == m.Keys - {lo};
    assert |rest.Keys| == |m.Keys| - 1;
    if End(m, lo) < hi {
      PiecesFit(rest, End(m, lo), hi);
    }
  }

  lemma {:induction false} OffsDistinct(runs: seq<Run>) returns (offs: set<nat>)
    requires DistinctOffs(runs)
    ensures |offs| == |runs| && forall s :: s in offs <==> exists i :: 0 <= i < |runs| && runs[i].off == s
    decreases |runs|
  {
    if runs == [] {
      offs := {};
    } else {
      var rest := runs[..|runs| - 1];
      var o := OffsDistinct(rest);
      offs := o + {runs[|runs| - 1].off};
    }
  }

  /** Pigeonhole: while some run is granted, the list is shorter than the cursor. */
  lemma ListBelowCursor(m: Layout, cursor: nat, runs: seq<Run>, s: nat)
    requires Pieces(m, cursor) && Listed(m, runs) && s in m && m[s].kind.Alloc?
    ensures |runs| < cursor
  {
    PiecesFit(m, 0, cursor);
    var offs := OffsDistinct(runs);
    forall o | o in offs
      ensures o in m && o != s
    {
      var i :| 0 <= i < |runs| && runs[i].off == o;
      assert FreePiece(m, runs[i]);
    }
    Subset(offs + {s}, m.Keys);
    assert |offs + {s}| == |offs| + 1;
  }

  lemma {:induction false} Subset(a: set<nat>, b: set<nat>)
    requires a <= b
    ensures |a| <= |b|
    decreases |a|
  {
    if x :| x in a {
      Subset(a - {x}, b - {x});
    }
  }

  lemma Sized(m: Layout, cursor: nat, s: nat)
    requires Pieces(m, cursor) && s in m
    ensures m[s].size > 0
  {
    assert Linked(m, s, cursor);
  }

  /** Where the 64-bit sum of bytes wraps. */
  lemma EndWraps(cursor: nat, n: nat)
    requires cursor < U64_GRANULES && n < U64_GRANULES
    ensures (GRANULE * cursor + GRANULE * n) % U64_RANGE
         == GRANULE * (if cursor + n < U64_GRANULES then cursor + n else cursor + n - U64_GRANULES)
  {
    var sum := GRANULE * cursor + GRANULE * n;
    if cursor + n >= U64_GRANULES {
      assert sum % U64_RANGE == sum - U64_RANGE;
    }
  }

  /** With its cursor set back, a reserve has pieces beyond it. */
  lemma SetBack(m: Layout, cursor: nat, back: nat)
    requires Pieces(m, cursor) && back < cursor
    ensures !Pieces(m, back)
  {
    var s := Owner(m, 0, cursor, cursor - 1);
    assert End(m, s) > back;
    assert !Linked(m, s, back);
  }

  // ---- the reserve ----

  datatype Grant = Failed | Granted(slot: nat)

  class Reserve {
    const base: nat        // address of the reservation
    const total: nat       // granules in the reservation
    const runs: array<Run>
    var count: nat
    var cursor: nat        // granules handed out past the list

    ghost var layout: Layout

    ghost predicate Valid()
      reads this, runs
    {
      && base > 0 && count <= runs.Length && cursor <= total < U64_GRANULES
      && Pieces(layout, cursor) && Listed(layout, runs[..count])
    }

    /** `cap` is the room in the list: one entry per granule on 64-bit machines. */
    constructor (base: nat, total: nat, cap: nat)
      requires base > 0 && total < U64_GRANULES
      ensures Valid() && this.base == base && this.total == total && runs.Length == cap
      ensures layout == map[] && cursor == 0 && count == 0 && fresh(runs)
    {
      this.base, this.total := base, total;
      runs := new Run[cap](_ => Run(0, 0));
      count, cursor := 0, 0;
      layout := map[];
    }

    function Slot(off: nat): nat
    {
      base + GRANULE * off
    }

    /** The index of the shortest listed run that is long enough, from the back; an exact fit ends the search. */
    method BestFit(want: nat) returns (best: int)
      requires count <= runs.Length
      ensures best == NONE <==> forall j :: 0 <= j < count ==> runs[j].granules < want
      ensures best != NONE ==> 0 <= best < count && runs[best].granules >= want
      ensures best != NONE ==> forall j :: 0 <= j < count && runs[j].granules >= want ==> runs[best].granules <= runs[j].granules
    {
      best := NONE;
      var i := count;
      while i > 0
        invariant 0 <= i <= count
        invariant best == NONE ==> forall j :: i <= j < count ==> runs[j].granules < want
        invariant best != NONE ==> i <= best < count && runs[best].granules >= want
        invariant best != NONE ==> forall j :: i <= j < count && runs[j].granules >= want ==> runs[best].granules <= runs[j].granules
      {
        i := i - 1;
        var g := runs[i].granules;
        if g >= want {
          if best == NONE || g < runs[best].granules {
            best := i;
          }
          if g == want {
            break;
          }
        }
      }
    }

    /** Best fit: the shortest listed run that is long enough, cut at its front. A run cut for nothing stays. */
    method Reuse(want: nat) returns (off: int)
      requires Valid()
      modifies this`count, this`layout, runs
      ensures Valid()
      ensures off == NONE <==> forall s: nat :: s in old(layout) && old(layout)[s].kind.Free? ==> old(layout)[s].size < want
      ensures off == NONE || want == 0 ==> layout == old(layout)
      ensures off != NONE ==> 0 <= off && off in old(layout) && old(layout)[off].kind.Free?
      ensures off != NONE && want > 0 ==> Reused(old(layout), layout, off, want)
    {
      hide Pieces, Listed;
      ghost var rs := runs[..count];
      Fitting(layout, rs, want);
      var best := BestFit(want);
      if best == NONE {
        return NONE;
      }
      var r := runs[best];
      assert rs[best] == r;
      off := r.off;
      if r.granules > want {
        if want > 0 {
          CutFront(layout, cursor, rs, best, want);
          layout := SplitAt(Retag(layout, r.off, Alloc), r.off, want);
        }
        runs[best] := Run(r.off + want, r.granules - want);
        assert runs[..count] == rs[best := Run(r.off + want, r.granules - want)];
      } else {
        Sized(layout, cursor, r.off);
        TakeWhole(layout, cursor, rs, best, Alloc);
        runs[best] := runs[count - 1];
        count := count - 1;
        assert runs[..count] == SwapRemove(rs, best);
        layout := Retag(layout, r.off, Alloc);
      }
    }

    /** What `want` granules cut from the front of the shortest sufficient free piece leave. */
    static ghost predicate Reused(m: Layout, m': Layout, off: nat, want: nat)
    {
      && off in m && m[off].kind.Free? && want <= m[off].size
      && (forall s: nat :: s in m && m[s].kind.Free? && m[s].size >= want ==> m[off].size <= m[s].size)
      && (want < m[off].size ==> off + want !in m)
      && m' == if want < m[off].size then SplitAt(Retag(m, off, Alloc), off, want) else Retag(m, off, Alloc)
    }

    /**
     Take fresh granules past the cursor. The end of the run is a 64-bit sum of bytes. Where it wraps it
     is small, passes the test, and sets the cursor back over runs that are granted.
     */
    method Bump(n: nat) returns (off: int)
      requires Valid() && n < U64_GRANULES
      modifies this`cursor, this`layout
      ensures Valid() <==> old(cursor) + n < U64_GRANULES
      ensures old(cursor) + n >= U64_GRANULES ==>
                off == old(cursor) && cursor == old(cursor) + n - U64_GRANULES < old(cursor) && layout == old(layout)
      ensures off == NONE <==> total < old(cursor) + n < U64_GRANULES
      ensures off == NONE || n == 0 ==> layout == old(layout) && cursor == old(cursor)
      ensures off != NONE ==> off == old(cursor)
      ensures off != NONE && 0 < n < U64_GRANULES - old(cursor) ==>
                cursor == old(cursor) + n && off !in old(layout) && layout == old(layout)[old(cursor) := Seg(n, Alloc)]
    {
      hide Pieces, Listed;
      var end := (GRANULE * cursor + GRANULE * n) % U64_RANGE;
      EndWraps(cursor, n);
      if end > GRANULE * total {
        return NONE;
      }
      off := cursor;
      if cursor + n >= U64_GRANULES {
        SetBack(layout, cursor, cursor + n - U64_GRANULES);
      } else if n > 0 {
        Bumped(layout, cursor, runs[..count], n, Alloc);
        layout := layout[cursor := Seg(n, Alloc)];
      }
      cursor := end / GRANULE;
    }

    /** The kernel refused to back the granted run at off. */
    ghost method Leak(off: nat)
      requires Valid() && off in layout && layout[off].kind.Alloc?
      modifies this`layout
      ensures Valid() && layout == Retag(old(layout), off, Tombstoned)
    {
      hide Pieces, Listed;
      Lost(layout, cursor, runs[..count], off);
      layout := Retag(layout, off, Tombstoned);
    }

    /**
     Carve a run for `bytes`. `backed` and `backedFresh` say whether the kernel commits a reused and
     a fresh run; a run it refuses is never handed out again. It never commits an empty one.
     */
    method Carve(bytes: nat, backed: bool, backedFresh: bool) returns (r: Grant)
      requires Valid() && bytes < U64_RANGE && cursor + Rounded(bytes) < U64_GRANULES
      modifies this`count, this`cursor, this`layout, runs
      ensures Valid()
      ensures Rounded(bytes) == 0 ==> r.Failed? && layout == old(layout) && cursor == old(cursor)
      ensures r.Granted? && (bytes <= CARVE_LIMIT || !backed || !Listable(old(layout), Want(bytes))) ==>
                exists off: nat :: r == Granted(Slot(off)) && NewGrant(old(layout), layout, off, Granules(bytes))
      ensures bytes > CARVE_LIMIT && Rounded(bytes) > 0 && backed && Listable(old(layout), Want(bytes)) ==>
                && Want(bytes) < Granules(bytes)
                && exists off: nat :: r == Granted(Slot(off)) && ShortGrant(old(layout), layout, off, Want(bytes))
      ensures backed && backedFresh && Rounded(bytes) > 0 ==>
                (r.Granted? <==> Listable(old(layout), Want(bytes)) || old(cursor) + Granules(bytes) <= total)
      ensures forall s: nat :: s in old(layout) && !old(layout)[s].kind.Free? ==> s in layout && layout[s] == old(layout)[s]
      ensures Rounded(bytes) > 0 && backed && Listable(old(layout), Want(bytes)) ==>
                FromList(old(layout), layout, r, Want(bytes)) && cursor == old(cursor)
      ensures Rounded(bytes) > 0 && !(backed && Listable(old(layout), Want(bytes))) ==>
                exists m: Layout :: Unbacked(old(layout), m, Want(bytes))
                                    && FromTail(m, layout, r, old(cursor), cursor, Rounded(bytes), backedFresh)
    {
      hide Pieces, Listed, Rounded, Want, Granules, SplitAt, Reused;
      var rounded := Rounded(bytes);
      var want := Want(bytes);
      WantExact(bytes);
      ghost var m := layout;
      var off := Reuse(want);
      if off != NONE {
        if backed && rounded > 0 {
          if want > 0 {
            CutGrants(m, layout, off, want);
          }
          assert ShortGrant(m, layout, off, want);
          assert Cuts(m, layout, off, want);
          return Granted(Slot(off));
        }
        if want > 0 {
          CutGrants(m, layout, off, want);
          Leak(off);
          assert Refused(m, layout, off, want);
        }
      }
      assert Unbacked(m, layout, want);
      off := Bump(rounded);
      if off == NONE {
        return Failed;
      }
      if !backedFresh || rounded == 0 {
        if rounded > 0 {
          Leak(off);
        }
        return Failed;
      }
      assert NewGrant(m, layout, off, rounded);
      return Granted(Slot(off));
    }

    static lemma CutGrants(m: Layout, m': Layout, off: nat, want: nat)
      requires Reused(m, m', off, want) && want > 0
      ensures NewGrant(m, m', off, want) && off in m && m[off].kind.Free? && Listable(m, want)
      ensures forall s: nat :: s in m && !m[s].kind.Free? ==> s in m' && m'[s] == m[s]
    {
    }

    /** A run of the list is cut at off; one cut for nothing stays whole. */
    static ghost predicate Cuts(m: Layout, m': Layout, off: nat, want: nat)
    {
      if want > 0 then Reused(m, m', off, want) else off in m && m[off].kind.Free? && m' == m
    }

    /** The answer is the front of a shortest sufficient listed run; every other free run is as it was. */
    ghost predicate FromList(m: Layout, m': Layout, r: Grant, want: nat)
    {
      exists off: nat :: r == Granted(Slot(off)) && Cuts(m, m', off, want)
    }

    static ghost predicate Refused(m: Layout, m': Layout, off: nat, want: nat)
    {
      exists t: Layout :: Reused(m, t, off, want) && off in t && m' == Retag(t, off, Tombstoned)
    }

    /** What the list's part of a carve leaves if it does not serve: at most one run, which the kernel refused, is lost. */
    static ghost predicate Unbacked(m: Layout, m': Layout, want: nat)
    {
      if want > 0 && Listable(m, want) then exists off: nat :: Refused(m, m', off, want) else m' == m
    }

    /** Fresh granules at the cursor, if they fit; if the kernel refuses them they are lost. */
    ghost predicate FromTail(m: Layout, m': Layout, r: Grant, at: nat, at': nat, n: nat, ok: bool)
    {
      if at + n > total then r == Failed && m' == m && at' == at
      else r == (if ok then Granted(Slot(at)) else Failed) && m' == m[at := Seg(n, if ok then Alloc else Tombstoned)] && at' == at + n
    }

    /** Some listed run is long enough. */
    static ghost predicate Listable(m: Layout, want: nat)
    {
      exists s: nat :: s in m && m[s].kind.Free? && m[s].size >= want
    }

    /** What a request whose 32-bit count is too small is given: so many granules, or a run left free. */
    static ghost predicate ShortGrant(m: Layout, m': Layout, off: nat, want: nat)
    {
      off in m && m[off].kind.Free? && if want > 0 then NewGrant(m, m', off, want) else m' == m
    }

    /** The run at off was not granted before and is now. */
    static ghost predicate NewGrant(m: Layout, m': Layout, off: nat, n: nat)
    {
      (off in m ==> m[off].kind.Free?) && off in m' && m'[off] == Seg(n, Alloc)
    }

    /**
     Give a granted run back. With a list entry per granule there is always room for it. Null and
     addresses outside the reservation are ignored.
     */
    method Release(slot: nat, bytes: nat, ghost off: nat)
      requires Valid() && bytes <= CARVE_LIMIT
      requires Contains(slot) ==> slot == Slot(off) && off in layout && layout[off] == Seg(Granules(bytes), Alloc)
      modifies this`count, this`layout, runs
      ensures Valid()
      ensures !Contains(slot) ==> layout == old(layout)
      ensures Contains(slot) ==> layout == Retag(old(layout), off, if old(count) < runs.Length then Free else Tombstoned)
      ensures Contains(slot) && runs.Length >= total ==> layout == Retag(old(layout), off, Free)
    {
      hide Pieces, Listed;
      if slot < base || slot >= base + GRANULE * total {
        return;
      }
      ListBelowCursor(layout, cursor, runs[..count], off);
      var at := (slot - base) / GRANULE;
      assert at == off;
      var r := Run(at, Want(bytes));
      WantExact(bytes);
      if count < runs.Length {
        Returned(layout, cursor, runs[..count], r);
        ghost var rs := runs[..count];
        runs[count] := r;
        count := count + 1;
        assert runs[..count] == rs + [r];
        layout := Retag(layout, off, Free);
      } else {
        Lost(layout, cursor, runs[..count], off);
        layout := Retag(layout, off, Tombstoned);
      }
    }

    /** The address is inside the reservation. */
    predicate Contains(slot: nat)
    {
      base <= slot < base + GRANULE * total
    }

    /** The slot of a piece is inside the reservation. */
    lemma PieceInside(off: nat)
      requires Valid() && off in layout
      ensures Contains(Slot(off))
    {
      assert Linked(layout, off, cursor);
    }

    /** Granted, listed, leaked and untouched granules make up the reservation. */
    lemma Conserved()
      requires Valid()
      ensures Amount(layout, Alloc) + Amount(layout, Free) + Amount(layout, Tombstoned) + (total - cursor) == total
    {
      hide Listed;
      if cursor == 0 {
        ZeroAmount(layout, Alloc);
        ZeroAmount(layout, Free);
        ZeroAmount(layout, Tombstoned);
      } else {
        TilesTotal(layout, 0, cursor);
        ZeroAmount(layout, Temporal);
        ZeroAmount(layout, Parked);
      }
    }
  }

  /** The listed runs are all there is to search. */
  lemma Fitting(m: Layout, runs: seq<Run>, want: nat)
    requires Listed(m, runs)
    ensures (forall i :: 0 <= i < |runs| ==> runs[i].granules < want)
       <==> (forall s: nat :: s in m && m[s].kind.Free? ==> m[s].size < want)
    ensures forall s: nat :: s in m && m[s].kind.Free? ==> exists i :: 0 <= i < |runs| && runs[i] == Run(s, m[s].size)
    ensures forall i :: 0 <= i < |runs| ==> FreePiece(m, runs[i])
  {
    forall s: nat | s in m && m[s].kind.Free?
      ensures exists i :: 0 <= i < |runs| && runs[i] == Run(s, m[s].size)
    {
      assert FreePiece(m, Run(s, m[s].size));
    }
    forall i | 0 <= i < |runs|
      ensures runs[i].off in m && m[runs[i].off] == Seg(runs[i].granules, Free)
    {
      assert FreePiece(m, runs[i]);
    }
  }

  // ---- what was returned is used again ----

  /** A run that came back serves the next request of its length, and no fresh granule is touched. */
  method ReleaseThenCarve(r: Reserve, slot: nat, bytes: nat, ghost off: nat, backed: bool) returns (g: Grant)
    requires r.Valid() && 0 < bytes <= CARVE_LIMIT && r.cursor + Rounded(bytes) < U64_GRANULES && r.count < r.runs.Length
    requires r.Contains(slot) && slot == r.Slot(off) && off in r.layout && r.layout[off] == Seg(Granules(bytes), Alloc)
    modifies r`count, r`cursor, r`layout, r.runs
    ensures r.Valid() && r.cursor == old(r.cursor)
    ensures exists at: nat :: g == Granted(r.Slot(at)) && Reserve.Reused(Retag(old(r.layout), off, Free), r.layout, at, Granules(bytes))
  {
    hide Pieces, Listed;
    WantExact(bytes);
    r.Release(slot, bytes, off);
    ghost var m := r.layout;
    assert m[off].kind.Free? && Reserve.Listable(m, Want(bytes));
    g := r.Carve(bytes, true, backed);
    ghost var at: nat :| g == Granted(r.Slot(at)) && Reserve.Cuts(m, r.layout, at, Want(bytes));
  }

  // ---- runs that fail past the limits ----

  /** A request just past the 32-bit limit is handed the one granule that is listed. */
  method CarveShort(base: nat) returns (r: Reserve, g: Grant, ghost was: Layout)
    requires base > 0
    ensures fresh(r) && r.Valid() && was == map[0 := Seg(1, Free)]
    ensures Granules(CARVE_LIMIT + 2 * GRANULE) > 1 && g == Granted(r.Slot(0)) && r.ShortGrant(was, r.layout, 0, 1)
  {
    hide Pieces, Listed;
    r := new Reserve(base, 1, 1);
    var off := r.Bump(1);
    assert r.layout == map[0 := Seg(1, Alloc)];
    r.Release(r.Slot(0), GRANULE, 0);
    was := r.layout;
    JustPast();
    assert was[0] == Seg(1, Free) && r.Listable(was, 1);
    g := r.Carve(CARVE_LIMIT + 2 * GRANULE, true, true);
    ghost var at: nat :| g == Granted(r.Slot(at)) && r.ShortGrant(was, r.layout, at, 1);
  }

  lemma JustPast()
    ensures Rounded(CARVE_LIMIT + 2 * GRANULE) == Granules(CARVE_LIMIT + 2 * GRANULE) == U32_RANGE + 1
    ensures Want(CARVE_LIMIT + 2 * GRANULE) == 1
  {
  }

  /** A bump that wraps sets the cursor back to a granule that is granted. */
  method BumpBack(base: nat) returns (r: Reserve)
    requires base > 0
    ensures fresh(r) && !r.Valid() && r.cursor == 0 && 0 in r.layout && r.layout[0] == Seg(1, Alloc)
  {
    r := new Reserve(base, 1, 1);
    var off := r.Bump(1);
    off := r.Bump(U64_GRANULES - 1);
  }
}
