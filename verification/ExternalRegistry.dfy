/** Registered outside ranges, kept in pages of slots with high-water marks: a set of disjoint intervals. */
module ExternalRegistry {

  const ADDRESS_MAX: nat := 0xFFFF_FFFF_FFFF_FFFF

  datatype Provenance = Nothing | Caller | Fixed | Guarded | Huge | Secure | Immutable

  /** A slot; a null base marks it vacant. */
  datatype Range = Range(base: nat, len: nat, provenance: Provenance)

  const VACANT: Range := Range(0, 0, Nothing)

  datatype Page = Page(ranges: seq<Range>, used: nat, highWater: nat)

  /** Acceptable bounds: nonempty, not at null, and ending inside the address space. */
  predicate Bounds(base: nat, len: nat)
  {
    base > 0 && len > 0 && len <= ADDRESS_MAX - base
  }

  predicate Overlap(lo: nat, hi: nat, r: Range)
  {
    r.base != 0 && lo < r.base + r.len && r.base < hi
  }

  function Slot(pages: seq<Page>, p: nat, i: nat): Range
  {
    if p < |pages| && i < |pages[p].ranges| then pages[p].ranges[i] else VACANT
  }

  /** How many slots of a page are taken. */
  function Used(ranges: seq<Range>): nat
  {
    if ranges == [] then 0
    else Used(ranges[..|ranges| - 1]) + (if ranges[|ranges| - 1].base == 0 then 0 else 1)
  }

  predicate PageOk(g: Page)
  {
    && |g.ranges| > 0 && g.highWater <= |g.ranges| && g.used == Used(g.ranges)
    && forall i :: g.highWater <= i < |g.ranges| ==> g.ranges[i].base == 0
  }

  /** Two taken slots are the same slot or hold disjoint ranges. */
  predicate ApartAt(pages: seq<Page>, p: nat, i: nat, q: nat, j: nat)
  {
    Slot(pages, p, i).base != 0 && (p, i) != (q, j) ==>
      !Overlap(Slot(pages, p, i).base, Slot(pages, p, i).base + Slot(pages, p, i).len, Slot(pages, q, j))
  }

  /** The pages hold exactly the ranges of `regs`, each in one slot, pairwise disjoint. */
  ghost predicate Holds(pages: seq<Page>, regs: set<Range>)
  {
    && (forall p :: 0 <= p < |pages| ==> PageOk(pages[p]))
    && (forall p: nat, i: nat :: Slot(pages, p, i).base != 0 ==> Bounds(Slot(pages, p, i).base, Slot(pages, p, i).len))
    && (forall p: nat, i: nat, q: nat, j: nat :: ApartAt(pages, p, i, q, j))
    && (forall p: nat, i: nat :: Slot(pages, p, i).base != 0 ==> Slot(pages, p, i) in regs)
    && forall r :: r in regs ==> r.base != 0 && exists p: nat, i: nat :: Slot(pages, p, i) == r
  }

  lemma {:induction false} UsedUpdate(ranges: seq<Range>, i: nat, r: Range)
    requires i < |ranges|
    ensures Used(ranges[i := r]) + (if ranges[i].base == 0 then 0 else 1) == Used(ranges) + (if r.base == 0 then 0 else 1)
    decreases |ranges|
  {
    var n := |ranges| - 1;
    if i < n {
      assert ranges[i := r][..n] == ranges[..n][i := r];
      UsedUpdate(ranges[..n], i, r);
    } else {
      assert ranges[i := r][..n] == ranges[..n];
    }
  }

  lemma {:induction false} UsedBlank(ranges: seq<Range>)
    requires forall i :: 0 <= i < |ranges| ==> ranges[i].base == 0
    ensures Used(ranges) == 0
  {
    if ranges != [] {
      UsedBlank(ranges[..|ranges| - 1]);
    }
  }

  predicate FitsNone(regs: set<Range>, base: nat, len: nat)
  {
    forall r :: r in regs ==> !Overlap(base, base + len, r)
  }

  /** A vacant slot takes a range that meets none of the others. */
  lemma PutHolds(pages: seq<Page>, regs: set<Range>, p: nat, i: nat, r: Range, mark: nat)
    requires Holds(pages, regs) && p < |pages| && i < |pages[p].ranges| && pages[p].ranges[i].base == 0
    requires Bounds(r.base, r.len) && FitsNone(regs, r.base, r.len)
    requires i < mark <= |pages[p].ranges| && pages[p].highWater <= mark
    ensures var g := pages[p];
            Holds(pages[p := Page(g.ranges[i := r], g.used + 1, mark)], regs + {r})
    ensures r !in regs
  {
    var g := pages[p];
    var pages', regs' := pages[p := Page(g.ranges[i := r], g.used + 1, mark)], regs + {r};
    UsedUpdate(g.ranges, i, r);
    forall q: nat, j: nat
      ensures Slot(pages', q, j) == if (q, j) == (p, i) then r else Slot(pages, q, j)
    {
    }
    hide Slot, Used;
    forall q: nat, j: nat, a: nat, b: nat
      ensures ApartAt(pages', q, j, a, b)
    {
      assert ApartAt(pages, q, j, a, b);
      assert Slot(pages, q, j).base != 0 ==> Slot(pages, q, j) in regs;
      assert Slot(pages, a, b).base != 0 ==> Slot(pages, a, b) in regs;
    }
    forall s | s in regs'
      ensures s.base != 0 && exists q: nat, j: nat :: Slot(pages', q, j) == s
    {
      if s == r {
        assert Slot(pages', p, i) == r;
      } else {
        var q: nat, j: nat :| Slot(pages, q, j) == s;
        assert Slot(pages', q, j) == s;
      }
    }
  }

  /** A taken slot is emptied; the mark may come down past empty slots. */
  lemma DropHolds(pages: seq<Page>, regs: set<Range>, p: nat, i: nat, mark: nat)
    requires Holds(pages, regs) && p < |pages| && i < |pages[p].ranges| && pages[p].ranges[i].base != 0
    requires mark <= pages[p].highWater
    requires forall j :: mark <= j < |pages[p].ranges| && j != i ==> pages[p].ranges[j].base == 0
    ensures var g := pages[p];
            && g.used > 0 && g.ranges[i] in regs
            && Holds(pages[p := Page(g.ranges[i := VACANT], g.used - 1, mark)], regs - {g.ranges[i]})
  {
    var g := pages[p];
    var r := g.ranges[i];
    UsedUpdate(g.ranges, i, VACANT);
    var pages', regs' := pages[p := Page(g.ranges[i := VACANT], g.used - 1, mark)], regs - {r};
    assert Slot(pages, p, i) == r;
    forall q: nat, j: nat
      ensures Slot(pages', q, j) == if (q, j) == (p, i) then VACANT else Slot(pages, q, j)
    {
    }
    hide Slot, Used;
    forall q: nat, j: nat, a: nat, b: nat
      ensures ApartAt(pages', q, j, a, b)
    {
      assert ApartAt(pages, q, j, a, b);
    }
    forall q: nat, j: nat | Slot(pages', q, j).base != 0
      ensures Slot(pages', q, j) in regs'
    {
      assert ApartAt(pages, p, i, q, j);
    }
    forall s | s in regs'
      ensures s.base != 0 && exists q: nat, j: nat :: Slot(pages', q, j) == s
    {
      var q: nat, j: nat :| Slot(pages, q, j) == s;
      assert Slot(pages', q, j) == s;
    }
  }

  function BlankPage(capacity: nat): Page
  {
    Page(seq(capacity, _ => VACANT), 0, 1)
  }

  /** A fresh page goes in front. */
  lemma GrowHolds(pages: seq<Page>, regs: set<Range>, capacity: nat)
    requires Holds(pages, regs) && capacity > 0
    ensures Holds([BlankPage(capacity)] + pages, regs)
  {
    var pages' := [BlankPage(capacity)] + pages;
    UsedBlank(BlankPage(capacity).ranges);
    forall q: nat, j: nat
      ensures Slot(pages', q, j) == if q == 0 then VACANT else Slot(pages, q - 1, j)
    {
    }
    hide Slot, Used;
    forall q: nat, j: nat, a: nat, b: nat
      ensures ApartAt(pages', q, j, a, b)
    {
      if q > 0 && a > 0 {
        assert ApartAt(pages, q - 1, j, a - 1, b);
      }
    }
    forall s | s in regs
      ensures s.base != 0 && exists q: nat, j: nat :: Slot(pages', q, j) == s
    {
      var q: nat, j: nat :| Slot(pages, q, j) == s;
      assert Slot(pages', q + 1, j) == s;
    }
  }

  /** With nothing registered every slot is vacant. */
  lemma NoneTaken(pages: seq<Page>, p: nat, i: nat)
    requires Holds(pages, {}) && p < |pages| && i < |pages[p].ranges|
    ensures pages[p].ranges[i].base == 0
  {
    assert Slot(pages, p, i) == pages[p].ranges[i];
  }

  /** Every registered range is in some slot, so scanning all of them settles a question about all ranges. */
  lemma Scanned(pages: seq<Page>, regs: set<Range>, r: Range) returns (p: nat, i: nat)
    requires Holds(pages, regs) && r in regs
    ensures p < |pages| && i < pages[p].highWater <= |pages[p].ranges| && pages[p].ranges[i] == r
  {
    p, i :| Slot(pages, p, i) == r;
  }

  lemma Marks(pages: seq<Page>, regs: set<Range>, p: nat)
    requires Holds(pages, regs) && p < |pages|
    ensures PageOk(pages[p])
    ensures forall i :: 0 <= i < |pages[p].ranges| && pages[p].ranges[i].base != 0 ==>
              pages[p].ranges[i] in regs && Bounds(pages[p].ranges[i].base, pages[p].ranges[i].len)
  {
    forall i | 0 <= i < |pages[p].ranges| && pages[p].ranges[i].base != 0
      ensures pages[p].ranges[i] in regs && Bounds(pages[p].ranges[i].base, pages[p].ranges[i].len)
    {
      assert Slot(pages, p, i) == pages[p].ranges[i];
    }
  }

  /** A base address belongs to at most one range. */
  lemma OneBase(pages: seq<Page>, regs: set<Range>, r: Range, s: Range)
    requires Holds(pages, regs) && r in regs && s in regs && r.base == s.base
    ensures r == s
  {
    var p, i := Scanned(pages, regs, r);
    var q, j := Scanned(pages, regs, s);
    assert Slot(pages, p, i) == r && Slot(pages, q, j) == s;
    assert ApartAt(pages, p, i, q, j);
  }

  class Registry {
    const capacity: nat     // slots in a page
    var pages: seq<Page>    // newest first
    var count: nat

    ghost var regs: set<Range>

    ghost predicate Valid()
      reads this
    {
      capacity > 0 && Holds(pages, regs) && count == |regs|
    }

    constructor (capacity: nat)
      requires capacity > 0
      ensures Valid() && regs == {}
    {
      this.capacity := capacity;
      pages, count, regs := [], 0, {};
    }

    /** Some page has a slot left. */
    ghost predicate HasVacancy()
      reads this
    {
      exists p: nat, i: nat :: Vacant(pages, p, i)
    }

    static predicate Vacant(pages: seq<Page>, p: nat, i: nat)
    {
      p < |pages| && i < |pages[p].ranges| && pages[p].ranges[i].base == 0
    }

    /** The slow path's scan: does anything overlap, and if not, where is room? */
    method Survey(lo: nat, hi: nat) returns (clash: bool, page: int, slot: nat)
      requires Valid() && lo < hi
      ensures clash <==> exists r :: r in regs && Overlap(lo, hi, r)
      ensures !clash && page >= 0 ==> page < |pages| && slot < |pages[page].ranges| && pages[page].ranges[slot].base == 0
      ensures !clash && page >= 0 ==> slot <= pages[page].highWater
      ensures !clash ==> (page >= 0 <==> HasVacancy())
    {
      hide Holds;
      var tail := -1;
      page, slot := -1, 0;
      var p := 0;
      while p < |pages|
        invariant 0 <= p <= |pages|
        invariant forall q, j :: 0 <= q < p && 0 <= j < |pages[q].ranges| ==> !Overlap(lo, hi, pages[q].ranges[j])
        invariant page >= 0 ==> page < |pages| && slot < |pages[page].ranges| && pages[page].ranges[slot].base == 0 && slot < pages[page].highWater
        invariant -1 <= tail < |pages| && (tail >= 0 ==> pages[tail].highWater < |pages[tail].ranges|)
        invariant page < 0 ==> page == -1 && forall q: nat, j: nat :: q < p && j < pages[q].highWater ==> !Vacant(pages, q, j)
        invariant page < 0 && tail < 0 ==> forall q: nat :: q < p ==> pages[q].highWater >= |pages[q].ranges|
      {
        Marks(pages, regs, p);
        var g := pages[p];
        var i := 0;
        while i < g.highWater
          invariant 0 <= i <= g.highWater
          invariant forall j :: 0 <= j < i ==> !Overlap(lo, hi, g.ranges[j])
          invariant page >= 0 ==> page < |pages| && slot < |pages[page].ranges| && pages[page].ranges[slot].base == 0 && slot < pages[page].highWater
          invariant page < 0 ==> page == -1 && forall q: nat, j: nat :: (q < p && j < pages[q].highWater) || (q == p && j < i) ==> !Vacant(pages, q, j)
          invariant page < 0 && tail < 0 ==> forall q: nat :: q < p ==> pages[q].highWater >= |pages[q].ranges|
        {
          if Overlap(lo, hi, g.ranges[i]) {
            return true, -1, 0;
          }
          if page == -1 && g.ranges[i].base == 0 {
            page, slot := p, i;
          }
          i := i + 1;
        }
        if page == -1 && tail == -1 && g.highWater < |g.ranges| {
          tail := p;
        }
        p := p + 1;
      }
      NoClash(lo, hi);
      if page == -1 && tail >= 0 {
        Marks(pages, regs, tail);
        page, slot := tail, pages[tail].highWater;
      }
      assert page >= 0 ==> Vacant(pages, page, slot);
      clash := false;
    }

    lemma NoClash(lo: nat, hi: nat)
      requires Valid()
      requires forall q, j :: 0 <= q < |pages| && 0 <= j < |pages[q].ranges| ==> !Overlap(lo, hi, pages[q].ranges[j])
      ensures forall r :: r in regs ==> !Overlap(lo, hi, r)
    {
      forall r | r in regs
        ensures !Overlap(lo, hi, r)
      {
        var p, i := Scanned(pages, regs, r);
      }
    }

    /**
     Register a range; `mapped` says whether a new page could be had. It succeeds exactly when the bounds
     are valid, nothing registered overlaps, and there is a vacant slot or a page to be had; a page is
     added exactly when there is no vacant slot.
     */
    method Register(base: nat, len: nat, provenance: Provenance, mapped: bool) returns (ok: bool)
      requires Valid()
      modifies this
      ensures Valid()
      ensures ok <==> Bounds(base, len) && FitsNone(old(regs), base, len) && (mapped || old(HasVacancy()))
      ensures |pages| == |old(pages)| + if ok && !old(HasVacancy()) then 1 else 0
      ensures regs == if ok then old(regs) + {Range(base, len, provenance)} else old(regs)
    {
      hide Holds, Used;
      if !Bounds(base, len) {
        return false;
      }
      var r := Range(base, len, provenance);
      if count == 0 && |pages| > 0 {
        AllVacant();
        assert Vacant(pages, 0, 0);
        ghost var g := pages[0];
        PutHolds(pages, regs, 0, 0, r, Higher(g.highWater, 1));
        FirstOnly(r);
        pages := pages[0 := Page(pages[0].ranges[0 := r], 1, 1)];
        count, regs := 1, regs + {r};
        return true;
      }
      var clash, p, i := Survey(base, base + len);
      if clash {
        return false;
      }
      if p < 0 {
        if !mapped {
          return false;
        }
        GrowHolds(pages, regs, capacity);
        pages := [BlankPage(capacity)] + pages;
        p, i := 0, 0;
      }
      var g := pages[p];
      Marks(pages, regs, p);
      PutHolds(pages, regs, p, i, r, Higher(g.highWater, i + 1));
      pages := pages[p := Page(g.ranges[i := r], g.used + 1, Higher(g.highWater, i + 1))];
      count, regs := count + 1, regs + {r};
      ok := true;
    }

    function Higher(a: nat, b: nat): nat
    {
      if a < b then b else a
    }

    lemma AllVacant()
      requires Valid() && count == 0 && |pages| > 0
      ensures regs == {} && PageOk(pages[0]) && pages[0].used == 0
      ensures forall i :: 0 <= i < |pages[0].ranges| ==> pages[0].ranges[i].base == 0
    {
      assert PageOk(pages[0]);
      forall i | 0 <= i < |pages[0].ranges|
        ensures pages[0].ranges[i].base == 0
      {
        NoneTaken(pages, 0, i);
      }
      UsedBlank(pages[0].ranges);
    }

    /** The fast path's shortcut: with one range in the first slot, the mark may be 1. */
    lemma FirstOnly(r: Range)
      requires Valid() && count == 0 && |pages| > 0 && r.base != 0
      requires var g := pages[0];
               && |g.ranges| > 0
               && Holds(pages[0 := Page(g.ranges[0 := r], g.used + 1, Higher(g.highWater, 1))], regs + {r})
      ensures Holds(pages[0 := Page(pages[0].ranges[0 := r], 1, 1)], regs + {r})
    {
      AllVacant();
      var g := pages[0];
      var a, b := pages[0 := Page(g.ranges[0 := r], g.used + 1, Higher(g.highWater, 1))], pages[0 := Page(g.ranges[0 := r], 1, 1)];
      assert PageOk(a[0]);
      forall p: nat, i: nat
        ensures Slot(a, p, i) == Slot(b, p, i)
      {
      }
      hide Slot, Used;
      forall p: nat, i: nat, q: nat, j: nat
        ensures ApartAt(b, p, i, q, j)
      {
        assert ApartAt(a, p, i, q, j);
      }
      forall p | 0 <= p < |b|
        ensures PageOk(b[p])
      {
        assert PageOk(a[p]);
      }
      forall s | s in regs + {r}
        ensures s.base != 0 && exists p: nat, i: nat :: Slot(b, p, i) == s
      {
        var p: nat, i: nat :| Slot(a, p, i) == s;
        assert Slot(b, p, i) == s;
      }
    }

    /** Where a base address is registered. */
    method Locate(base: nat) returns (p: int, i: nat)
      requires Valid() && base > 0
      ensures p < 0 ==> forall r :: r in regs ==> r.base != base
      ensures p >= 0 ==> p < |pages| && i < pages[p].highWater <= |pages[p].ranges| && pages[p].ranges[i].base == base
    {
      hide Holds, Used;
      var q := 0;
      while q < |pages|
        invariant 0 <= q <= |pages|
        invariant forall a, b :: 0 <= a < q && 0 <= b < |pages[a].ranges| ==> pages[a].ranges[b].base != base
      {
        Marks(pages, regs, q);
        i := 0;
        while i < pages[q].highWater
          invariant 0 <= i <= pages[q].highWater
          invariant forall b :: 0 <= b < i ==> pages[q].ranges[b].base != base
        {
          if pages[q].ranges[i].base == base {
            return q, i;
          }
          i := i + 1;
        }
        q := q + 1;
      }
      forall r | r in regs
        ensures r.base != base
      {
        var a, b := Scanned(pages, regs, r);
      }
      return -1, 0;
    }

    /** Unregistering succeeds exactly for a base and length registered together. */
    method Unregister(base: nat, len: nat) returns (ok: bool)
      requires Valid()
      modifies this
      ensures Valid()
      ensures ok <==> exists r :: r in old(regs) && r.base == base && r.len == len
      ensures !ok ==> regs == old(regs)
      ensures ok ==> regs == old(regs) - (set r | r in old(regs) && r.base == base)
      ensures |pages| == |old(pages)|
    {
      hide Holds, Used;
      if base == 0 || len == 0 {
        NoNull();
        return false;
      }
      if |pages| > 0 && pages[0].highWater > 0 && First().base == base {
        Marks(pages, regs, 0);
        if pages[0].ranges[0].len != len {
          Only(0, 0);
          return false;
        }
        Drop(0, 0, if pages[0].highWater == 1 then 0 else pages[0].highWater);
        return true;
      }
      var p, i := Locate(base);
      if p < 0 {
        return false;
      }
      Marks(pages, regs, p);
      if pages[p].ranges[i].len != len {
        Only(p, i);
        return false;
      }
      var mark := pages[p].highWater;
      if i + 1 == mark {
        mark := i;
        while mark > 0 && pages[p].ranges[mark - 1].base == 0
          invariant 0 <= mark <= i
          invariant forall j :: mark <= j < i ==> pages[p].ranges[j].base == 0
        {
          mark := mark - 1;
        }
      }
      Drop(p, i, mark);
      return true;
    }

    function First(): Range
      reads this`pages
    {
      Slot(pages, 0, 0)
    }

    lemma NoNull()
      requires Valid()
      ensures forall r :: r in regs ==> r.base > 0 && r.len > 0
    {
      forall r | r in regs
        ensures r.base > 0 && r.len > 0
      {
        var p, i := Scanned(pages, regs, r);
        Marks(pages, regs, p);
      }
    }

    /** The range in a slot is the only one with its base. */
    lemma Only(p: nat, i: nat)
      requires Valid() && p < |pages| && i < |pages[p].ranges| && pages[p].ranges[i].base != 0
      ensures var r := pages[p].ranges[i];
              r in regs && forall s :: s in regs && s.base == r.base ==> s == r
    {
      Marks(pages, regs, p);
      var r := pages[p].ranges[i];
      forall s | s in regs && s.base == r.base
        ensures s == r
      {
        OneBase(pages, regs, r, s);
      }
    }

    method Drop(p: nat, i: nat, mark: nat)
      requires Valid() && p < |pages| && i < |pages[p].ranges| && pages[p].ranges[i].base != 0
      requires mark <= pages[p].highWater && pages[p].used == Used(pages[p].ranges)
      requires forall j :: mark <= j < |pages[p].ranges| && j != i ==> pages[p].ranges[j].base == 0
      modifies this
      ensures Valid()
      ensures var r := old(pages)[p].ranges[i];
              r in old(regs) && regs == old(regs) - {r} && regs == old(regs) - (set s | s in old(regs) && s.base == r.base)
      ensures |pages| == |old(pages)|
    {
      hide Holds, Used;
      DropHolds(pages, regs, p, i, mark);
      Only(p, i);
      var g := pages[p];
      ghost var r := g.ranges[i];
      assert (set s | s in regs && s.base == r.base) == {r};
      pages := pages[p := Page(g.ranges[i := VACANT], g.used - 1, mark)];
      count, regs := count - 1, regs - {r};
    }

    // ---- queries ----

    method QueryRange(base: nat) returns (r: Range)
      requires Valid()
      ensures r != VACANT ==> r in regs && r.base == base
      ensures r == VACANT <==> forall s :: s in regs ==> s.base != base
    {
      hide Holds, Used;
      NoNull();
      if base == 0 {
        return VACANT;
      }
      var p, i := Locate(base);
      if p < 0 {
        return VACANT;
      }
      Only(p, i);
      r := pages[p].ranges[i];
    }

    method Within(address: nat) returns (b: bool)
      requires Valid()
      ensures b <==> exists r :: r in regs && r.base <= address < r.base + r.len
    {
      hide Holds, Used;
      NoNull();
      if address == 0 {
        return false;
      }
      var q := 0;
      while q < |pages|
        invariant 0 <= q <= |pages|
        invariant forall a, j :: 0 <= a < q && 0 <= j < |pages[a].ranges| && pages[a].ranges[j].base != 0 ==>
                    !(pages[a].ranges[j].base <= address < pages[a].ranges[j].base + pages[a].ranges[j].len)
      {
        Marks(pages, regs, q);
        var i := 0;
        while i < pages[q].highWater
          invariant 0 <= i <= pages[q].highWater
          invariant forall j :: 0 <= j < i && pages[q].ranges[j].base != 0 ==>
                      !(pages[q].ranges[j].base <= address < pages[q].ranges[j].base + pages[q].ranges[j].len)
        {
          var r := pages[q].ranges[i];
          if r.base != 0 && address >= r.base && address - r.base < r.len {
            return true;
          }
          i := i + 1;
        }
        q := q + 1;
      }
      forall r | r in regs
        ensures !(r.base <= address < r.base + r.len)
      {
        var a, j := Scanned(pages, regs, r);
      }
      return false;
    }
  }
}
