/**
 A tier of buddy sheets with its free cache: every step asks the sheets' own books, tests their own
 counters, and is a step of the tier's state machine. The calls made on one object are one run of it.
 */
module TierRuns {
  import opened Powers
  import opened Tiling
  import opened Accounts
  import opened TierBooks
  import B = BuddyBook
  import BL = BuddyLayout
  import BS = BuddyState
  import C = FreeCache
  import TC = TierCache

  const NONE: int := -1

  // ---- several books side by side ----

  function Foot(b: B.Book): set<object>
  {
    {b, b.tags, b.next, b.prev, b.hdrOrder, b.hdrFlags}
  }

  ghost function Feet(books: seq<B.Book>): set<object>
  {
    set i: nat, o | i < |books| && o in Foot(books[i]) :: o
  }

  ghost predicate Apart(books: seq<B.Book>)
  {
    forall i: nat, j: nat :: i < j < |books| ==> Foot(books[i]) !! Foot(books[j])
  }

  /** Book i stands for sheet i; the sheets are the tier's, each once, in the order of their addresses. */
  ghost predicate Backed(books: seq<B.Book>, sheets: seq<C.Sheet>, s: C.State)
    reads books, (set i: nat | i < |books| :: books[i].tags), (set i: nat | i < |books| :: books[i].next)
    reads (set i: nat | i < |books| :: books[i].prev), (set i: nat | i < |books| :: books[i].hdrOrder)
    reads (set i: nat | i < |books| :: books[i].hdrFlags)
  {
    && |books| == |sheets|
    && (forall i: nat :: i < |books| ==> BuddySheet(books[i], s, sheets[i]))
    && Apart(books) && C.Sound(s) && Listing(sheets, s)
  }

  /** Some free block of the book, or a part of one, can serve the request. */
  ghost predicate CanServe(b: B.Book, sz: nat)
    reads b
  {
    !b.Refused(sz) && BL.HasRoom(b.layout, B.OrderForSize(sz + B.HDR_OFFSET, b.log2Min), b.top)
  }

  /** The sheets whose books can serve the request. */
  ghost function Roomy(books: seq<B.Book>, sz: nat): set<nat>
    reads books
  {
    set q: nat | q < |books| && CanServe(books[q], sz)
  }

  // ---- what one sheet's step is to the others ----

  lemma OtherSheet(b: B.Book, s: C.State, h: C.Sheet, other: C.Sheet, addr: nat)
    requires BuddySheet(b, s, other) && h in s.sheets && h != other && C.Inside(h, addr)
    ensures !C.Inside(other, addr)
    ensures forall x :: x in Granted(b.layout) ==> C.Inside(other, Place(b.base, b.log2Min, x))
  {
    hide B.Book.Valid, Shl, NoTemporals, Backs, C.CacheSound, C.Owned;
    forall x | x in Granted(b.layout)
      ensures C.Inside(other, Place(b.base, b.log2Min, x))
    {
      BuddyInside(b, other, x);
    }
  }

  lemma OtherMarked(b: B.Book, s: C.State, t: C.State, h: C.Sheet, other: C.Sheet, addr: nat, size: nat)
    requires BuddySheet(b, s, other) && h in s.sheets && h != other && C.Inside(h, addr)
    requires C.Sound(t) && (t == Marked(s, addr, size) || t == C.Unbook(s, addr))
    ensures BuddySheet(b, t, other)
  {
    OtherSheet(b, s, h, other, addr);
    hide B.Book.Valid, Shl, NoTemporals, Backs, C.Sound;
    OthersStay(Granted(b.layout), b.base, b.log2Min, s, other, addr, size);
  }

  lemma SheetSound(b: B.Book, s: C.State, h: C.Sheet)
    requires BuddySheet(b, s, h)
    ensures C.Sound(s) && h in s.sheets
  {
  }

  /** The book of sheet i took a step on the block at addr; the others stand as before. */
  lemma OneStepped(books: seq<B.Book>, sheets: seq<C.Sheet>, s: C.State, t: C.State, i: nat, addr: nat, size: nat)
    requires i < |books| == |sheets| && Apart(books)
    requires Listing(sheets, s) && t.sheets == s.sheets && C.Inside(sheets[i], addr)
    requires t == Marked(s, addr, size) || t == C.Unbook(s, addr)
    requires BuddySheet(books[i], t, sheets[i])
    requires forall j: nat :: j < |books| && j != i ==> BuddySheet(books[j], s, sheets[j])
    ensures Backed(books, sheets, t)
  {
    hide BuddySheet, C.Sound, Marked, C.Unbook, C.Inside;
    SheetSound(books[i], t, sheets[i]);
    forall j: nat | j < |books|
      ensures BuddySheet(books[j], t, sheets[j])
    {
      if j != i {
        OtherMarked(books[j], s, t, sheets[i], sheets[j], addr, size);
      }
    }
  }

  lemma SameBlocks(b: B.Book, s: C.State, t: C.State, h: C.Sheet)
    requires BuddySheet(b, s, h) && t.blocks == s.blocks && h in t.sheets && C.Sound(t)
    ensures BuddySheet(b, t, h)
  {
    hide B.Book.Valid, Shl, NoTemporals, C.Sound;
  }

  lemma Fresh(s: C.State, t: C.State, sz: nat, addr: nat, h: C.Sheet)
    requires C.MarkNext(s, t, sz, addr, h)
    ensures C.Inside(h, addr) && t.sheets == s.sheets && t.parked == s.parked && t.slots == s.slots
    ensures C.Next(s, t, C.Mark(sz, addr, h))
    ensures addr in t.blocks && sz <= t.blocks[addr]
  {
  }

  /** The answer is a whole block of the tier that is large enough. */
  ghost predicate Whole(s: C.State, r: Chunk, sz: nat)
  {
    r.Chunk? && r.ptr in s.blocks && sz <= r.len == s.blocks[r.ptr]
  }

  /** Whatever happens in the cache, the books stand as they are. */
  lemma AllStand(books: seq<B.Book>, sheets: seq<C.Sheet>, s: C.State, t: C.State)
    requires Backed(books, sheets, s) && t.blocks == s.blocks && t.sheets == s.sheets && C.Sound(t)
    ensures Backed(books, sheets, t)
  {
    hide BuddySheet, C.Sound;
    forall j: nat | j < |books|
      ensures BuddySheet(books[j], t, sheets[j])
    {
      SameBlocks(books[j], s, t, sheets[j]);
    }
  }

  function Drop<X>(s: seq<X>, i: nat): (r: seq<X>)
    requires i < |s|
    ensures |r| == |s| - 1 && forall j: nat :: j < |r| ==> r[j] == s[if j < i then j else j + 1]
  {
    s[..i] + s[i + 1..]
  }

  function Put<X>(s: seq<X>, i: nat, x: X): (r: seq<X>)
    requires i <= |s|
    ensures |r| == |s| + 1 && r[i] == x && forall j: nat :: j < |r| && j != i ==> r[j] == s[if j < i then j else j - 1]
  {
    s[..i] + [x] + s[i..]
  }

  /** The sheets of a tier in the order of their addresses. */
  ghost predicate Listing(sheets: seq<C.Sheet>, s: C.State)
  {
    && (forall i: nat, j: nat :: i < j < |sheets| ==> sheets[i].lo < sheets[j].lo)
    && forall h :: h in s.sheets <==> h in sheets
  }

  lemma DropListing(sheets: seq<C.Sheet>, s: C.State, i: nat)
    requires Listing(sheets, s) && i < |sheets|
    ensures Listing(Drop(sheets, i), C.Reclaimed(s, sheets[i]))
  {
    hide Drop;
    forall h | h in s.sheets && h != sheets[i]
      ensures h in Drop(sheets, i)
    {
      var j: nat :| j < |sheets| && sheets[j] == h;
      assert Drop(sheets, i)[if j < i then j else j - 1] == h;
    }
  }

  lemma DropApart(books: seq<B.Book>, i: nat)
    requires Apart(books) && i < |books|
    ensures Apart(Drop(books, i))
  {
    hide Drop, Foot;
  }

  /** A sheet goes with its book. */
  lemma DropStands(books: seq<B.Book>, sheets: seq<C.Sheet>, s: C.State, i: nat)
    requires Backed(books, sheets, s) && i < |books| && C.Idle(s, sheets[i])
    ensures Backed(Drop(books, i), Drop(sheets, i), C.Reclaimed(s, sheets[i]))
  {
    hide BuddySheet, C.Sound, C.Idle, Apart, Listing, Drop;
    var t := C.Reclaimed(s, sheets[i]);
    C.ReclaimKeeps(s, sheets[i]);
    DropListing(sheets, s, i);
    DropApart(books, i);
    forall j: nat | j < |Drop(books, i)|
      ensures BuddySheet(Drop(books, i)[j], t, Drop(sheets, i)[j])
    {
      var k := if j < i then j else j + 1;
      Listed(Drop(sheets, i), t, j);
      SameBlocks(books[k], s, t, sheets[k]);
    }
  }

  lemma Listed(sheets: seq<C.Sheet>, s: C.State, j: nat)
    requires Listing(sheets, s) && j < |sheets|
    ensures sheets[j] in s.sheets
  {
  }

  lemma PutListing(sheets: seq<C.Sheet>, s: C.State, t: C.State, i: nat, h: C.Sheet)
    requires Listing(sheets, s) && i <= |sheets| && t.sheets == s.sheets + {h}
    requires forall j: nat :: j < |sheets| ==> if j < i then sheets[j].lo < h.lo else h.lo < sheets[j].lo
    ensures Listing(Put(sheets, i, h), t)
  {
    hide Put;
    var all := Put(sheets, i, h);
    forall g | g in t.sheets
      ensures g in all
    {
      if g == h {
        assert all[i] == g;
      } else {
        var j: nat :| j < |sheets| && sheets[j] == g;
        assert all[if j < i then j else j + 1] == g;
      }
    }
  }

  lemma PutApart(books: seq<B.Book>, i: nat, b: B.Book)
    requires Apart(books) && i <= |books| && forall j: nat :: j < |books| ==> Foot(books[j]) !! Foot(b)
    ensures Apart(Put(books, i, b))
  {
    hide Put, Foot;
  }

  /** A sheet comes with a new book. */
  lemma PutStands(books: seq<B.Book>, sheets: seq<C.Sheet>, s: C.State, t: C.State, i: nat, b: B.Book, h: C.Sheet)
    requires Backed(books, sheets, s) && i <= |books| && C.ExpandNext(s, t, h) && BuddySheet(b, t, h)
    requires forall j: nat :: j < |books| ==> Foot(books[j]) !! Foot(b)
    requires forall j: nat :: j < |books| ==> if j < i then sheets[j].lo < h.lo else h.lo < sheets[j].lo
    ensures Backed(Put(books, i, b), Put(sheets, i, h), t)
  {
    hide BuddySheet, C.Sound, Apart, Listing, Put, Foot;
    SheetSound(b, t, h);
    PutListing(sheets, s, t, i, h);
    PutApart(books, i, b);
    forall j: nat | j < |Put(books, i, b)|
      ensures BuddySheet(Put(books, i, b)[j], t, Put(sheets, i, h)[j])
    {
      if j != i {
        var k := if j < i then j else j - 1;
        Listed(Put(sheets, i, h), t, j);
        SameBlocks(books[k], s, t, sheets[k]);
      }
    }
  }

  // ---- what a book says ----

  /** Ask one book for a block. */
  method Ask(b: B.Book, ghost s: C.State, ghost h: C.Sheet, sz: nat) returns (r: Chunk, ghost t: C.State)
    requires BuddySheet(b, s, h) && TC.LastFit(s.parked, sz % C.U32) < 0
    modifies Foot(b)
    ensures BuddySheet(b, t, h)
    ensures r.Null? <==> !old(CanServe(b, sz))
    ensures r.Null? ==> t == s && CanServe(b, sz) == old(CanServe(b, sz))
    ensures r.Chunk? ==> C.Inside(h, r.ptr) && t == Marked(s, r.ptr, r.len) && C.Next(s, t, C.Mark(sz, r.ptr, h))
    ensures r.Chunk? ==> Whole(t, r, sz)
    ensures t.sheets == s.sheets && t.parked == s.parked && t.slots == s.slots
  {
    hide BuddySheet, C.Next, C.MarkNext, TC.LastFit, BL.HasRoom, B.OrderForSize;
    r, t := BuddyMark(b, s, h, sz);
    if r.Chunk? {
      Fresh(s, t, sz, r.ptr, h);
    }
  }

  /** A block the tier has in this sheet is one the book has granted. */
  lemma BlockGranted(b: B.Book, s: C.State, h: C.Sheet, addr: nat) returns (x: nat)
    requires BuddySheet(b, s, h) && C.Inside(h, addr) && addr in s.blocks
    ensures x in b.layout && b.layout[x].kind.Alloc? && b.Address(x) == addr && b.Names(addr)
  {
    hide B.Book.Valid, Shl, NoTemporals, C.Sound;
    x :| x in Granted(b.layout) && addr == Place(b.base, b.log2Min, x);
  }

  lemma GrantedBlock(b: B.Book, s: C.State, h: C.Sheet, x: nat)
    requires BuddySheet(b, s, h) && x in b.layout && InUse(b.layout[x].kind)
    ensures b.Address(x) in s.blocks <==> b.layout[x].kind.Alloc?
    ensures b.layout[x].kind.Alloc? ==> s.blocks[b.Address(x)] == Shl(b.layout[x].size, b.log2Min) - HDR
  {
    hide B.Book.Valid, Shl, C.Sound, NoTemporals;
    BuddyInside(b, h, x);
    assert Place(b.base, b.log2Min, x) == b.Address(x);
    if b.Address(x) in s.blocks {
      var y := BlockGranted(b, s, h, b.Address(x));
      PlaceInjective(b.base, b.log2Min, x, y);
    } else {
      assert x !in Granted(b.layout);
    }
  }

  /** Whether a block is handed out at addr and not tombstoned, and its payload size. */
  method LiveAt(b: B.Book, ghost s: C.State, ghost h: C.Sheet, addr: nat) returns (live: bool, size: nat)
    requires BuddySheet(b, s, h) && C.Inside(h, addr)
    ensures live <==> addr in s.blocks
    ensures live ==> size == s.blocks[addr]
  {
    hide B.Book.Valid, B.Book.Names, BuddySheet, Pow2, Shl, C.Inside, B.Book.Address;
    BookOf(b, s, h);
    size := 0;
    live := b.IsAllocated(addr);
    if live {
      var x, o, flags := b.HeaderOf(addr);
      GrantedBlock(b, s, h, x);
      FlagTells(b.layout[x].kind);
      live := flags / 2 % 2 == 0;
      if live {
        size := B.OrderSize(o, b.log2Min) - HDR;
      }
    } else if addr in s.blocks {
      ghost var x := BlockGranted(b, s, h, addr);
    }
  }

  lemma FlagTells(k: Kind)
    requires InUse(k) && !k.Temporal?
    ensures FlagOf(k) / 2 % 2 == 0 <==> k.Alloc?
  {
  }

  lemma BookOf(b: B.Book, s: C.State, h: C.Sheet)
    requires BuddySheet(b, s, h)
    ensures b.Valid() && forall x :: x in b.layout ==> !b.layout[x].kind.Temporal?
  {
  }

  // ---- what a tier has gone through ----

  datatype History = First(now: C.State) | Then(past: History, step: C.Step, now: C.State)

  /** Every step of the history is one of the state machine's. */
  ghost predicate Ran(h: History)
  {
    match h
    case First(s) => C.Start(s)
    case Then(past, step, s) => Ran(past) && C.Next(past.now, s, step)
  }

  /** One step more. */
  ghost function Grown(h: History, step: C.Step, s: C.State): (r: History)
    requires Ran(h) && C.Next(h.now, s, step)
    ensures Ran(r) && r == Then(h, step, s)
  {
    Then(h, step, s)
  }

  ghost function States(h: History): seq<C.State>
  {
    match h
    case First(s) => [s]
    case Then(past, step, s) => States(past) + [s]
  }

  ghost function Steps(h: History): seq<C.Step>
  {
    match h
    case First(s) => []
    case Then(past, step, s) => Steps(past) + [step]
  }

  /** A history is a run. */
  lemma {:induction false} HistoryRuns(h: History)
    requires Ran(h)
    ensures C.Run(States(h), Steps(h)) && States(h)[|Steps(h)|] == h.now
  {
    hide C.Next, C.Start;
    if h.Then? {
      HistoryRuns(h.past);
      var states, steps := States(h.past), Steps(h.past);
      forall i | 0 <= i < |Steps(h)|
        ensures C.Next(States(h)[i], States(h)[i + 1], Steps(h)[i])
      {
        if i < |steps| {
          assert C.Next(states[i], states[i + 1], steps[i]);
        }
      }
    }
  }

  // ---- which sheets were asked ----

  predicate ClearTo(open: seq<bool>, p: nat)
  {
    forall q: nat :: q < p && q < |open| ==> !open[q]
  }

  /** The flags lost since `was` are of sheets without room. */
  ghost predicate Tried(open: seq<bool>, was: seq<bool>, room: set<nat>)
  {
    && |open| == |was|
    && forall q: nat :: q < |was| ==> (open[q] ==> was[q]) && (was[q] && !open[q] ==> q !in room)
  }

  lemma TriedNone(was: seq<bool>, room: set<nat>)
    ensures Tried(was, was, room)
  {
  }

  lemma TriedOne(open: seq<bool>, was: seq<bool>, room: set<nat>, p: nat)
    requires Tried(open, was, room) && p < |open| && p !in room
    ensures Tried(open[p := false], was, room)
  {
  }

  lemma TriedTo(open: seq<bool>, was: seq<bool>, room: set<nat>, p: nat)
    requires Tried(open, was, room) && ClearTo(open, p)
    ensures |open| == |was| && forall q: nat :: q < p && q < |was| && was[q] ==> q !in room
    ensures p < |was| && open[p] ==> was[p]
  {
  }

  // ---- the tier ----

  class Tier {
    var books: seq<B.Book>
    var sheets: seq<C.Sheet>
    var open: seq<bool>            // which sheets may have room
    var last: int                  // the sheet that served last, or NONE
    var parked: seq<TC.Parked>
    const slots: nat
    const cold: bool               // frees tombstone blocks, and sheets go only when mostly tombstoned

    ghost var history: History

    ghost predicate Valid()
      reads this, books, (set i: nat | i < |books| :: books[i].tags), (set i: nat | i < |books| :: books[i].next)
      reads (set i: nat | i < |books| :: books[i].prev), (set i: nat | i < |books| :: books[i].hdrOrder)
      reads (set i: nat | i < |books| :: books[i].hdrFlags)
    {
      && |open| == |books| == |sheets| && NONE <= last < |books|
      && Ran(history) && history.now.parked == parked && history.now.slots == slots
      && Backed(books, sheets, history.now)
    }

    /** Ask the book of sheet i. */
    method MarkAt(i: nat, sz: nat) returns (r: Chunk)
      requires Valid() && i < |books| && TC.LastFit(parked, sz % C.U32) < 0
      modifies Foot(books[i]), this`history
      ensures Valid() && books == old(books) && sheets == old(sheets) && open == old(open) && last == old(last) && parked == old(parked)
      ensures r.Null? <==> i !in old(Roomy(books, sz))
      ensures r.Null? ==> history == old(history)
      ensures r.Null? ==> Roomy(old(books), sz) == old(Roomy(books, sz))
      ensures r.Chunk? ==> Ran(history) && history == Then(old(history), C.Mark(sz, r.ptr, old(sheets[i])), history.now)
      ensures r.Chunk? ==> Whole(history.now, r, sz)
    {
      hide BuddySheet, Ran, C.Next, C.Sound, TC.LastFit, CanServe, Marked, Whole;
      ghost var s, t := history.now, history.now;
      r, t := Ask(books[i], s, sheets[i], sz);
      assert forall j: nat :: j < |books| && j != i ==> BuddySheet(books[j], s, sheets[j]);
      if r.Chunk? {
        OneStepped(books, sheets, s, t, i, r.ptr, r.len);
        history := Grown(history, C.Mark(sz, r.ptr, sheets[i]), t);
      }
    }

    /** The mask no longer shows sheet i as open. */
    method Exhaust(i: nat)
      requires Valid() && i < |books|
      modifies this`open
      ensures Valid() && open == old(open)[i := false]
      ensures forall sz: nat :: Roomy(books, sz) == old(Roomy(books, sz))
    {
      hide Backed, Ran, Roomy;
      open := open[i := false];
    }

    /** Ask the book of an open sheet; if it refuses, the sheet is open no longer. */
    method TryAt(i: nat, sz: nat) returns (r: Chunk)
      requires Valid() && i < |books| && open[i] && TC.LastFit(parked, sz % C.U32) < 0
      modifies Foot(books[i]), this`open, this`history
      ensures Valid() && books == old(books) && sheets == old(sheets) && last == old(last) && parked == old(parked)
      ensures r.Null? <==> i !in old(Roomy(books, sz))
      ensures r.Null? ==> history == old(history) && Roomy(old(books), sz) == old(Roomy(books, sz))
      ensures open == if r.Null? then old(open)[i := false] else old(open)
      ensures r.Chunk? ==> Ran(history) && history.Then? && history.past == old(history)
                           && history.step == C.Mark(sz, r.ptr, old(sheets)[i]) && Whole(history.now, r, sz)
    {
      hide Backed, Ran, Roomy, C.Next, TC.LastFit, Whole;
      r := MarkAt(i, sz);
      if r.Null? {
        Exhaust(i);
      }
    }

    /**
     Sheets are asked as they may have room: the one that served last, then each open one from the lowest.
     One that refuses is open no longer.
     */
    method Insert(sz: nat) returns (r: Chunk)
      requires Valid() && TC.LastFit(parked, sz % C.U32) < 0
      modifies this`open, this`last, this`history, Feet(books)
      ensures Valid() && books == old(books) && sheets == old(sheets) && parked == old(parked)
      ensures r.Null? <==> forall q: nat :: q < |old(open)| && old(open)[q] ==> q !in old(Roomy(books, sz))
      ensures r.Null? ==> history == old(history) && last == old(last)
      ensures r.Chunk? ==> 0 <= last < |old(open)| == |old(sheets)| && old(open)[last] && last in old(Roomy(books, sz))
      ensures r.Chunk? ==> Ran(history) && history.Then? && history.past == old(history)
                           && history.step == C.Mark(sz, r.ptr, old(sheets)[last]) && Whole(history.now, r, sz)
      ensures Tried(open, old(open), old(Roomy(books, sz))) && (r.Null? ==> ClearTo(open, |open|))
      ensures r.Chunk? && last == old(last) ==> open == old(open) || ClearTo(open, last)
      ensures r.Chunk? && last != old(last) ==> ClearTo(open, last)
      ensures r.Chunk? && last != old(last) ==> forall q: nat :: q < last && old(open)[q] ==> q !in old(Roomy(books, sz))
    {
      hide Backed, Ran, Roomy, C.Next, TC.LastFit, Tried, Whole;
      ghost var room, was := Roomy(books, sz), open;
      TriedNone(was, room);
      if last != NONE && open[last] {
        r := TryAt(last, sz);
        if r.Chunk? {
          return;
        }
        TriedOne(was, was, room, last);
      }
      var p := 0;
      while p < |books|
        invariant 0 <= p <= |books| && Valid() && books == old(books) && sheets == old(sheets) && parked == old(parked)
        invariant history == old(history) && last == old(last) && Roomy(books, sz) == room
        invariant Tried(open, was, room) && ClearTo(open, p)
      {
        if open[p] {
          ghost var before := open;
          r := TryAt(p, sz);
          if r.Chunk? {
            TriedTo(open, was, room, p);
            last := p;
            return;
          }
          TriedOne(before, was, room, p);
        }
        p := p + 1;
      }
      TriedTo(open, was, room, p);
      return Null;
    }

    /** A step in which only the cache and its clients take part. */
    method CacheStep(ghost t: C.State, ghost step: C.Step, now: seq<TC.Parked>)
      requires Valid() && C.Next(history.now, t, step)
      requires t.blocks == history.now.blocks && t.sheets == history.now.sheets && t.slots == slots && t.parked == now
      modifies this`parked, this`history
      ensures Valid() && Ran(history) && history == Then(old(history), step, t) && parked == now
    {
      hide BuddySheet, Ran, C.Next, C.Sound;
      BackedSound(books, sheets, history.now);
      C.StepKeeps(history.now, t, step);
      AllStand(books, sheets, history.now, t);
      parked := now;
      history := Grown(history, step, t);
    }

    /**
     The cache's latest block that is large enough, or else a block of some open sheet. A parked block is
     handed out at the length it was parked with, a fresh one at its whole length. A hit asks no book.
     */
    method Alloc(sz: nat) returns (r: Chunk)
      requires Valid() && (slots > 0 ==> sz <= C.CLASS_HUGE)
      modifies this`open, this`last, this`history, this`parked, Feet(books)
      ensures Valid()
      ensures r.Null? <==> TC.LastFit(old(parked), sz % C.U32) < 0
                           && forall q: nat :: q < |old(open)| && old(open)[q] ==> q !in old(Roomy(books, sz))
      ensures r.Null? ==> history == old(history)
      ensures r.Chunk? ==> history.Then? && history.past == old(history) && Ran(history)
                           && if TC.LastFit(old(parked), sz % C.U32) >= 0 then history.step == C.Hit(sz)
                              else history.step.Mark? && history.step.sz == sz && history.step.addr == r.ptr
      ensures r.Chunk? ==> r.ptr in history.now.held && r.ptr !in old(history).now.held
      ensures r.Chunk? ==> r.ptr in history.now.blocks && sz <= r.len <= history.now.blocks[r.ptr]
      ensures r.Chunk? && TC.LastFit(old(parked), sz % C.U32) >= 0 ==>
                old(parked)[TC.LastFit(old(parked), sz % C.U32)] == TC.Parked(r.ptr, r.len) && open == old(open) && last == old(last)
      ensures r.Chunk? && TC.LastFit(old(parked), sz % C.U32) < 0 ==> r.len == history.now.blocks[r.ptr] && 0 <= last
      ensures TC.LastFit(old(parked), sz % C.U32) < 0 ==>
                parked == old(parked) && Tried(open, old(open), old(Roomy(books, sz))) && (r.Null? ==> ClearTo(open, |open|))
      ensures books == old(books) && sheets == old(sheets)
    {
      hide Backed, Ran, Roomy, TC.LastFit, C.HitNext, C.MarkNext, Tried;
      var hit := TC.LastFit(parked, sz % C.U32);
      if hit < 0 {
        BackedSound(books, sheets, history.now);
        r := Insert(sz);
        if r.Chunk? {
          NewlyHeld(history);
        }
        return;
      }
      HitStep(books, sheets, history.now, sz, hit);
      ghost var t := history.now.(parked := TC.SwapRemove(parked, hit), held := history.now.held + {parked[hit].addr});
      r := Chunk(parked[hit].addr, parked[hit].size);
      CacheStep(t, C.Hit(sz), TC.SwapRemove(parked, hit));
    }

    /** The book of sheet i frees or tombstones the block at addr; the sheet is open again. */
    method Unbooked(i: nat, addr: nat, tomb: bool) returns (ghost t: C.State)
      requires Valid() && i < |books| && C.Inside(sheets[i], addr)
      requires addr in history.now.blocks && !TC.Holds(parked, addr)
      modifies Foot(books[i]), this`open
      ensures books == old(books) && sheets == old(sheets) && open == old(open)[i := true]
      ensures t == C.Unbook(history.now, addr) && Backed(books, sheets, t)
      ensures TakenBack(old(books)[i], old(books[i].layout), addr, tomb)
    {
      hide BuddySheet, Ran, C.Sound, C.Unbook, Returned, Buried;
      ghost var s := history.now;
      t := C.Unbook(s, addr);
      if tomb {
        BuddyTombstone(books[i], s, sheets[i], addr);
      } else {
        BuddyUnmark(books[i], s, sheets[i], addr);
      }
      SameSheets(s, addr);
      assert forall j: nat :: j < |books| && j != i ==> BuddySheet(books[j], s, sheets[j]);
      OneStepped(books, sheets, s, t, i, addr, 0);
      open := open[i := true];
    }

    /** Sheet i goes with its book; the last hit keeps naming its sheet unless that is the one. */
    method Release(i: nat, ghost s: C.State)
      requires i < |books| && |open| == |books| && NONE <= last < |books|
      requires Backed(books, sheets, s) && C.Idle(s, sheets[i])
      modifies this`books, this`sheets, this`open, this`last
      ensures Backed(books, sheets, C.Reclaimed(s, old(sheets)[i])) && |sheets| == |books| == |old(books)| - 1
      ensures |old(sheets)| == |old(books)| && books == Drop(old(books), i) && sheets == Drop(old(sheets), i)
      ensures open == Drop(old(open), i) && last == LastWithout(old(last), i)
    {
      hide Backed, Drop, C.Idle, C.Reclaimed;
      Kept(books, sheets, s, i);
      DropStands(books, sheets, s, i);
      books, sheets, open := Drop(books, i), Drop(sheets, i), Drop(open, i);
      if last == i {
        last := NONE;
      } else if last > i {
        last := last - 1;
      }
    }

    /** The last hit keeps naming its sheet unless that is the one that went. */
    static function LastWithout(last: int, i: nat): int
    {
      if last == i then NONE else if last > i then last - 1 else last
    }

    /** What becomes of the sheets when a block of sheet i left its book: that sheet is open again, or it goes. */
    ghost predicate Left(books0: seq<B.Book>, sheets0: seq<C.Sheet>, open0: seq<bool>, last0: int, i: nat, gone: bool)
      requires i < |books0| == |sheets0| == |open0|
      reads `books, `sheets, `open, `last
    {
      if gone then books == Drop(books0, i) && sheets == Drop(sheets0, i) && open == Drop(open0, i) && last == LastWithout(last0, i)
      else books == books0 && sheets == sheets0 && open == open0[i := true] && last == last0
    }

    /** The book of sheet i freed the block at addr, or buried it. */
    static ghost predicate TakenBack(b: B.Book, m: Layout, addr: nat, tomb: bool)
      reads b
    {
      if tomb then Buried(b, m, addr) else Returned(b, m, addr)
    }

    /** What the code asks before it gives a sheet back: nothing used, and on cold tiers more than half tombstoned. */
    static predicate Drained(b: B.Book, h: C.Sheet, most: bool)
      reads b
    {
      !h.head && b.allocatedBytes == 0 && (most ==> Mostly(b))
    }

    /** More than half of the pool is tombstoned. */
    static predicate Mostly(b: B.Book)
      reads b
    {
      b.tombstonedBytes > b.total / 2
    }

    /** A block of sheet i leaves its book, and the sheet goes if that leaves it drained. */
    method Settle(i: nat, addr: nat, tomb: bool, most: bool) returns (ghost t: C.State, ghost gone: bool)
      requires Valid() && i < |books| && C.Inside(sheets[i], addr)
      requires addr in history.now.blocks && !TC.Holds(parked, addr)
      modifies this`books, this`sheets, this`open, this`last, Foot(books[i])
      ensures |open| == |books| == |sheets| && NONE <= last < |books| && Backed(books, sheets, t)
      ensures C.Settled(history.now, t, addr, old(sheets)[i], gone)
      ensures Left(old(books), old(sheets), old(open), old(last), i, gone)
      ensures TakenBack(old(books)[i], old(books[i].layout), addr, tomb)
      ensures gone <==> C.Idle(C.Unbook(history.now, addr), old(sheets)[i]) && (most ==> Mostly(old(books)[i]))
    {
      hide Backed, Ran, C.Idle, C.Unbook, C.Reclaimed, BuddySheet, Drop, TakenBack;
      ghost var s := history.now;
      Kept(books, sheets, s, i);
      t := Unbooked(i, addr, tomb);
      Stands(books, sheets, t, i);
      BuddyUsed(books[i], t, sheets[i]);
      SameSheets(s, addr);
      gone := Drained(books[i], sheets[i], most);
      if Drained(books[i], sheets[i], most) {
        Release(i, t);
        t := C.Reclaimed(t, old(sheets)[i]);
      }
    }

    /** What a free of the block at addr parks. */
    static ghost function Entry(s: C.State, addr: nat, claim: C.Claim): TC.Parked
    {
      TC.Parked(addr, if addr in s.blocks then C.Recorded(s.blocks[addr], claim) else 0)
    }

    /**
     A free from anyone of anything. What no client can free is refused; a block is parked while the
     cache has a slot, and otherwise goes back to the book of its sheet `at`. That sheet is open again, or
     goes too if it is drained.
     */
    method Free(addr: nat, claim: C.Claim) returns (ok: bool, ghost at: nat)
      requires Valid()
      modifies this`books, this`sheets, this`open, this`last, this`parked, this`history, Feet(books)
      ensures Valid()
      ensures ok <==> !C.Refused(old(history).now, addr)
      ensures !ok ==> history == old(history)
      ensures ok ==> Ran(history) && history.Then? && history.past == old(history)
                     && history.step.Free? && history.step.addr == addr && history.step.claim == claim
      ensures !ok || |old(parked)| < slots ==> books == old(books) && sheets == old(sheets) && open == old(open) && last == old(last)
      ensures parked == if ok && |old(parked)| < slots then old(parked) + [Entry(old(history).now, addr, claim)] else old(parked)
      ensures ok && |old(parked)| >= slots ==>
                at < |old(books)| == |old(sheets)| == |old(open)| && old(sheets)[at] == history.step.h && C.Inside(old(sheets)[at], addr)
      ensures ok && |old(parked)| >= slots ==> Left(old(books), old(sheets), old(open), old(last), at, history.step.reclaim)
      ensures ok && |old(parked)| >= slots ==> TakenBack(old(books)[at], old(books[at].layout), addr, cold)
      ensures ok && |old(parked)| >= slots ==>
                (history.step.reclaim <==> C.Idle(C.Unbook(old(history).now, addr), history.step.h) && (cold ==> Mostly(old(books)[at])))
    {
      hide Backed, Ran, BuddySheet, C.Idle, C.Unbook, C.Settled, C.Parking, C.Sound, C.Recorded, Left, TakenBack, Mostly;
      ghost var s := history.now;
      at := 0;
      BackedSound(books, sheets, s);
      var i := Locate(sheets, addr);
      if i == NONE {
        NowhereRefused(sheets, s, addr);
        return false, 0;
      }
      Stands(books, sheets, s, i);
      var live, size := LiveAt(books[i], s, sheets[i], addr);
      if !live || TC.Holds(parked, addr) {
        return false, 0;
      }
      ghost var h := sheets[i];
      if |parked| < slots {
        var e := TC.Parked(addr, C.Recorded(size, claim));
        Parks(s, addr, claim);
        CacheStep(C.Parking(s, addr, C.Recorded(size, claim)), C.Free(addr, claim, h, false), parked + [e]);
      } else {
        ghost var t, gone;
        at := i;
        t, gone := Settle(i, addr, cold, cold);
        SettledSame(s, t, addr, h, gone);
        history := Grown(history, C.Free(addr, claim, h, gone), t);
      }
      return true, at;
    }

    /** A client tombstones a block it holds. */
    method Tombstone(addr: nat) returns (ghost at: nat)
      requires Valid() && addr in history.now.held
      modifies this`books, this`sheets, this`open, this`last, this`history, Feet(books)
      ensures Valid() && Ran(history) && history.Then? && history.past == old(history)
      ensures history.step.Tombstone? && history.step.addr == addr
      ensures at < |old(books)| == |old(sheets)| == |old(open)| && old(sheets)[at] == history.step.h
      ensures Left(old(books), old(sheets), old(open), old(last), at, history.step.reclaim)
      ensures TakenBack(old(books)[at], old(books[at].layout), addr, true)
      ensures history.step.reclaim <==> C.Idle(C.Unbook(old(history).now, addr), history.step.h) && Mostly(old(books)[at])
    {
      hide Backed, Ran, BuddySheet, C.Idle, C.Unbook, C.Settled, C.Sound, Left, TakenBack, Mostly;
      ghost var s := history.now;
      BackedSound(books, sheets, s);
      HeldLives(s, addr);
      var i := Locate(sheets, addr);
      if i == NONE {
        NowhereRefused(sheets, s, addr);
        assert false;
      }
      ghost var h := sheets[i];
      ghost var t, gone;
      at := i;
      t, gone := Settle(i, addr, true, true);
      SettledSame(s, t, addr, h, gone);
      history := Grown(history, C.Tombstone(addr, h, gone), t);
    }

    /** Sheet i goes if it is drained and more than half of it is tombstoned. */
    method SweepAt(i: nat)
      requires Valid() && i < |books|
      modifies this`books, this`sheets, this`open, this`last, this`history
      ensures Valid() && |old(sheets)| == |old(books)| == |old(open)|
      ensures if old(Drained(books[i], sheets[i], true)) then
                && Left(old(books), old(sheets), old(open), old(last), i, true)
                && Ran(history) && history.Then? && history.past == old(history) && history.step == C.Sweep(old(sheets)[i])
              else books == old(books) && sheets == old(sheets) && open == old(open) && last == old(last) && history == old(history)
    {
      hide Backed, Ran, BuddySheet, C.Idle, C.Sound, C.Reclaimed, Drop;
      ghost var s := history.now;
      Kept(books, sheets, s, i);
      Stands(books, sheets, s, i);
      BuddyUsed(books[i], s, sheets[i]);
      if Drained(books[i], sheets[i], true) {
        ghost var h := sheets[i];
        Swept(s, h);
        Release(i, s);
        history := Grown(history, C.Sweep(h), C.Reclaimed(s, h));
      }
    }

    /** The sweep of the whole tier, from the highest sheet down: exactly the drained sheets go. */
    method Sweep()
      requires Valid()
      modifies this`books, this`sheets, this`open, this`last, this`history
      ensures Valid() && After(old(history), history)
      ensures |old(books)| == |old(sheets)| == |old(open)| == |old(Going(books, sheets))|
      ensures books == Staying(old(books), old(Going(books, sheets)), 0) && sheets == Staying(old(sheets), old(Going(books, sheets)), 0)
      ensures open == Staying(old(open), old(Going(books, sheets)), 0)
    {
      hide Backed, Ran, Drop, Drained, Staying;
      ghost var all, ranges, flags, gone := books, sheets, open, Going(books, sheets);
      var i := |books|;
      StayingNone(all, gone);
      StayingNone(ranges, gone);
      StayingNone(flags, gone);
      while i > 0
        invariant 0 <= i <= |all| == |ranges| == |flags| == |gone| && Valid() && After(old(history), history)
        invariant forall j: nat :: j < |all| ==> gone[j] == Drained(all[j], ranges[j], true)
        invariant books == all[..i] + Staying(all, gone, i)
        invariant sheets == ranges[..i] + Staying(ranges, gone, i)
        invariant open == flags[..i] + Staying(flags, gone, i)
      {
        i := i - 1;
        ghost var was := history;
        StayingStep(all, gone, i);
        StayingStep(ranges, gone, i);
        StayingStep(flags, gone, i);
        SweepAt(i);
        AfterOne(old(history), was, history);
      }
    }

    /** A new sheet with its own book joins at the place its address has. */
    method Expand(b: B.Book, h: C.Sheet) returns (ghost at: nat)
      requires Valid() && b.Valid() && b.log2Min > 5 && b.lost == 0 && b.layout == map[0 := BL.FreeSeg(b.top)]
      requires forall j: nat :: j < |books| ==> Foot(books[j]) !! Foot(b)
      requires h.lo <= b.base && b.base + b.total <= h.hi && h.lo < h.hi && !h.head
      requires forall g :: g in history.now.sheets ==> g.hi <= h.lo || h.hi <= g.lo
      modifies this`books, this`sheets, this`open, this`last, this`history
      ensures Valid() && Ran(history) && history.Then? && history.past == old(history) && history.step == C.Expand(h)
      ensures at <= |old(books)| == |old(sheets)| == |old(open)| && Joined(old(books), old(sheets), old(open), old(last), at, b, h)
    {
      hide Ran, Backed, BuddySheet, C.Sound, B.Book.Valid, Foot, Put, C.ExpandNext, Joined;
      ghost var s := history.now;
      ghost var t := s.(sheets := s.sheets + {h});
      BackedSound(books, sheets, s);
      NewSheet(s, h);
      BuddyStart(b, s, t, h);
      var i := Position(sheets, h);
      Above(books, sheets, s, h, i);
      at := i;
      Join(i, b, h, t);
      history := Grown(history, C.Expand(h), t);
    }

    /** The sheet and its book take place i; the last hit keeps naming its sheet. */
    method Join(i: nat, b: B.Book, h: C.Sheet, ghost t: C.State)
      requires Valid() && i <= |books| && C.ExpandNext(history.now, t, h) && BuddySheet(b, t, h)
      requires forall j: nat :: j < |books| ==> Foot(books[j]) !! Foot(b)
      requires forall j: nat :: j < |sheets| ==> if j < i then sheets[j].lo < h.lo else h.lo < sheets[j].lo
      modifies this`books, this`sheets, this`open, this`last
      ensures |open| == |books| == |sheets| && NONE <= last < |books| && Backed(books, sheets, t)
      ensures Joined(old(books), old(sheets), old(open), old(last), i, b, h)
    {
      hide Ran, Backed, BuddySheet, Foot, Put, C.ExpandNext;
      PutStands(books, sheets, history.now, t, i, b, h);
      books, sheets, open := Put(books, i, b), Put(sheets, i, h), Put(open, i, true);
      if last >= i {
        last := last + 1;
      }
    }

    /** The new sheet has place i and is open; every other sheet keeps its flag, and the last hit its sheet. */
    ghost predicate Joined(books0: seq<B.Book>, sheets0: seq<C.Sheet>, open0: seq<bool>, last0: int, i: nat, b: B.Book, h: C.Sheet)
      requires i <= |books0| == |sheets0| == |open0|
      reads `books, `sheets, `open, `last
    {
      && books == Put(books0, i, b) && sheets == Put(sheets0, i, h) && open == Put(open0, i, true)
      && last == if last0 >= i then last0 + 1 else last0
    }

    /** Freezing sheet i forgets what is parked in it. */
    method Freeze(i: nat)
      requires Valid() && i < |books|
      modifies this`parked, this`history
      ensures Valid() && Ran(history) && history.Then? && history.past == old(history) && history.step == C.Freeze(sheets[i])
      ensures parked == TC.Outside(old(parked), sheets[i].lo, sheets[i].hi)
    {
      hide Backed, Ran, TC.Outside;
      ghost var s := history.now;
      Kept(books, sheets, s, i);
      var h := sheets[i];
      ghost var t := s.(parked := TC.Outside(s.parked, h.lo, h.hi),
                        dropped := s.dropped + (TC.Addrs(s.parked) - TC.Addrs(TC.Outside(s.parked, h.lo, h.hi))));
      CacheStep(t, C.Freeze(h), TC.Outside(parked, h.lo, h.hi));
    }

    /** A tier begins with its head sheet and that sheet's new book. */
    constructor (b: B.Book, h: C.Sheet, slots: nat, cold: bool)
      requires b.Valid() && b.log2Min > 5 && b.lost == 0 && b.layout == map[0 := BL.FreeSeg(b.top)]
      requires h.head && h.lo < h.hi && h.lo <= b.base && b.base + b.total <= h.hi
      ensures Valid() && history == First(C.State({h}, map[], [], {}, {}, slots)) && books == [b] && sheets == [h]
      ensures open == [true] && last == NONE && parked == [] && this.slots == slots && this.cold == cold
    {
      ghost var s := C.State({h}, map[], [], {}, {}, slots);
      books, sheets, open, last, parked := [b], [h], [true], NONE, [];
      this.slots, this.cold := slots, cold;
      history := First(s);
      new;
      hide B.Book.Valid;
      HeadStarts(b, s, h);
    }
  }

  // ---- sweeps ----

  /** Which sheets a sweep would give back. */
  ghost function Going(books: seq<B.Book>, sheets: seq<C.Sheet>): (r: seq<bool>)
    requires |books| == |sheets|
    reads books
    ensures |r| == |books| && forall j: nat :: j < |books| ==> r[j] == Tier.Drained(books[j], sheets[j], true)
  {
    seq(|books|, j requires 0 <= j < |books| == |sheets| reads books => Tier.Drained(books[j], sheets[j], true))
  }

  /** Of the entries from k on, those that stay. */
  function Staying<X>(s: seq<X>, gone: seq<bool>, k: nat): (r: seq<X>)
    requires k <= |s| == |gone|
    decreases |s| - k
  {
    if k == |s| then [] else (if gone[k] then [] else [s[k]]) + Staying(s, gone, k + 1)
  }

  lemma StayingNone<X>(s: seq<X>, gone: seq<bool>)
    requires |s| == |gone|
    ensures s == s[..|s|] + Staying(s, gone, |s|)
  {
  }

  lemma StayingOne<X>(s: seq<X>, gone: seq<bool>, i: nat)
    requires i < |s| == |gone|
    ensures Staying(s, gone, i) == (if gone[i] then [] else [s[i]]) + Staying(s, gone, i + 1)
  {
  }

  lemma StayingStep<X>(s: seq<X>, gone: seq<bool>, i: nat)
    requires i < |s| == |gone|
    ensures var was, now := s[..i + 1] + Staying(s, gone, i + 1), s[..i] + Staying(s, gone, i);
            was[i] == s[i] && now == if gone[i] then Drop(was, i) else was
  {
    StayingOne(s, gone, i);
    var now := Staying(s, gone, i + 1);
    assert s[..i + 1] == s[..i] + [s[i]];
    hide Staying;
    var was := s[..i + 1] + now;
    assert was[..i] == s[..i] && was[i + 1..] == now;
    assert s[..i] + ([s[i]] + now) == was;
  }

  // ---- frees ----

  /** Which sheet the address lies in; the index finds it by binary search (TierIndex.Index.FindRange). */
  method Locate(sheets: seq<C.Sheet>, addr: nat) returns (i: int)
    ensures NONE <= i < |sheets|
    ensures i == NONE ==> forall j: nat :: j < |sheets| ==> !C.Inside(sheets[j], addr)
    ensures i != NONE ==> C.Inside(sheets[i], addr)
  {
    i := 0;
    while i < |sheets|
      invariant 0 <= i <= |sheets|
      invariant forall j: nat :: j < i ==> !C.Inside(sheets[j], addr)
    {
      if C.Inside(sheets[i], addr) {
        return;
      }
      i := i + 1;
    }
    return NONE;
  }

  lemma Stands(books: seq<B.Book>, sheets: seq<C.Sheet>, s: C.State, i: nat)
    requires Backed(books, sheets, s) && i < |books|
    ensures |sheets| == |books| && BuddySheet(books[i], s, sheets[i])
  {
  }

  lemma Kept(books: seq<B.Book>, sheets: seq<C.Sheet>, s: C.State, i: nat)
    requires Backed(books, sheets, s) && i < |books|
    ensures |sheets| == |books| && sheets[i] in s.sheets
  {
  }

  lemma NowhereRefused(sheets: seq<C.Sheet>, s: C.State, addr: nat)
    requires C.Sound(s) && (forall h :: h in s.sheets <==> h in sheets)
    requires forall j: nat :: j < |sheets| ==> !C.Inside(sheets[j], addr)
    ensures addr !in s.blocks
  {
    forall h | h in s.sheets
      ensures !C.Inside(h, addr)
    {
      assert h in sheets;
    }
    assert addr in s.blocks ==> exists h :: C.Home(s.sheets, s.blocks, addr, h);
  }

  lemma Parks(s: C.State, addr: nat, claim: C.Claim)
    requires addr in s.blocks
    ensures var t := C.Parking(s, addr, C.Recorded(s.blocks[addr], claim));
            && t.blocks == s.blocks && t.sheets == s.sheets && t.slots == s.slots
            && t.parked == s.parked + [TC.Parked(addr, C.Recorded(s.blocks[addr], claim))]
  {
  }

  lemma SettledSame(s: C.State, t: C.State, addr: nat, h: C.Sheet, gone: bool)
    requires C.Settled(s, t, addr, h, gone)
    ensures t.parked == s.parked && t.slots == s.slots
  {
  }

  lemma HeldLives(s: C.State, addr: nat)
    requires C.Sound(s) && addr in s.held
    ensures addr in s.blocks && !TC.Holds(s.parked, addr)
  {
    hide C.BooksSound, C.CacheSound;
    assert addr in s.blocks.Keys && addr !in TC.Addrs(s.parked);
  }

  lemma Swept(s: C.State, h: C.Sheet)
    requires C.Idle(s, h)
    ensures C.Next(s, C.Reclaimed(s, h), C.Sweep(h))
    ensures C.Reclaimed(s, h).parked == s.parked && C.Reclaimed(s, h).slots == s.slots
  {
  }

  /** h2 came about from h1 by steps. */
  ghost predicate After(h1: History, h2: History)
  {
    h1 == h2 || (h2.Then? && After(h1, h2.past))
  }

  lemma AfterOne(h0: History, h1: History, h2: History)
    requires After(h0, h1) && (h2 == h1 || (h2.Then? && h2.past == h1))
    ensures After(h0, h2)
  {
  }

  lemma NewSheet(s: C.State, h: C.Sheet)
    requires C.Sound(s) && h.lo < h.hi && !h.head
    requires forall g :: g in s.sheets ==> g.hi <= h.lo || h.hi <= g.lo
    ensures C.ExpandNext(s, s.(sheets := s.sheets + {h}), h)
    ensures C.Next(s, s.(sheets := s.sheets + {h}), C.Expand(h))
  {
    hide C.CacheSound, C.Owned;
  }

  /** The place of a sheet among those of lower and higher addresses. */
  method Position(sheets: seq<C.Sheet>, h: C.Sheet) returns (i: nat)
    ensures i <= |sheets| && (forall j: nat :: j < i ==> sheets[j].lo < h.lo) && (i < |sheets| ==> h.lo <= sheets[i].lo)
  {
    i := 0;
    while i < |sheets| && sheets[i].lo < h.lo
      invariant 0 <= i <= |sheets|
      invariant forall j: nat :: j < i ==> sheets[j].lo < h.lo
    {
      i := i + 1;
    }
  }

  lemma Above(books: seq<B.Book>, sheets: seq<C.Sheet>, s: C.State, h: C.Sheet, i: nat)
    requires Backed(books, sheets, s) && i <= |sheets| && h.lo < h.hi
    requires forall j: nat :: j < i ==> sheets[j].lo < h.lo
    requires i < |sheets| ==> h.lo <= sheets[i].lo
    requires forall g :: g in s.sheets ==> g.hi <= h.lo || h.hi <= g.lo
    ensures forall j: nat :: j < |sheets| ==> if j < i then sheets[j].lo < h.lo else h.lo < sheets[j].lo
  {
    hide C.CacheSound, C.Owned, BuddySheet, Apart;
    forall j: nat | i <= j < |sheets|
      ensures h.lo < sheets[j].lo
    {
      assert sheets[j] in s.sheets;
    }
  }

  lemma HeadStarts(b: B.Book, s: C.State, h: C.Sheet)
    requires b.Valid() && b.log2Min > 5 && b.lost == 0 && b.layout == map[0 := BL.FreeSeg(b.top)]
    requires h.lo < h.hi && h.lo <= b.base && b.base + b.total <= h.hi
    requires s == C.State({h}, map[], [], {}, {}, s.slots)
    ensures C.Start(s) && Backed([b], [h], s)
  {
    hide B.Book.Valid;
    assert TC.Addrs([]) == {};
    assert Granted(b.layout) == map[];
    assert NoTemporals(b.layout);
    assert C.Sound(s);
    assert BuddySheet(b, s, h);
  }

  lemma SameSheets(s: C.State, addr: nat)
    ensures C.Unbook(s, addr).sheets == s.sheets
  {
  }

  lemma BackedSound(books: seq<B.Book>, sheets: seq<C.Sheet>, s: C.State)
    requires Backed(books, sheets, s)
    ensures C.Sound(s) && forall h :: h in s.sheets <==> h in sheets
  {
  }

  /** What a mark hands out was held by nobody. */
  lemma NewlyHeld(h: History)
    requires Ran(h) && h.Then? && h.step.Mark? && C.Sound(h.past.now)
    ensures h.step.addr in h.now.held && h.step.addr !in h.past.now.held
  {
    hide C.BooksSound, C.CacheSound;
    assert C.MarkNext(h.past.now, h.now, h.step.sz, h.step.addr, h.step.h);
    assert h.past.now.held <= h.past.now.blocks.Keys;
  }

  lemma HitStep(books: seq<B.Book>, sheets: seq<C.Sheet>, s: C.State, sz: nat, hit: nat)
    requires Backed(books, sheets, s) && hit < |s.parked| && hit == TC.LastFit(s.parked, sz % C.U32)
    requires s.slots > 0 ==> sz <= C.CLASS_HUGE
    ensures var t := s.(parked := TC.SwapRemove(s.parked, hit), held := s.held + {s.parked[hit].addr});
            C.Next(s, t, C.Hit(sz)) && s.parked[hit].addr !in s.held
    ensures s.parked[hit].addr in s.blocks && sz <= s.parked[hit].size <= s.blocks[s.parked[hit].addr]
  {
    hide BuddySheet, C.BooksSound;
    C.IsHeld(s.parked, hit);
    assert s.parked[hit] in s.parked;
    assert s.parked[hit].addr in TC.Addrs(s.parked);
  }

  // ---- what was freed can be had again ----

  /** A block that went back leaves room for every request it could serve. */
  lemma RoomAgain(b: B.Book, m: Layout, x: nat, o: nat, sz: nat)
    requires b.Valid() && BL.Sound(m, b.top) && x in m && m[x] == Seg(Pow2(o), Alloc) && o <= b.top
    requires b.layout == BL.MergeUp(m, x, o, b.top) && sz + HDR <= B.OrderSize(o, b.log2Min)
    ensures CanServe(b, sz)
  {
    hide B.Book.ValidMasked, Pow2, Shl, B.OrderForSize, BL.MergeUp, BL.Gap, Aligned, Accounted;
    var p := B.OrderForSize(sz + HDR, b.log2Min);
    SmallerOrder(sz + HDR, o, p, b.log2Min);
    PoolSizes(b, o);
    BL.MergeUpOccupied(m, x, o, b.top);
    GapAgain(m, b.layout, x, o, p, b.top);
    assert Aligned(x, p) && x + Pow2(p) <= Pow2(b.top) && BL.Gap(b.layout, x, p);
  }

  lemma SmallerOrder(n: nat, o: nat, p: nat, k: nat)
    requires 0 < n <= B.OrderSize(o, k) && p == B.OrderForSize(n, k)
    ensures p <= o
  {
    hide B.OrderForSize, Pow2, Shl;
    if o < p {
      Pow2Le(o, p - 1);
      ShlMono(Pow2(p - 1), Pow2(o), k);
    }
  }

  lemma PoolSizes(b: B.Book, o: nat)
    requires b.Valid() && o <= b.top
    ensures B.OrderSize(o, b.log2Min) < WORD_SIZE
  {
    hide B.Book.ValidMasked, Pow2, Shl, Accounted;
    b.PoolSize();
    B.OrderSizeBelow(o, b.top, b.log2Min);
  }

  lemma GapAgain(m: Layout, n: Layout, x: nat, o: nat, p: nat, top: nat)
    requires BL.Sound(m, top) && x in m && m[x] == Seg(Pow2(o), Alloc) && p <= o <= top && Occupied(n) == Occupied(m) - {x}
    ensures Aligned(x, p) && x + Pow2(p) <= Pow2(top) && BL.Gap(n, x, p)
  {
    hide Pow2, Aligned, BL.Canonical, Log2, BL.Dyadic;
    BL.BlockDyadic(m, x, top);
    Log2OfPow2(o);
    AlignedWeaken(x, p, o);
    Pow2Le(p, o);
    assert Linked(m, x, Pow2(top));
    forall t | t in n && !n[t].kind.Free?
      ensures End(n, t) <= x || x + Pow2(p) <= t
    {
      assert t in Occupied(n) && t in Occupied(m) && t != x && m[t] == n[t];
    }
  }

  /** A free whose block the book took back makes the book serve what the block served. */
  lemma ReturnedServes(b: B.Book, m: Layout, addr: nat, size: nat, sz: nat)
    requires b.Valid() && BL.Sound(m, b.top) && Returned(b, m, addr) && sz <= size
    requires forall x :: x in m && b.Address(x) == addr ==> size == Shl(m[x].size, b.log2Min) - HDR
    ensures CanServe(b, sz)
  {
    hide B.Book.Valid, Pow2, Shl, BL.MergeUp, BL.Sound, CanServe;
    var x: nat, o: nat :| ReturnedAt(b, m, addr, x, o);
    RoomAgain(b, m, x, o, sz);
  }

  /** The size of the block at addr, in units of its book. */
  lemma SizeThere(b: B.Book, s: C.State, h: C.Sheet, addr: nat)
    requires BuddySheet(b, s, h) && C.Inside(h, addr) && addr in s.blocks
    ensures BL.Sound(b.layout, b.top)
    ensures forall x :: x in b.layout && b.Address(x) == addr ==> s.blocks[addr] == Shl(b.layout[x].size, b.log2Min) - HDR
  {
    hide BuddySheet, Shl;
    var y := BlockGranted(b, s, h, addr);
    GrantedBlock(b, s, h, y);
    forall x | x in b.layout && b.Address(x) == addr
      ensures x == y
    {
      PlaceInjective(b.base, b.log2Min, x, y);
    }
    SheetSoundly(b, s, h);
  }

  lemma SheetSoundly(b: B.Book, s: C.State, h: C.Sheet)
    requires BuddySheet(b, s, h)
    ensures b.Valid() && BL.Sound(b.layout, b.top)
  {
  }

  /** After a free, the cache or the open sheet of the block serves every request that the block is large enough for. */
  method FreeLeavesRoom(tier: Tier, addr: nat, claim: C.Claim, ghost sz: nat) returns (ghost at: nat, ghost gone: bool)
    requires tier.Valid() && !C.Refused(tier.history.now, addr) && (tier.slots > 0 ==> sz <= C.CLASS_HUGE)
    modifies tier`books, tier`sheets, tier`open, tier`last, tier`parked, tier`history, Feet(tier.books)
    ensures tier.Valid()
    ensures |old(tier.parked)| < tier.slots && sz <= C.Recorded(old(tier.history.now.blocks)[addr], claim) ==>
              TC.LastFit(tier.parked, sz % C.U32) >= 0
    ensures |old(tier.parked)| >= tier.slots && !tier.cold && sz <= old(tier.history.now.blocks)[addr] && !gone ==>
              at < |tier.open| && tier.open[at] && at in Roomy(tier.books, sz)
    ensures |old(tier.parked)| >= tier.slots ==> at < |old(tier.sheets)| && C.Inside(old(tier.sheets)[at], addr)
    ensures |old(tier.parked)| >= tier.slots && !tier.cold ==>
              (gone <==> C.Idle(C.Unbook(old(tier.history.now), addr), old(tier.sheets)[at]))
    ensures Feet(tier.books) <= Feet(old(tier.books))
  {
    hide Backed, BuddySheet, Ran, C.Sound, C.Recorded, C.Idle, TC.LastFit, CanServe, Returned, C.Unbook, ReturnedFrom, Roomy, Tier.Mostly, Feet, Drop;
    ghost var s := tier.history.now;
    Everywhere(tier.books, tier.sheets, s, addr);
    ghost var was := Layouts(tier.books);
    var ok;
    ok, at := tier.Free(addr, claim);
    gone := tier.history.step.reclaim;
    FeetDrop(old(tier.books), at);
    if |old(tier.parked)| < tier.slots {
      LastServes(tier.parked, sz);
    } else if !tier.cold && !gone && sz <= s.blocks[addr] {
      Served(tier.books, tier.sheets, tier.history.now, at, was[at], addr, s.blocks[addr], sz);
    }
  }

  /** The sheet of the block at addr is the head, or has another block. */
  ghost predicate Stays(sheets: seq<C.Sheet>, s: C.State, addr: nat)
  {
    forall h :: h in sheets && C.Inside(h, addr) ==> !C.Idle(C.Unbook(s, addr), h)
  }

  /**
   A block that was accepted back serves the next request that it is large enough for: from the cache, or
   from its sheet's book, unless its sheet was given back with it.
   */
  method FreeThenAlloc(tier: Tier, addr: nat, claim: C.Claim, sz: nat) returns (r: Chunk)
    requires tier.Valid() && (tier.slots > 0 ==> sz <= C.CLASS_HUGE) && !C.Refused(tier.history.now, addr)
    modifies tier`books, tier`sheets, tier`open, tier`last, tier`parked, tier`history, Feet(tier.books)
    ensures tier.Valid()
    ensures |old(tier.parked)| < tier.slots && sz <= C.Recorded(old(tier.history.now.blocks)[addr], claim) ==> r.Chunk?
    ensures |old(tier.parked)| >= tier.slots && !tier.cold && sz <= old(tier.history.now.blocks)[addr] && Stays(old(tier.sheets), old(tier.history.now), addr) ==>
              r.Chunk?
  {
    hide Backed, BuddySheet, Ran, C.Recorded, C.Idle, TC.LastFit, Roomy, Tried, Feet;
    ghost var at, gone;
    at, gone := FreeLeavesRoom(tier, addr, claim, sz);
    r := tier.Alloc(sz);
  }

  lemma FeetDrop(books: seq<B.Book>, i: nat)
    ensures i < |books| ==> Feet(Drop(books, i)) <= Feet(books)
  {
  }

  ghost function Layouts(books: seq<B.Book>): (r: seq<Layout>)
    reads books
    ensures |r| == |books| && forall i: nat :: i < |books| ==> r[i] == books[i].layout
  {
    seq(|books|, i requires 0 <= i < |books| reads books => books[i].layout)
  }

  /** The block at addr, in the layout of the book whose sheet has the address. */
  ghost predicate ReturnedFrom(b: B.Book, m: Layout, addr: nat, size: nat)
  {
    BL.Sound(m, b.top) && forall x :: x in m && b.Address(x) == addr ==> size == Shl(m[x].size, b.log2Min) - HDR
  }

  lemma Everywhere(books: seq<B.Book>, sheets: seq<C.Sheet>, s: C.State, addr: nat)
    requires Backed(books, sheets, s) && addr in s.blocks
    ensures |books| == |sheets|
    ensures forall i: nat :: i < |books| && C.Inside(sheets[i], addr) ==> ReturnedFrom(books[i], books[i].layout, addr, s.blocks[addr])
  {
    hide BuddySheet, Shl, Apart, C.Sound, Listing;
    forall i: nat | i < |books| && C.Inside(sheets[i], addr)
      ensures ReturnedFrom(books[i], books[i].layout, addr, s.blocks[addr])
    {
      SizeThere(books[i], s, sheets[i], addr);
    }
  }

  lemma Served(books: seq<B.Book>, sheets: seq<C.Sheet>, s: C.State, i: nat, m: Layout, addr: nat, size: nat, sz: nat)
    requires Backed(books, sheets, s) && i < |books| && Returned(books[i], m, addr) && sz <= size
    requires ReturnedFrom(books[i], m, addr, size)
    ensures i in Roomy(books, sz)
  {
    hide Backed, BuddySheet, Returned, BL.Sound, Shl, CanServe;
    Stands(books, sheets, s, i);
    SheetSoundly(books[i], s, sheets[i]);
    ReturnedServes(books[i], m, addr, size, sz);
  }

  lemma LastServes(parked: seq<TC.Parked>, sz: nat)
    requires parked != [] && sz <= C.CLASS_HUGE
    ensures sz <= parked[|parked| - 1].size ==> TC.LastFit(parked, sz % C.U32) >= 0
  {
  }

  // ---- what a tier of real books keeps ----

  /** What clients hold at any moment: blocks their sheets' books have granted, clear of one another and of what is parked. */
  lemma HeldAreGranted(tier: Tier, a: nat, b: nat)
    requires tier.Valid() && a in tier.history.now.held
    ensures exists i: nat :: i < |tier.books| == |tier.sheets| && C.Inside(tier.sheets[i], a) && tier.books[i].Names(a)
    ensures var s := tier.history.now;
            && a in s.blocks && !TC.Holds(tier.parked, a)
            && (b in s.blocks && b != a ==> C.Clear(a, s.blocks[a], b, s.blocks[b]))
  {
    hide Ran, BuddySheet, Apart, C.CacheSound;
    var s := tier.history.now;
    HeldLives(s, a);
    var h :| C.Home(s.sheets, s.blocks, a, h);
    var i: nat :| i < |tier.sheets| && tier.sheets[i] == h;
    var x := BlockGranted(tier.books[i], s, h, a);
  }
}
