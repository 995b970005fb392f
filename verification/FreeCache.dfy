/**
 A tier's sheets, its free cache and its clients, step by step. A freed block may be parked: the book
 still counts it as allocated, so nothing but the cache can hand it out again.
 */
module FreeCache {
  import opened TierCache

  const U32: nat := 0x1_0000_0000
  /** The largest request that a tier with cache slots serves. */
  const CLASS_HUGE: nat := 0x4_0000

  /** A registered sheet's address range; a tier's head sheet is never given back. */
  datatype Sheet = Sheet(lo: nat, hi: nat, head: bool)

  /** blocks maps the start of each block its book counts as allocated to its capacity. */
  datatype State = State(
    sheets: set<Sheet>,
    blocks: map<nat, nat>,
    parked: seq<Parked>,
    held: set<nat>,
    dropped: set<nat>,
    slots: nat)

  /** What a caller says about the length of the block it frees. */
  datatype Claim = Whole | Bytes(len: nat)

  datatype Step =
    | Hit(sz: nat)
    | Mark(sz: nat, addr: nat, h: Sheet)
    | Free(addr: nat, claim: Claim, h: Sheet, reclaim: bool)
    | Tombstone(addr: nat, h: Sheet, reclaim: bool)
    | Expand(h: Sheet)
    | Sweep(h: Sheet)
    | Freeze(h: Sheet)

  predicate Inside(h: Sheet, addr: nat)
  {
    h.lo <= addr < h.hi
  }

  // ---- the steps ----

  /** The size a push records, in 32 bits. */
  function Recorded(capacity: nat, claim: Claim): nat
  {
    (match claim
     case Whole => capacity
     case Bytes(len) => if len > capacity then capacity else len) % U32
  }

  /**
   used() == 0 on a sheet that may be given back. TierBooks shows for both books that their byte counter
   is zero exactly when this holds (BuddyUsed, TlsfUsed).
   */
  ghost predicate Idle(s: State, h: Sheet)
  {
    h in s.sheets && !h.head && forall a :: a in s.blocks ==> !Inside(h, a)
  }

  ghost function Parking(s: State, addr: nat, size: nat): State
  {
    s.(parked := s.parked + [Parked(addr, size)], held := s.held - {addr}, dropped := s.dropped - {addr})
  }

  /** The book frees or tombstones the block at addr. */
  ghost function Unbook(s: State, addr: nat): State
  {
    s.(blocks := s.blocks - {addr}, held := s.held - {addr}, dropped := s.dropped - {addr})
  }

  ghost function Reclaimed(s: State, h: Sheet): State
  {
    s.(sheets := s.sheets - {h})
  }

  /** After a block of h has left the book, h itself may go, but only when nothing is left in it. */
  ghost predicate Settled(s: State, t: State, addr: nat, h: Sheet, reclaim: bool)
  {
    && h in s.sheets && Inside(h, addr)
    && (reclaim ==> Idle(Unbook(s, addr), h))
    && t == (if reclaim then Reclaimed(Unbook(s, addr), h) else Unbook(s, addr))
  }

  ghost predicate HitNext(s: State, t: State, sz: nat)
  {
    var i := LastFit(s.parked, sz % U32);
    && sz <= CLASS_HUGE
    && i >= 0
    && t == s.(parked := SwapRemove(s.parked, i), held := s.held + {s.parked[i].addr})
  }

  predicate Clear(a: nat, n: nat, b: nat, m: nat)
  {
    a + n <= b || b + m <= a
  }

  /** What the books promise about a block they hand out: it fits, it is inside, it overlaps nothing. */
  ghost predicate MarkNext(s: State, t: State, sz: nat, addr: nat, h: Sheet)
  {
    && LastFit(s.parked, sz % U32) < 0
    && h in s.sheets
    && addr in t.blocks && addr !in s.blocks
    && t == s.(blocks := s.blocks[addr := t.blocks[addr]], held := s.held + {addr})
    && 0 < t.blocks[addr] && sz <= t.blocks[addr]
    && h.lo <= addr && addr + t.blocks[addr] <= h.hi
    && forall b :: b in s.blocks ==> Clear(addr, t.blocks[addr], b, s.blocks[b])
  }

  /** An address that starts no allocated block, or that is parked already, is refused. */
  ghost predicate Refused(s: State, addr: nat)
  {
    addr !in s.blocks || Holds(s.parked, addr)
  }

  ghost predicate FreeNext(s: State, t: State, addr: nat, claim: Claim, h: Sheet, reclaim: bool)
  {
    if Refused(s, addr) then t == s
    else if |s.parked| < s.slots then t == Parking(s, addr, Recorded(s.blocks[addr], claim))
    else Settled(s, t, addr, h, reclaim)
  }

  /** The forced tombstone does not ask the cache. */
  ghost predicate TombstoneNext(s: State, t: State, addr: nat, h: Sheet, reclaim: bool)
  {
    addr in s.blocks && Settled(s, t, addr, h, reclaim)
  }

  ghost predicate ExpandNext(s: State, t: State, h: Sheet)
  {
    && h.lo < h.hi && !h.head && h !in s.sheets
    && (forall g :: g in s.sheets ==> g.hi <= h.lo || h.hi <= g.lo)
    && t == s.(sheets := s.sheets + {h})
  }

  ghost predicate SweepNext(s: State, t: State, h: Sheet)
  {
    Idle(s, h) && t == Reclaimed(s, h)
  }

  /** Freezing a sheet forgets what is parked in it; those blocks stay allocated for good. */
  ghost predicate FreezeNext(s: State, t: State, h: Sheet)
  {
    && h in s.sheets
    && t == s.(parked := Outside(s.parked, h.lo, h.hi),
               dropped := s.dropped + (Addrs(s.parked) - Addrs(Outside(s.parked, h.lo, h.hi))))
  }

  /** Clients tombstone only what they hold; every other call is taken from anyone with any argument. */
  ghost predicate Next(s: State, t: State, step: Step)
  {
    match step
    case Hit(sz) => HitNext(s, t, sz)
    case Mark(sz, addr, h) => MarkNext(s, t, sz, addr, h)
    case Free(addr, claim, h, reclaim) => FreeNext(s, t, addr, claim, h, reclaim)
    case Tombstone(addr, h, reclaim) => addr in s.held && TombstoneNext(s, t, addr, h, reclaim)
    case Expand(h) => ExpandNext(s, t, h)
    case Sweep(h) => SweepNext(s, t, h)
    case Freeze(h) => FreezeNext(s, t, h)
  }

  // ---- the invariant ----

  ghost predicate Home(sheets: set<Sheet>, blocks: map<nat, nat>, a: nat, h: Sheet)
    requires a in blocks
  {
    h in sheets && h.lo <= a && a + blocks[a] <= h.hi
  }

  /** Sheets are disjoint, every block lies in one, and blocks are disjoint. */
  ghost predicate BooksSound(sheets: set<Sheet>, blocks: map<nat, nat>)
  {
    && (forall h :: h in sheets ==> h.lo < h.hi)
    && (forall g, h :: g in sheets && h in sheets && g != h ==> g.hi <= h.lo || h.hi <= g.lo)
    && (forall a :: a in blocks ==> 0 < blocks[a] && exists h :: Home(sheets, blocks, a, h))
    && (forall a, b :: a in blocks && b in blocks && a != b ==> Clear(a, blocks[a], b, blocks[b]))
  }

  ghost predicate ParkedFit(parked: seq<Parked>, blocks: map<nat, nat>)
  {
    forall e :: e in parked ==> e.addr in blocks && e.size <= blocks[e.addr]
  }

  ghost predicate CacheSound(parked: seq<Parked>, blocks: map<nat, nat>, slots: nat)
  {
    ParkedFit(parked, blocks) && Distinct(parked) && |parked| <= slots
  }

  /** Every allocated block is held by a client, parked, or forgotten by a freeze, and only one of these. */
  ghost predicate Owned(blocks: set<nat>, held: set<nat>, parked: set<nat>, dropped: set<nat>)
  {
    && blocks == held + parked + dropped
    && held !! parked
    && held !! dropped
    && parked !! dropped
  }

  ghost predicate Sound(s: State)
  {
    && BooksSound(s.sheets, s.blocks)
    && CacheSound(s.parked, s.blocks, s.slots)
    && Owned(s.blocks.Keys, s.held, Addrs(s.parked), s.dropped)
  }

  /** A tier starts with its head sheet, an empty cache and no blocks. */
  ghost predicate Start(s: State)
  {
    s.blocks == map[] && s.parked == [] && s.held == {} && s.dropped == {} && BooksSound(s.sheets, s.blocks)
  }

  ghost predicate Run(states: seq<State>, steps: seq<Step>)
  {
    && |states| == |steps| + 1
    && Start(states[0])
    && forall i :: 0 <= i < |steps| ==> Next(states[i], states[i + 1], steps[i])
  }

  // ---- every step keeps the invariant ----

  lemma IsHeld(s: seq<Parked>, i: nat)
    requires i < |s|
    ensures Holds(s, s[i].addr)
  {
  }

  lemma SwapRemoveFit(s: seq<Parked>, i: nat, blocks: map<nat, nat>, slots: nat)
    requires CacheSound(s, blocks, slots) && i < |s|
    ensures CacheSound(SwapRemove(s, i), blocks, slots)
    ensures s[i].addr in Addrs(s) && Addrs(SwapRemove(s, i)) == Addrs(s) - {s[i].addr}
  {
    SwapRemoveAddrs(s, i);
    IsHeld(s, i);
  }

  lemma HitKeeps(s: State, t: State, sz: nat)
    requires Sound(s) && HitNext(s, t, sz)
    ensures Sound(t)
  {
    hide LastFit, SwapRemove, Distinct, Holds, BooksSound, CacheSound, Addrs;
    var i: nat := LastFit(s.parked, sz % U32);
    SwapRemoveFit(s.parked, i, s.blocks, s.slots);
  }

  /** A block that overlaps nothing joins the book. */
  lemma BookGains(sheets: set<Sheet>, blocks: map<nat, nat>, addr: nat, size: nat, h: Sheet)
    requires BooksSound(sheets, blocks) && addr !in blocks
    requires 0 < size && h in sheets && h.lo <= addr && addr + size <= h.hi
    requires forall b :: b in blocks ==> Clear(addr, size, b, blocks[b])
    ensures BooksSound(sheets, blocks[addr := size])
  {
    var after := blocks[addr := size];
    forall a | a in after
      ensures 0 < after[a] && exists g :: Home(sheets, after, a, g)
    {
      if a == addr {
        assert Home(sheets, after, a, h);
      } else {
        var g :| Home(sheets, blocks, a, g);
        assert Home(sheets, after, a, g);
      }
    }
  }

  lemma MarkKeeps(s: State, t: State, sz: nat, addr: nat, h: Sheet)
    requires Sound(s) && MarkNext(s, t, sz, addr, h)
    ensures Sound(t)
  {
    hide LastFit, Distinct, Holds, BooksSound, Addrs;
    BookGains(s.sheets, s.blocks, addr, t.blocks[addr], h);
    assert t.blocks == s.blocks[addr := t.blocks[addr]];
  }

  lemma ParkingKeeps(s: State, addr: nat, claim: Claim)
    requires Sound(s) && !Refused(s, addr) && |s.parked| < s.slots
    ensures Sound(Parking(s, addr, Recorded(s.blocks[addr], claim)))
  {
    hide BooksSound;
    var size := Recorded(s.blocks[addr], claim);
    AddrsPush(s.parked, Parked(addr, size));
  }

  lemma AddrsPush(s: seq<Parked>, e: Parked)
    ensures Addrs(s + [e]) == Addrs(s) + {e.addr}
  {
    forall a | a in Addrs(s) + {e.addr}
      ensures a in Addrs(s + [e])
    {
      if a in Addrs(s) {
        var i :| 0 <= i < |s| && s[i].addr == a;
        assert (s + [e])[i].addr == a;
      } else {
        assert (s + [e])[|s|].addr == a;
      }
    }
  }

  lemma BookLoses(sheets: set<Sheet>, blocks: map<nat, nat>, addr: nat)
    requires BooksSound(sheets, blocks)
    ensures BooksSound(sheets, blocks - {addr})
  {
    var after := blocks - {addr};
    forall a | a in after
      ensures 0 < after[a] && exists g :: Home(sheets, after, a, g)
    {
      var g :| Home(sheets, blocks, a, g);
      assert Home(sheets, after, a, g);
    }
  }

  lemma StillFit(parked: seq<Parked>, blocks: map<nat, nat>, addr: nat)
    requires ParkedFit(parked, blocks) && addr !in Addrs(parked)
    ensures ParkedFit(parked, blocks - {addr})
  {
    forall e | e in parked
      ensures e.addr in blocks - {addr}
    {
      InParked(parked, e);
    }
  }

  lemma InParked(parked: seq<Parked>, e: Parked)
    requires e in parked
    ensures e.addr in Addrs(parked)
  {
    var i: nat :| i < |parked| && parked[i] == e;
    IsHeld(parked, i);
  }

  lemma UnbookKeeps(s: State, addr: nat)
    requires Sound(s) && addr !in Addrs(s.parked)
    ensures Sound(Unbook(s, addr))
  {
    hide Distinct, BooksSound, ParkedFit, Addrs;
    BookLoses(s.sheets, s.blocks, addr);
    StillFit(s.parked, s.blocks, addr);
  }

  /** A sheet without blocks can go: every block's home is another sheet. */
  lemma ReclaimKeeps(s: State, h: Sheet)
    requires Sound(s) && Idle(s, h)
    ensures Sound(Reclaimed(s, h))
  {
    hide CacheSound, Owned;
    var t := Reclaimed(s, h);
    forall a | a in t.blocks
      ensures exists g :: Home(t.sheets, t.blocks, a, g)
    {
      var g :| Home(s.sheets, s.blocks, a, g);
      assert Inside(g, a);
      assert Home(t.sheets, t.blocks, a, g);
    }
  }

  lemma SettledKeeps(s: State, t: State, addr: nat, h: Sheet, reclaim: bool)
    requires Sound(s) && addr !in Addrs(s.parked) && Settled(s, t, addr, h, reclaim)
    ensures Sound(t)
  {
    hide Sound, Addrs;
    UnbookKeeps(s, addr);
    if reclaim {
      ReclaimKeeps(Unbook(s, addr), h);
    }
  }

  lemma ExpandKeeps(s: State, t: State, h: Sheet)
    requires Sound(s) && ExpandNext(s, t, h)
    ensures Sound(t)
  {
    hide CacheSound, Owned;
    forall a | a in t.blocks
      ensures exists g :: Home(t.sheets, t.blocks, a, g)
    {
      var g :| Home(s.sheets, s.blocks, a, g);
      assert Home(t.sheets, t.blocks, a, g);
    }
  }

  lemma FreezeKeeps(s: State, t: State, h: Sheet)
    requires Sound(s) && FreezeNext(s, t, h)
    ensures Sound(t)
  {
    hide BooksSound, Distinct, Outside, Holds;
    OutsideMembers(s.parked, h.lo, h.hi);
    OutsideDistinct(s.parked, h.lo, h.hi);
    SubAddrs(t.parked, s.parked);
  }

  lemma SubAddrs(t: seq<Parked>, s: seq<Parked>)
    requires forall e :: e in t ==> e in s
    ensures Addrs(t) <= Addrs(s)
  {
    forall a | a in Addrs(t)
      ensures a in Addrs(s)
    {
      var i :| 0 <= i < |t| && t[i].addr == a;
      assert t[i] in t;
      InParked(s, t[i]);
    }
  }

  lemma StepKeeps(s: State, t: State, step: Step)
    requires Sound(s) && Next(s, t, step)
    ensures Sound(t)
  {
    match step
    case Hit(sz) => HitKeeps(s, t, sz);
    case Mark(sz, addr, h) => MarkKeeps(s, t, sz, addr, h);
    case Free(addr, claim, h, reclaim) =>
      if !Refused(s, addr) {
        if |s.parked| < s.slots {
          ParkingKeeps(s, addr, claim);
        } else {
          SettledKeeps(s, t, addr, h, reclaim);
        }
      }
    case Tombstone(addr, h, reclaim) => SettledKeeps(s, t, addr, h, reclaim);
    case Expand(h) => ExpandKeeps(s, t, h);
    case Sweep(h) => ReclaimKeeps(s, h);
    case Freeze(h) => FreezeKeeps(s, t, h);
  }

  lemma {:induction false} RunKeeps(states: seq<State>, steps: seq<Step>)
    requires Run(states, steps)
    ensures forall i :: 0 <= i < |states| ==> Sound(states[i])
    decreases |steps|
  {
    if |steps| > 0 {
      RunKeeps(states[..|steps|], steps[..|steps| - 1]);
      StepKeeps(states[|steps| - 1], states[|steps|], steps[|steps| - 1]);
      assert forall i :: 0 <= i < |steps| ==> states[i] == states[..|steps|][i];
    }
  }

  // ---- what the cache promises ----

  lemma ParkedIsGood(s: State, i: nat)
    requires Sound(s) && i < |s.parked|
    ensures s.parked[i].addr in s.blocks && s.parked[i].size <= s.blocks[s.parked[i].addr]
    ensures forall b :: b in s.held ==>
              b in s.blocks && Clear(s.parked[i].addr, s.blocks[s.parked[i].addr], b, s.blocks[b])
  {
    hide Distinct, Holds;
    IsHeld(s.parked, i);
    assert s.parked[i] in s.parked;
    assert s.parked[i].addr in Addrs(s.parked);
    assert forall b :: b in s.held ==> b in s.blocks.Keys;
  }

  /** A hit is a block of at least the request that overlaps no block any client holds. */
  lemma HitIsGood(states: seq<State>, steps: seq<Step>, i: nat, sz: nat)
    requires Run(states, steps) && i < |steps| && steps[i] == Hit(sz)
    ensures var s, t := states[i], states[i + 1];
            var hit := LastFit(s.parked, sz % U32);
            && hit >= 0
            && s.parked[hit].addr in s.blocks
            && sz <= s.parked[hit].size <= s.blocks[s.parked[hit].addr]
            && t.held == s.held + {s.parked[hit].addr}
            && forall b :: b in s.held ==>
                 && b in s.blocks
                 && Clear(s.parked[hit].addr, s.blocks[s.parked[hit].addr], b, s.blocks[b])
  {
    hide Sound, Start, LastFit, SwapRemove;
    RunKeeps(states, steps);
    var s := states[i];
    assert Next(s, states[i + 1], steps[i]);
    var hit: nat := LastFit(s.parked, sz % U32);
    ParkedIsGood(s, hit);
  }

  /** No step gives back a sheet while a parked, held or forgotten block lies in it. */
  lemma ReclaimedIsEmpty(states: seq<State>, steps: seq<Step>, i: nat, h: Sheet)
    requires Run(states, steps) && i < |steps| && h in states[i].sheets && h !in states[i + 1].sheets
    ensures !h.head
    ensures forall e :: e in states[i + 1].parked ==> !Inside(h, e.addr)
    ensures forall a :: a in states[i + 1].held + states[i + 1].dropped ==> !Inside(h, a)
  {
    hide Sound, Start, HitNext, FreezeNext, MarkNext, ExpandNext;
    RunKeeps(states, steps);
    assert Next(states[i], states[i + 1], steps[i]);
    LostIsIdle(states[i], states[i + 1], steps[i], h);
    IdleIsEmpty(states[i + 1], h);
  }

  lemma LostIsIdle(s: State, t: State, step: Step, h: Sheet)
    requires Next(s, t, step) && h in s.sheets && h !in t.sheets
    ensures !h.head && forall a :: a in t.blocks ==> !Inside(h, a)
  {
    hide LastFit, SwapRemove, Outside, Holds, Addrs;
  }

  lemma IdleIsEmpty(s: State, h: Sheet)
    requires Sound(s) && forall a :: a in s.blocks ==> !Inside(h, a)
    ensures forall e :: e in s.parked ==> !Inside(h, e.addr)
    ensures forall a :: a in s.held + s.dropped ==> !Inside(h, a)
  {
    hide BooksSound, Distinct, Holds, Inside;
    forall a | a in s.held + s.dropped
      ensures a in s.blocks
    {
      assert a in s.blocks.Keys;
    }
  }

  /** Without a freeze, a free is accepted exactly when a client holds the block. */
  lemma FreeAcceptedIffHeld(s: State, addr: nat)
    requires Sound(s) && s.dropped == {}
    ensures !Refused(s, addr) <==> addr in s.held
  {
    assert addr in s.blocks.Keys <==> addr in s.blocks;
    assert Holds(s.parked, addr) <==> addr in Addrs(s.parked);
  }

  /** A second free of the same block, with nothing in between, changes nothing. */
  lemma DoubleFreeRefused(s: State, t: State, addr: nat, claim: Claim, again: Claim, h: Sheet, reclaim: bool)
    requires !Refused(s, addr) && FreeNext(s, t, addr, claim, h, reclaim)
    ensures forall u, g, r :: FreeNext(t, u, addr, again, g, r) ==> u == t
  {
    if |s.parked| < s.slots {
      var size := Recorded(s.blocks[addr], claim);
      assert t.parked[|s.parked|] == Parked(addr, size);
      assert Holds(t.parked, addr);
    }
  }

  /** Freeing into the cache and asking again for no more than was recorded gives the block back and undoes the free. */
  lemma FreeThenHit(s: State, t: State, addr: nat, claim: Claim, h: Sheet, reclaim: bool, sz: nat)
    requires Sound(s) && addr in s.held && |s.parked| < s.slots
    requires addr in s.blocks && sz <= CLASS_HUGE && sz <= Recorded(s.blocks[addr], claim)
    requires FreeNext(s, t, addr, claim, h, reclaim)
    ensures forall u :: HitNext(t, u, sz) <==> u == s
  {
    hide BooksSound, ParkedFit, Distinct;
    var e := Parked(addr, Recorded(s.blocks[addr], claim));
    assert !Holds(s.parked, addr) by {
      assert addr !in Addrs(s.parked);
    }
    assert t.parked == s.parked + [e];
    assert LastFit(t.parked, sz % U32) == |s.parked|;
    assert SwapRemove(t.parked, |s.parked|) == s.parked;
    assert t.held + {addr} == s.held && t.dropped == s.dropped;
  }

  /** The forced tombstone keeps the invariant exactly when the block is not parked. */
  lemma TombstoneSoundIff(s: State, t: State, addr: nat, h: Sheet, reclaim: bool)
    requires Sound(s) && TombstoneNext(s, t, addr, h, reclaim)
    ensures Sound(t) <==> !Holds(s.parked, addr)
  {
    if Holds(s.parked, addr) {
      var i :| 0 <= i < |s.parked| && s.parked[i].addr == addr;
      assert t.parked[i] in t.parked;
      assert addr !in t.blocks;
    } else {
      SettledKeeps(s, t, addr, h, reclaim);
    }
  }

  /**
   A run that reaches such a call: a client frees its block into the cache, and the block is tombstoned
   all the same. The cache then holds a block its book no longer counts, ready to be handed out.
   */
  lemma ParkedThenTombstoned(slots: nat) returns (states: seq<State>, steps: seq<Step>, t: State, addr: nat, h: Sheet)
    requires slots > 0
    ensures Run(states, steps) && |states| == 3
    ensures steps[0].Mark? && steps[1] == Free(addr, Whole, h, false) && Holds(states[2].parked, addr)
    ensures TombstoneNext(states[2], t, addr, h, false) && !Sound(t)
    ensures exists u :: HitNext(t, u, 100) && addr in u.held && addr !in u.blocks
  {
    h, addr := Sheet(4096, 8192, true), 4096;
    var s0 := State({h}, map[], [], {}, {}, slots);
    var s1 := s0.(blocks := map[addr := 992], held := {addr});
    var s2 := Parking(s1, addr, 992);
    t := Unbook(s2, addr);
    states, steps := [s0, s1, s2], [Mark(100, addr, h), Free(addr, Whole, h, false)];
    assert MarkNext(s0, s1, 100, addr, h) by {
      assert s1.blocks == s0.blocks[addr := 992] && s1.held == s0.held + {addr};
    }
    assert Next(s0, s1, steps[0]);
    assert FreeNext(s1, s2, addr, Whole, h, false);
    assert Next(s1, s2, steps[1]);
    assert s2.parked == [Parked(addr, 992)] && s2.parked[0].addr == addr;
    assert Start(s0);
    assert t.parked[0] in t.parked && t.parked[0].addr !in t.blocks;
    assert LastFit(t.parked, 100) == 0;
    var u := t.(parked := SwapRemove(t.parked, 0), held := t.held + {addr});
    assert HitNext(t, u, 100);
  }
}
