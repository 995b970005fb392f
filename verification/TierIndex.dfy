/**
 A tier's sheet index: a sorted array of address ranges, a multi-word bitmap saying which of them may
 have room, and the position that served last.
 */
module TierIndex {
  import opened Powers
  import opened Words
  import opened MaskShift

  /** A sheet's half-open address range and the list node that owns it. */
  datatype Sheet = Sheet(lo: nat, hi: nat, node: nat)

  datatype Option<T> = None | Some(value: T)

  // ---- rows and their edits ----

  function InsertAt<T>(s: seq<T>, pos: nat, x: T): seq<T>
    requires pos <= |s|
  {
    s[..pos] + [x] + s[pos..]
  }

  function DeleteAt<T>(s: seq<T>, pos: nat): seq<T>
    requires pos < |s|
  {
    s[..pos] + s[pos + 1..]
  }

  ghost predicate Wide(mask: seq<nat>)
  {
    forall i :: 0 <= i < |mask| ==> Fits(mask[i], 64)
  }

  /** Bit pos & 63 of word pos >> 6. */
  predicate Flag(mask: seq<nat>, pos: nat)
    requires pos < 64 * |mask|
  {
    BitAt(mask[pos / 64], pos % 64)
  }

  /** The mask read as one row of flags. */
  ghost function Row(mask: seq<nat>): (r: seq<bool>)
    ensures |r| == 64 * |mask|
    ensures forall p :: 0 <= p < |r| ==> r[p] == Flag(mask, p)
  {
    seq(64 * |mask|, p requires 0 <= p < 64 * |mask| => Flag(mask, p))
  }

  /** What shifting up from pos makes of word k. */
  ghost predicate WordUp(w: nat, m0: seq<nat>, pos: nat, value: bool, k: nat)
    requires k < |m0|
  {
    if k < pos / 64 then w == m0[k]
    else if k == pos / 64 then Inserted(w, m0[k], pos % 64, value, 64)
    else Inserted(w, m0[k], 0, BitAt(m0[k - 1], 63), 64)
  }

  /** Words below i have been shifted, the others not yet. */
  ghost predicate ShiftedUp(m1: seq<nat>, m0: seq<nat>, pos: nat, value: bool, i: nat)
  {
    && |m0| == |m1|
    && (forall k: nat :: k < i && k < |m0| ==> WordUp(m1[k], m0, pos, value, k))
    && (forall k: nat :: i <= k < |m0| ==> m1[k] == m0[k])
  }

  lemma FlagUp(m1: seq<nat>, m0: seq<nat>, pos: nat, value: bool, p: nat)
    requires |m0| == |m1| && pos < 64 * |m0| && p < 64 * |m0|
    requires WordUp(m1[p / 64], m0, pos, value, p / 64)
    ensures Flag(m1, p) == if p < pos then Flag(m0, p) else if p == pos then value else Flag(m0, p - 1)
  {
    hide BitAt;
    var k, j := p / 64, p % 64;
    if k == pos / 64 {
      assert BitAt(m1[k], j) <==> AfterInsert(m0[k], pos % 64, value, j);
    } else if k > pos / 64 {
      assert BitAt(m1[k], j) <==> AfterInsert(m0[k], 0, BitAt(m0[k - 1], 63), j);
    }
    if p > pos {
      assert (p - 1) / 64 == if j == 0 then k - 1 else k;
      assert (p - 1) % 64 == if j == 0 then 63 else j - 1;
    }
  }

  /** Word by word carries amount to inserting one flag and losing the last. */
  lemma RowInsert(m1: seq<nat>, m0: seq<nat>, pos: nat, value: bool)
    requires ShiftedUp(m1, m0, pos, value, |m0|) && pos < 64 * |m0|
    ensures Row(m1) == InsertAt(Row(m0), pos, value)[..64 * |m0|]
  {
    hide BitAt, Flag, WordUp;
    forall p: nat | p < 64 * |m0|
      ensures Row(m1)[p] == InsertAt(Row(m0), pos, value)[p]
    {
      FlagUp(m1, m0, pos, value, p);
    }
  }

  /** The bit that word k receives from above. */
  ghost predicate BitAbove(m0: seq<nat>, k: nat)
  {
    k + 1 < |m0| && BitAt(m0[k + 1], 0)
  }

  /** What shifting down onto pos makes of word k. */
  ghost predicate WordDown(w: nat, m0: seq<nat>, pos: nat, k: nat)
    requires k < |m0|
  {
    if k < pos / 64 then w == m0[k]
    else if k == pos / 64 then Removed(w, m0[k], pos % 64, BitAbove(m0, k), 64)
    else Removed(w, m0[k], 0, BitAbove(m0, k), 64)
  }

  ghost predicate ShiftedDown(m1: seq<nat>, m0: seq<nat>, pos: nat, i: nat)
  {
    && |m0| == |m1|
    && (forall k: nat :: k < i && k < |m0| ==> WordDown(m1[k], m0, pos, k))
    && (forall k: nat :: i <= k < |m0| ==> m1[k] == m0[k])
  }

  lemma FlagDown(m1: seq<nat>, m0: seq<nat>, pos: nat, p: nat)
    requires |m0| == |m1| && pos < 64 * |m0| && p < 64 * |m0|
    requires WordDown(m1[p / 64], m0, pos, p / 64)
    ensures Flag(m1, p) == if p < pos then Flag(m0, p) else p + 1 < 64 * |m0| && Flag(m0, p + 1)
  {
    hide BitAt;
    var k, j := p / 64, p % 64;
    if k == pos / 64 {
      assert BitAt(m1[k], j) <==> AfterRemove(m0[k], pos % 64, BitAbove(m0, k), 64, j);
    } else if k > pos / 64 {
      assert BitAt(m1[k], j) <==> AfterRemove(m0[k], 0, BitAbove(m0, k), 64, j);
    }
    if p >= pos {
      assert (p + 1) / 64 == if j == 63 then k + 1 else k;
      assert (p + 1) % 64 == if j == 63 then 0 else j + 1;
    }
  }

  /** Word by word borrows amount to deleting one flag and gaining a clear one at the end. */
  lemma RowDelete(m1: seq<nat>, m0: seq<nat>, pos: nat)
    requires ShiftedDown(m1, m0, pos, |m0|) && pos < 64 * |m0|
    ensures Row(m1) == DeleteAt(Row(m0), pos) + [false]
  {
    hide BitAt, Flag, WordDown;
    forall p: nat | p < 64 * |m0|
      ensures Row(m1)[p] == (DeleteAt(Row(m0), pos) + [false])[p]
    {
      FlagDown(m1, m0, pos, p);
    }
  }

  /** No flag is set from n on. */
  ghost predicate ClearFrom(row: seq<bool>, n: nat)
  {
    forall p :: n <= p < |row| ==> !row[p]
  }

  lemma GrowRow(row: seq<bool>, n: nat, pos: nat, value: bool, after: seq<bool>)
    requires ClearFrom(row, n) && pos <= n < |row|
    requires after == InsertAt(row, pos, value)[..|row|]
    ensures after[..n + 1] == InsertAt(row[..n], pos, value) && ClearFrom(after, n + 1)
  {
    forall p | n < p < |row|
      ensures !after[p]
    {
      assert after[p] == row[p - 1];
    }
  }

  lemma ShrinkRow(row: seq<bool>, n: nat, pos: nat, after: seq<bool>)
    requires ClearFrom(row, n) && pos < n <= |row|
    requires after == DeleteAt(row, pos) + [false]
    ensures after[..n - 1] == DeleteAt(row[..n], pos) && ClearFrom(after, n - 1)
  {
    forall p | n - 1 <= p < |row| - 1
      ensures !after[p]
    {
      assert after[p] == row[p + 1];
    }
  }

  /** A search has cleared flags of sheets without room, and no others. */
  ghost predicate Narrowed(now: seq<bool>, was: seq<bool>, room: seq<bool>)
  {
    && |now| == |was| == |room|
    && (forall p :: 0 <= p < |now| && room[p] ==> now[p] == was[p])
    && (forall p :: 0 <= p < |now| && now[p] ==> was[p])
  }

  ghost predicate ClearUpTo(flags: seq<bool>, n: nat)
  {
    forall p :: 0 <= p < n && p < |flags| ==> !flags[p]
  }

  lemma NarrowedSelf(flags: seq<bool>, room: seq<bool>)
    requires |flags| == |room|
    ensures Narrowed(flags, flags, room)
  {
  }

  lemma NarrowedDrop(now: seq<bool>, was: seq<bool>, room: seq<bool>, pos: nat)
    requires Narrowed(now, was, room) && pos < |room| && !room[pos]
    ensures Narrowed(now[pos := false], was, room)
  {
  }

  lemma ClearDrop(flags: seq<bool>, n: nat, pos: nat)
    requires ClearUpTo(flags, n) && pos < |flags|
    ensures ClearUpTo(flags[pos := false], n)
  {
  }

  lemma ExtendClear(flags: seq<bool>, n: nat, m: nat)
    requires ClearUpTo(flags, n) && forall p :: n <= p < m && p < |flags| ==> !flags[p]
    ensures ClearUpTo(flags, m)
  {
  }

  // ---- the sorted ranges ----

  ghost predicate Sorted(s: seq<Sheet>)
  {
    && (forall i :: 0 <= i < |s| ==> s[i].lo < s[i].hi)
    && (forall i, j :: 0 <= i < j < |s| ==> s[i].hi <= s[j].lo)
  }

  predicate Apart(a: Sheet, b: Sheet)
  {
    a.hi <= b.lo || b.hi <= a.lo
  }

  predicate Holds(s: Sheet, addr: nat)
  {
    s.lo <= addr < s.hi
  }

  /** An address lies in at most one registered sheet. */
  lemma OwnerUnique(s: seq<Sheet>, addr: nat, i: nat, j: nat)
    requires Sorted(s) && i < |s| && j < |s| && Holds(s[i], addr) && Holds(s[j], addr)
    ensures i == j
  {
    if i < j {
      Precedes(s, i, j);
    } else if j < i {
      Precedes(s, j, i);
    }
  }

  lemma Precedes(s: seq<Sheet>, i: nat, j: nat)
    requires Sorted(s) && i < j < |s|
    ensures s[i].hi <= s[j].lo
  {
  }

  lemma SortedInsert(s: seq<Sheet>, pos: nat, x: Sheet)
    requires Sorted(s) && pos <= |s| && x.lo < x.hi
    requires forall i :: 0 <= i < |s| ==> Apart(x, s[i])
    requires forall i :: 0 <= i < pos ==> s[i].lo < x.lo
    requires pos < |s| ==> x.lo <= s[pos].lo
    ensures Sorted(InsertAt(s, pos, x))
  {
    var t := InsertAt(s, pos, x);
    forall i, j | 0 <= i < j < |t|
      ensures t[i].hi <= t[j].lo
    {
      var a := if i < pos then i else i - 1;
      var b := if j < pos then j else j - 1;
      if i == pos {
        assert pos < b ==> s[pos].hi <= s[b].lo;
      }
    }
  }

  /** Pairing sheets with flags commutes with the edits, so each sheet keeps its own flag. */
  ghost function Paired(s: seq<Sheet>, f: seq<bool>): seq<(Sheet, bool)>
    requires |s| == |f|
  {
    seq(|s|, i requires 0 <= i < |s| => (s[i], f[i]))
  }

  lemma PairedInsert(s: seq<Sheet>, f: seq<bool>, pos: nat, x: Sheet, b: bool)
    requires |s| == |f| && pos <= |s|
    ensures Paired(InsertAt(s, pos, x), InsertAt(f, pos, b)) == InsertAt(Paired(s, f), pos, (x, b))
  {
  }

  lemma PairedDelete(s: seq<Sheet>, f: seq<bool>, pos: nat)
    requires |s| == |f| && pos < |s|
    ensures Paired(DeleteAt(s, pos), DeleteAt(f, pos)) == DeleteAt(Paired(s, f), pos)
  {
  }

  class Index {
    const maxSheets: nat
    var idx: array<Sheet>
    var count: nat
    var space: array<nat>
    var lastHit: nat

    ghost predicate Shape()
      reads this
    {
      && 0 < maxSheets == idx.Length
      && count <= maxSheets <= 64 * space.Length
      && (lastHit == maxSheets || lastHit < count)
    }

    ghost predicate Valid()
      reads this, idx, space
    {
      && Shape()
      && Sorted(Sheets())
      && Wide(space[..])
      && ClearFrom(Row(space[..]), count)
    }

    ghost function Sheets(): (s: seq<Sheet>)
      requires Shape()
      reads this, idx
      ensures |s| == count
    {
      idx[..count]
    }

    /** Which sheets may have room, in index order. */
    ghost function Open(): (f: seq<bool>)
      requires Shape()
      reads this, space
      ensures |f| == count
    {
      Row(space[..])[..count]
    }

    /** The sheet that served last. */
    ghost function Recent(): Option<Sheet>
      requires Shape()
      reads this, idx
    {
      if lastHit == maxSheets then None else Some(Sheets()[lastHit])
    }

    constructor (maxSheets: nat)
      requires maxSheets > 0
      ensures Valid() && fresh(idx) && fresh(space) && this.maxSheets == maxSheets
      ensures count == 0 && Recent() == None
    {
      this.maxSheets := maxSheets;
      idx := new Sheet[maxSheets](_ => Sheet(0, 0, 0));
      space := new nat[(maxSheets + 63) / 64](_ => 0);
      count := 0;
      lastHit := maxSheets;
      new;
      hide BitAt, Pow2;
      PowFits(0, 64);
      forall p | 0 <= p < 64 * space.Length
        ensures !Flag(space[..], p)
      {
        ZeroBit(p % 64);
      }
    }

    // ---- the mask ----

    method MaskInsert(pos: nat, value: bool)
      requires pos < 64 * space.Length && Wide(space[..])
      modifies space
      ensures Wide(space[..])
      ensures Row(space[..]) == InsertAt(old(Row(space[..])), pos, value)[..64 * space.Length]
    {
      hide BitAt, Pow2, Row, Inserted, Fits, InsertBit, CarryUp;
      ghost var before := space[..];
      var word, bit := pos / 64, pos % 64;
      assert space[word] == before[word];
      var c := BitAt(space[word], 63);
      space[word] := InsertBit(space[word], bit, value, 64);
      var i := word + 1;
      while i < space.Length
        invariant word < i <= space.Length
        invariant c == BitAt(before[i - 1], 63)
        invariant ShiftedUp(space[..], before, pos, value, i)
        invariant Wide(space[..])
      {
        assert space[i] == space[..][i] == before[i];
        var nc := BitAt(space[i], 63);
        space[i] := CarryUp(space[i], c, 64);
        c := nc;
        i := i + 1;
      }
      RowInsert(space[..], before, pos, value);
    }

    method MaskRemove(pos: nat)
      requires pos < 64 * space.Length && Wide(space[..])
      modifies space
      ensures Wide(space[..])
      ensures Row(space[..]) == DeleteAt(old(Row(space[..])), pos) + [false]
    {
      hide BitAt, Pow2, Row, Removed, Fits, RemoveBit, CarryDown;
      ghost var before := space[..];
      var word, bit := pos / 64, pos % 64;
      assert space[word] == before[word];
      var carryIn := word + 1 < space.Length && BitAt(space[word + 1], 0);
      space[word] := RemoveBit(space[word], bit, carryIn, 64);
      var i := word + 1;
      while i < space.Length
        invariant word < i <= space.Length
        invariant ShiftedDown(space[..], before, pos, i)
        invariant Wide(space[..])
      {
        assert space[i] == space[..][i] == before[i];
        assert i + 1 < space.Length ==> space[i + 1] == space[..][i + 1];
        var next := i + 1 < space.Length && BitAt(space[i + 1], 0);
        space[i] := CarryDown(space[i], next, 64);
        i := i + 1;
      }
      RowDelete(space[..], before, pos);
    }

    // ---- registering and unregistering sheets ----

    /** Moves the ranges from pos on up by one and writes s into the gap. */
    method ShiftRight(pos: nat, s: Sheet)
      requires Shape() && pos <= count < maxSheets
      modifies idx
      ensures idx[..count + 1] == InsertAt(old(idx[..count]), pos, s)
    {
      ghost var before := idx[..count];
      var i := count;
      while i > pos
        invariant pos <= i <= count
        invariant forall k :: 0 <= k < i ==> idx[k] == before[k]
        invariant forall k :: i < k <= count ==> idx[k] == before[k - 1]
      {
        idx[i] := idx[i - 1];
        i := i - 1;
      }
      idx[pos] := s;
    }

    method ShiftLeft(pos: nat)
      requires Shape() && pos < count
      modifies idx
      ensures idx[..count - 1] == DeleteAt(old(idx[..count]), pos)
    {
      ghost var before := idx[..count];
      var i := pos;
      while i + 1 < count
        invariant pos <= i < count
        invariant forall k :: 0 <= k < pos ==> idx[k] == before[k]
        invariant forall k :: pos <= k < i ==> idx[k] == before[k + 1]
        invariant forall k :: i <= k < count ==> idx[k] == before[k]
      {
        idx[i] := idx[i + 1];
        i := i + 1;
      }
    }

    /** The place of a range that starts at lo: past every range that starts below. */
    method Place(lo: nat) returns (pos: nat)
      requires Shape()
      ensures pos <= count
      ensures forall i :: 0 <= i < pos ==> Sheets()[i].lo < lo
      ensures pos < count ==> lo <= Sheets()[pos].lo
    {
      pos := 0;
      while pos < count && idx[pos].lo < lo
        invariant pos <= count
        invariant forall i :: 0 <= i < pos ==> Sheets()[i].lo < lo
      {
        pos := pos + 1;
      }
    }

    method Register(s: Sheet) returns (pos: nat)
      requires Valid() && s.lo < s.hi
      requires forall i :: 0 <= i < count ==> Apart(s, Sheets()[i])
      modifies this`count, this`lastHit, idx, space
      ensures Valid()
      ensures pos == maxSheets <==> old(count) == maxSheets
      ensures pos == maxSheets ==> Sheets() == old(Sheets()) && Open() == old(Open()) && Recent() == old(Recent())
      ensures pos < maxSheets ==>
                && pos <= old(count)
                && Sheets() == InsertAt(old(Sheets()), pos, s)
                && Open() == InsertAt(old(Open()), pos, true)
                && Recent() == old(Recent())
    {
      hide BitAt, Pow2, Flag, Row, Wide, Sorted, ClearFrom;
      if count >= maxSheets {
        return maxSheets;
      }
      pos := Place(s.lo);
      ghost var sheets, row := Sheets(), Row(space[..]);
      SortedInsert(sheets, pos, s);
      ShiftRight(pos, s);
      assert Sheets() == idx[..count];
      MaskInsert(pos, true);
      GrowRow(row, count, pos, true, Row(space[..]));
      if lastHit != maxSheets && pos <= lastHit && lastHit + 1 < maxSheets {
        lastHit := lastHit + 1;
      }
      count := count + 1;
    }

    method Unregister(pos: nat)
      requires Valid()
      modifies this`count, this`lastHit, idx, space
      ensures Valid()
      ensures pos >= old(count) ==> Sheets() == old(Sheets()) && Open() == old(Open()) && Recent() == old(Recent())
      ensures pos < old(count) ==>
                && Sheets() == DeleteAt(old(Sheets()), pos)
                && Open() == DeleteAt(old(Open()), pos)
                && Recent() == (if old(Recent()) == Some(old(Sheets())[pos]) then None else old(Recent()))
    {
      hide BitAt, Pow2, Flag, Row, Wide, Sorted, ClearFrom;
      if pos >= count {
        return;
      }
      ghost var sheets, row := Sheets(), Row(space[..]);
      SortedDistinct(sheets);
      SortedDelete(sheets, pos);
      ShiftLeft(pos);
      MaskRemove(pos);
      ShrinkRow(row, count, pos, Row(space[..]));
      if lastHit != maxSheets {
        if pos == lastHit {
          lastHit := maxSheets;
        } else if pos < lastHit {
          lastHit := lastHit - 1;
        }
      }
      count := count - 1;
    }

    // ---- looking up ----

    method FindRange(addr: nat) returns (hit: int)
      requires Valid()
      ensures hit < 0 <==> forall i :: 0 <= i < count ==> !Holds(Sheets()[i], addr)
      ensures hit >= 0 ==> hit < count && Holds(Sheets()[hit], addr)
    {
      hide Flag, Wide, Row, ClearFrom;
      var lo, hi := 0, count - 1;
      while lo <= hi
        invariant 0 <= lo && hi < count && lo <= hi + 1
        invariant forall i :: 0 <= i < lo ==> !Holds(Sheets()[i], addr)
        invariant forall i :: hi < i < count ==> !Holds(Sheets()[i], addr)
        decreases hi - lo
      {
        var mid := lo + (hi - lo) / 2;
        assert Sheets()[mid] == idx[mid];
        if addr < idx[mid].lo {
          hi := mid - 1;
        } else if addr >= idx[mid].hi {
          lo := mid + 1;
        } else {
          return mid;
        }
      }
      return -1;
    }

    // ---- availability ----

    method MarkExhausted(pos: nat)
      requires Valid() && pos < count
      modifies space
      ensures Valid() && Open() == old(Open())[pos := false]
      ensures space[pos / 64] == Clear(old(space[pos / 64]), pos % 64, 64)
    {
      hide BitAt, Pow2;
      ghost var before := space[..];
      space[pos / 64] := Clear(space[pos / 64], pos % 64, 64);
      FlagSet(space[..], before, pos, false);
    }

    method MarkAvailable(pos: nat)
      requires Valid() && pos < count
      modifies space
      ensures Valid() && Open() == old(Open())[pos := true]
    {
      hide BitAt, Pow2;
      ghost var before := space[..];
      space[pos / 64] := Set(space[pos / 64], pos % 64, 64);
      FlagSet(space[..], before, pos, true);
    }

    /** The lowest set bit of a word stands for a registered sheet that may have room. */
    lemma LowestOpen(w: nat) returns (pos: nat)
      requires Valid() && w < space.Length && space[w] != 0
      ensures pos == 64 * w + Ctz(space[w]) && Ctz(space[w]) < 64 && pos < count && Open()[pos]
      ensures forall q :: 64 * w <= q < pos ==> !Open()[q]
    {
      hide Pow2, BitAt, Ctz, Sorted;
      CtzBound(space[w], 64);
      pos := 64 * w + Ctz(space[w]);
      assert Row(space[..])[pos] == Flag(space[..], pos);
      forall q | 64 * w <= q < pos
        ensures !Open()[q]
      {
        assert Row(space[..])[q] == Flag(space[..], q);
      }
    }

    lemma ZeroWord(w: nat)
      requires Valid() && w < space.Length && space[w] == 0
      ensures forall q :: 64 * w <= q < 64 * w + 64 && q < count ==> !Open()[q]
    {
      hide Pow2, BitAt, Sorted;
      forall q | 64 * w <= q < 64 * w + 64 && q < count
        ensures !Open()[q]
      {
        assert Open()[q] == Flag(space[..], q);
        ZeroBit(q % 64);
      }
    }

    /**
     Tries the available sheets of one word, from the lowest; each that fails loses its flag. No flag
     at or past count is ever set, so the loop needs no bound check of its own.
     */
    method ScanWord(w: nat, room: seq<bool>) returns (pos: nat)
      requires Valid() && |room| == count && w < space.Length && ClearUpTo(Open(), 64 * w)
      modifies this`lastHit, space
      ensures Valid() && Narrowed(Open(), old(Open()), room)
      ensures pos == maxSheets ==> ClearUpTo(Open(), 64 * w + 64) && lastHit == old(lastHit)
      ensures pos != maxSheets ==> pos < count && Open()[pos] && room[pos] && lastHit == pos && ClearUpTo(Open(), pos)
    {
      hide BitAt, Pow2, Flag, Row, Wide, Sorted, ClearFrom, Ctz, Clear, And, Narrowed, ClearUpTo;
      ghost var was := Open();
      NarrowedSelf(was, room);
      var mask := space[w];
      while mask != 0
        invariant mask == space[w]
        invariant Valid() && lastHit == old(lastHit)
        invariant ClearUpTo(Open(), 64 * w) && Narrowed(Open(), was, room)
        decreases mask
      {
        ghost var lowest := LowestOpen(w);
        ExtendClear(Open(), 64 * w, lowest);
        var hit := 64 * w + Ctz(mask);
        if room[hit] {
          lastHit := hit;
          return hit;
        }
        WideWord(w);
        DropIsClear(mask, 64);
        NarrowedDrop(Open(), was, room, hit);
        ClearDrop(Open(), 64 * w, hit);
        MarkExhausted(hit);
        mask := And(mask, mask - 1);
      }
      ZeroWord(w);
      ExtendClear(Open(), 64 * w, 64 * w + 64);
      return maxSheets;
    }

    /**
     The search for a sheet that serves a request; room says which books would. The sheet that served
     last is tried first, then every available one from the lowest; each that fails loses its flag.
     */
    method Select(room: seq<bool>) returns (pos: nat)
      requires Valid() && |room| == count
      modifies this`lastHit, space
      ensures Valid() && Narrowed(Open(), old(Open()), room)
      ensures pos == maxSheets <==> forall p :: 0 <= p < count ==> !(old(Open())[p] && room[p])
      ensures pos == maxSheets ==> true !in Open() && lastHit == old(lastHit)
      ensures pos != maxSheets ==> pos < count && old(Open())[pos] && room[pos] && lastHit == pos
      ensures pos != maxSheets ==>
                pos == old(lastHit) || forall p :: 0 <= p < pos ==> !(old(Open())[p] && room[p])
    {
      hide BitAt, Pow2, Flag, Row, Wide, Sorted, ClearFrom;
      ghost var was := Open();
      NarrowedSelf(was, room);
      var lh := lastHit;
      if lh < count {
        var may := Available(lh);
        if may {
          if room[lh] {
            return lh;
          }
          NarrowedDrop(was, was, room, lh);
          MarkExhausted(lh);
        }
      }
      var w := 0;
      while w < space.Length
        invariant 0 <= w <= space.Length
        invariant Valid() && lastHit == lh
        invariant ClearUpTo(Open(), 64 * w) && Narrowed(Open(), was, room)
      {
        pos := ScanWord(w, room);
        if pos != maxSheets {
          return;
        }
        w := w + 1;
      }
      return maxSheets;
    }

    lemma WideWord(w: nat)
      requires Valid() && w < space.Length
      ensures Fits(space[w], 64)
    {
      assert space[..][w] == space[w];
    }

    method Available(pos: nat) returns (b: bool)
      requires Valid() && pos < count
      ensures b == Open()[pos]
    {
      b := BitAt(space[pos / 64], pos % 64);
      assert b == Flag(space[..], pos);
    }

    /** Some word is nonzero exactly when some registered sheet may have room. */
    method HasSpace() returns (b: bool)
      requires Valid()
      ensures b <==> true in Open()
    {
      hide BitAt, Pow2;
      var i := 0;
      while i < space.Length
        invariant 0 <= i <= space.Length
        invariant forall k :: 0 <= k < i ==> space[k] == 0
      {
        if space[i] != 0 {
          CtzBound(space[i], 64);
          ghost var p: nat := 64 * i + Ctz(space[i]);
          assert Flag(space[..], p);
          assert Open()[p];
          return true;
        }
        i := i + 1;
      }
      forall p | 0 <= p < count
        ensures !Open()[p]
      {
        ZeroBit(p % 64);
      }
      return false;
    }
  }

  /** One flag is written and the others stay. */
  lemma FlagSet(m1: seq<nat>, m0: seq<nat>, pos: nat, value: bool)
    requires |m0| == |m1| && pos < 64 * |m0|
    requires forall k :: 0 <= k < |m0| && k != pos / 64 ==> m1[k] == m0[k]
    requires forall j :: 0 <= j < 64 ==>
               (BitAt(m1[pos / 64], j) <==> if j == pos % 64 then value else BitAt(m0[pos / 64], j))
    ensures Row(m1) == Row(m0)[pos := value]
  {
    hide BitAt;
    forall p | 0 <= p < 64 * |m0|
      ensures Flag(m1, p) == if p == pos then value else Flag(m0, p)
    {
    }
  }

  lemma SortedDelete(s: seq<Sheet>, pos: nat)
    requires Sorted(s) && pos < |s|
    ensures Sorted(DeleteAt(s, pos))
  {
  }

  lemma SortedDistinct(s: seq<Sheet>)
    requires Sorted(s)
    ensures forall i, j :: 0 <= i < |s| && 0 <= j < |s| && s[i] == s[j] ==> i == j
  {
    forall i, j | 0 <= i < |s| && 0 <= j < |s| && s[i] == s[j]
      ensures i == j
    {
      OwnerUnique(s, s[i].lo, i, j);
    }
  }
}
