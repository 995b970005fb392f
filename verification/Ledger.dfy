/** The doctor's ledger: an open-addressing table that behaves as a map from pointers to records. */
module Ledger {
  import opened Powers
  import opened RingIndex

  datatype RecState = Empty | Live | Freed | Tombstoned | Quarantined

  datatype Rec = Rec(key: nat, state: RecState, reqSize: nat, allocOp: nat, freeOp: nat, freeLen: nat)

  const BLANK: Rec := Rec(0, Empty, 0, 0, 0, 0)

  const NOT_FOUND: int := -1

  /** log2 of the first table's size. */
  const FIRST_LOG2: nat := 12

  // ---- probing ----

  /** The cell looked at after e steps from the key's home cell. */
  function ProbeAt(hash: nat -> nat, key: nat, e: nat, k: nat): nat
  {
    CellOf(CellOf(hash(key), k) + e, k)
  }

  lemma ProbeBound(hash: nat -> nat, key: nat, e: nat, k: nat)
    ensures ProbeAt(hash, key, e, k) < Pow2(k)
  {
    hide CellOf, Pow2;
    CellBound(CellOf(hash(key), k) + e, k);
  }

  function Slot(slots: seq<Rec>, i: nat): Rec
  {
    if i < |slots| then slots[i] else BLANK
  }

  /** The first d cells on the key's path are taken. */
  ghost predicate Taken(slots: seq<Rec>, hash: nat -> nat, key: nat, d: nat, k: nat)
  {
    forall e: nat :: e < d ==> !Slot(slots, ProbeAt(hash, key, e, k)).state.Empty?
  }

  ghost predicate Stored(slots: seq<Rec>, hash: nat -> nat, key: nat, r: Rec, d: nat, k: nat)
  {
    && d < Pow2(k) && r.key == key && !r.state.Empty?
    && Slot(slots, ProbeAt(hash, key, d, k)) == r && Taken(slots, hash, key, d, k)
  }

  /** A taken cell holds the record of its key, where that key's path ends. */
  ghost predicate Backed(slots: seq<Rec>, hash: nat -> nat, records: map<nat, Rec>, disp: map<nat, nat>, i: nat, k: nat)
  {
    var key := Slot(slots, i).key;
    !Slot(slots, i).state.Empty? ==> key in records && key in disp && ProbeAt(hash, key, disp[key], k) == i
  }

  /** The table stands for `records`; `disp` gives each key's distance from its home cell. */
  ghost predicate Holds(slots: seq<Rec>, hash: nat -> nat, records: map<nat, Rec>, disp: map<nat, nat>, k: nat)
  {
    && |slots| == Pow2(k) && disp.Keys == records.Keys
    && (forall key :: key in records ==> Stored(slots, hash, key, records[key], disp[key], k))
    && forall i: nat :: i < |slots| ==> Backed(slots, hash, records, disp, i, k)
  }

  /** What d fruitless steps along the path say about the key. */
  ghost predicate Passed(slots: seq<Rec>, hash: nat -> nat, key: nat, d: nat, k: nat)
  {
    forall e: nat :: e < d ==> !Slot(slots, ProbeAt(hash, key, e, k)).state.Empty? && Slot(slots, ProbeAt(hash, key, e, k)).key != key
  }

  /** An empty cell, or the key's own, after d fruitless steps settles whether the key is stored. */
  lemma Settled(slots: seq<Rec>, hash: nat -> nat, records: map<nat, Rec>, disp: map<nat, nat>, key: nat, d: nat, k: nat)
    requires Holds(slots, hash, records, disp, k) && Passed(slots, hash, key, d, k)
    ensures var s := Slot(slots, ProbeAt(hash, key, d, k));
            && (s.state.Empty? ==> key !in records)
            && (!s.state.Empty? && s.key == key ==> key in records && records[key] == s)
            && (key in records ==> d <= disp[key] && (d == disp[key] ==> s == records[key]))
  {
    var i := ProbeAt(hash, key, d, k);
    ProbeBound(hash, key, d, k);
    assert Backed(slots, hash, records, disp, i, k);
    if key in records {
      assert Stored(slots, hash, key, records[key], disp[key], k);
    }
  }

  lemma Farther(slots: seq<Rec>, hash: nat -> nat, records: map<nat, Rec>, disp: map<nat, nat>, key: nat, d: nat, k: nat)
    requires Holds(slots, hash, records, disp, k) && Passed(slots, hash, key, d, k)
    ensures key in records ==> d <= disp[key] < Pow2(k)
  {
    if key in records {
      assert Stored(slots, hash, key, records[key], disp[key], k);
    }
  }

  /** Going once around without an end to the path: the key is not stored and no cell is empty. */
  lemma AllTaken(slots: seq<Rec>, hash: nat -> nat, records: map<nat, Rec>, disp: map<nat, nat>, key: nat, d: nat, k: nat)
    requires Holds(slots, hash, records, disp, k) && Passed(slots, hash, key, d, k) && d >= Pow2(k)
    ensures key !in records && forall i: nat :: i < |slots| ==> !slots[i].state.Empty?
  {
    hide CellOf, Pow2;
    Farther(slots, hash, records, disp, key, d, k);
    forall i: nat | i < |slots|
      ensures !slots[i].state.Empty?
    {
      var home := CellOf(hash(key), k);
      CellBound(hash(key), k);
      var e := Reaches(home, i, k);
      assert Slot(slots, ProbeAt(hash, key, e, k)) == slots[i];
    }
  }

  /** A second lap meets the same cells. */
  lemma FirstLap(slots: seq<Rec>, hash: nat -> nat, key: nat, d: nat, k: nat)
    requires Passed(slots, hash, key, d, k)
    ensures var s := Slot(slots, ProbeAt(hash, key, d, k));
            d >= Pow2(k) ==> !s.state.Empty? && s.key != key
  {
    hide CellOf, Pow2, Slot;
    if d >= Pow2(k) {
      CellAgain(CellOf(hash(key), k) + (d - Pow2(k)), k);
      assert ProbeAt(hash, key, d, k) == ProbeAt(hash, key, d - Pow2(k), k);
    }
  }

  /** No cell before the end of a stored key's path has its key. */
  lemma PathPassed(slots: seq<Rec>, hash: nat -> nat, records: map<nat, Rec>, disp: map<nat, nat>, key: nat, k: nat)
    requires Holds(slots, hash, records, disp, k) && key in records
    ensures Passed(slots, hash, key, disp[key], k) && disp[key] < Pow2(k)
  {
    assert Stored(slots, hash, key, records[key], disp[key], k);
    forall e: nat | e < disp[key]
      ensures Slot(slots, ProbeAt(hash, key, e, k)).key != key
    {
      ProbeBound(hash, key, e, k);
      assert Backed(slots, hash, records, disp, ProbeAt(hash, key, e, k), k);
      CellsApart(CellOf(hash(key), k) + e, CellOf(hash(key), k) + disp[key], k);
    }
  }

  /** Writing a record at the end of its key's path. */
  lemma Store(slots: seq<Rec>, hash: nat -> nat, records: map<nat, Rec>, disp: map<nat, nat>, key: nat, d: nat, k: nat, r: Rec)
    requires Holds(slots, hash, records, disp, k) && Passed(slots, hash, key, d, k) && d < Pow2(k)
    requires r.key == key && !r.state.Empty?
    requires Slot(slots, ProbeAt(hash, key, d, k)).state.Empty? || Slot(slots, ProbeAt(hash, key, d, k)).key == key
    ensures ProbeAt(hash, key, d, k) < |slots|
    ensures Holds(slots[ProbeAt(hash, key, d, k) := r], hash, records[key := r], disp[key := d], k)
  {
    hide CellOf, Pow2, ProbeAt;
    var p := ProbeAt(hash, key, d, k);
    ProbeBound(hash, key, d, k);
    Settled(slots, hash, records, disp, key, d, k);
    assert Backed(slots, hash, records, disp, p, k);
    var slots', records', disp' := slots[p := r], records[key := r], disp[key := d];
    assert disp'.Keys == records'.Keys;
    forall q | q in records'
      ensures Stored(slots', hash, q, records'[q], disp'[q], k)
    {
      if q != key {
        assert Stored(slots, hash, q, records[q], disp[q], k);
        ProbeBound(hash, q, disp[q], k);
      }
    }
    assert key in records ==> Stored(slots, hash, key, records[key], disp[key], k);
    forall i: nat | i < |slots'|
      ensures Backed(slots', hash, records', disp', i, k)
    {
      assert Backed(slots, hash, records, disp, i, k);
    }
  }

  // ---- counting ----

  ghost function LiveKeys(records: map<nat, Rec>): set<nat>
  {
    set key | key in records && records[key].state.Live?
  }

  lemma LiveUpdate(records: map<nat, Rec>, key: nat, r: Rec)
    ensures |LiveKeys(records[key := r])| ==
            |LiveKeys(records)| + (if r.state.Live? then 1 else 0) - (if key in records && records[key].state.Live? then 1 else 0)
  {
    var a, b := LiveKeys(records), LiveKeys(records[key := r]);
    assert a - {key} == b - {key};
    SetSize(a, key);
    SetSize(b, key);
  }

  lemma SetSize(a: set<nat>, x: nat)
    ensures |a - {x}| == |a| - (if x in a then 1 else 0)
  {
    if x !in a {
      assert a - {x} == a;
    }
  }

  lemma KeysUpdate(records: map<nat, Rec>, key: nat, r: Rec)
    ensures |records[key := r]| == |records| + (if key in records then 0 else 1)
  {
    assert records[key := r].Keys == records.Keys + {key};
    SetSize(records.Keys + {key}, key);
    assert records.Keys + {key} - {key} == records.Keys - {key};
    SetSize(records.Keys, key);
    assert |records[key := r].Keys| == |records[key := r]|;
  }

  /** The records of the first n cells, by key. */
  lemma {:induction false} CellKeys(slots: seq<Rec>, hash: nat -> nat, records: map<nat, Rec>, disp: map<nat, nat>, k: nat, n: nat)
      returns (keys: set<nat>)
    requires Holds(slots, hash, records, disp, k) && n <= |slots| && forall i: nat :: i < n ==> !slots[i].state.Empty?
    ensures |keys| == n && keys <= records.Keys
    ensures forall key :: key in keys ==> key in disp && ProbeAt(hash, key, disp[key], k) < n
    decreases n
  {
    if n == 0 {
      keys := {};
    } else {
      var rest := CellKeys(slots, hash, records, disp, k, n - 1);
      assert Backed(slots, hash, records, disp, n - 1, k);
      keys := rest + {slots[n - 1].key};
    }
  }

  lemma {:induction false} SubsetSize(a: set<nat>, b: set<nat>)
    requires a <= b
    ensures |a| <= |b|
    decreases |a|
  {
    if x :| x in a {
      SubsetSize(a - {x}, b - {x});
    }
  }

  /** A table without an empty cell holds as many records as cells. */
  lemma FullTable(slots: seq<Rec>, hash: nat -> nat, records: map<nat, Rec>, disp: map<nat, nat>, k: nat)
    requires Holds(slots, hash, records, disp, k) && forall i: nat :: i < |slots| ==> !slots[i].state.Empty?
    ensures |records| >= Pow2(k)
  {
    var keys := CellKeys(slots, hash, records, disp, k, |slots|);
    SubsetSize(keys, records.Keys);
    assert |records.Keys| == |records|;
  }

  /** The records that survive a rebuild. */
  ghost function Kept(records: map<nat, Rec>, liveOnly: bool): map<nat, Rec>
  {
    map key | key in records && (liveOnly ==> records[key].state.Live?) :: records[key]
  }

  lemma BlankHolds(hash: nat -> nat, k: nat, slots: seq<Rec>)
    requires |slots| == Pow2(k) && forall i :: 0 <= i < |slots| ==> slots[i] == BLANK
    ensures Holds(slots, hash, map[], map[], k)
  {
  }

  method NewTable(hash: nat -> nat, k: nat) returns (t: array<Rec>)
    ensures fresh(t) && t.Length == Pow2(k) && Holds(t[..], hash, map[], map[], k)
  {
    t := new Rec[Pow2(k)](_ => BLANK);
    BlankHolds(hash, k, t[..]);
  }

  // ---- the ledger ----

  class Book {
    const hash: nat -> nat
    const maxRecords: nat       // past this size the table first drops what is not live
    var slots: array<Rec>
    var log2Cap: nat
    var occupied: nat
    var nLive: nat

    ghost var records: map<nat, Rec>
    ghost var disp: map<nat, nat>

    ghost predicate Valid()
      reads this, slots
    {
      && Holds(slots[..], hash, records, disp, log2Cap)
      && occupied == |records| && nLive == |LiveKeys(records)|
      && 0 !in records && log2Cap >= FIRST_LOG2
    }

    function Cap(): nat
      reads `log2Cap
    {
      Pow2(log2Cap)
    }

    /** The first table was mapped. */
    constructor (hash: nat -> nat, maxRecords: nat)
      ensures Valid() && records == map[] && fresh(slots)
      ensures this.hash == hash && this.maxRecords == maxRecords
    {
      this.hash, this.maxRecords := hash, maxRecords;
      var table := NewTable(hash, FIRST_LOG2);
      slots, log2Cap := table, FIRST_LOG2;
      occupied, nLive := 0, 0;
      records, disp := map[], map[];
      new;
      assert LiveKeys(map[]) == {};
    }

    /** The record of a key, if any. */
    method Find(key: nat) returns (i: int)
      requires Valid()
      ensures i == NOT_FOUND <==> key !in records
      ensures i != NOT_FOUND ==> 0 <= i < slots.Length && slots[i] == records[key]
      ensures i != NOT_FOUND ==> i == ProbeAt(hash, key, disp[key], log2Cap)
    {
      hide Holds, CellOf, Pow2;
      i := CellOf(hash(key), log2Cap);
      CellBound(hash(key), log2Cap);
      Shape();
      HomeStep(key);
      var probes := 0;
      while probes <= Cap()
        invariant probes <= Cap() + 1 && i == ProbeAt(hash, key, probes, log2Cap)
        invariant Passed(slots[..], hash, key, probes, log2Cap)
      {
        ProbeBound(hash, key, probes, log2Cap);
        Settled(slots[..], hash, records, disp, key, probes, log2Cap);
        if slots[i].state.Empty? {
          return NOT_FOUND;
        }
        if slots[i].key == key {
          Ends(key, probes);
          return;
        }
        NextCell(CellOf(hash(key), log2Cap), probes, log2Cap);
        i := CellOf(i + 1, log2Cap);
        probes := probes + 1;
      }
      AllTaken(slots[..], hash, records, disp, key, probes, log2Cap);
      return NOT_FOUND;
    }

    /** The cell a record of this key belongs in: its own, or the empty one that ends its path. */
    method SlotFor(key: nat) returns (i: int, ghost d: nat)
      requires Holds(slots[..], hash, records, disp, log2Cap)
      ensures i == NOT_FOUND ==> key !in records && |records| >= Cap()
      ensures i != NOT_FOUND ==> 0 <= i < slots.Length && i == ProbeAt(hash, key, d, log2Cap) && d < Cap()
      ensures i != NOT_FOUND ==> Passed(slots[..], hash, key, d, log2Cap)
      ensures i != NOT_FOUND ==> if key in records then slots[i] == records[key] && slots[i].key == key else slots[i].state.Empty?
    {
      hide Holds, CellOf, Pow2;
      i := CellOf(hash(key), log2Cap);
      CellBound(hash(key), log2Cap);
      Shape();
      HomeStep(key);
      var probes := 0;
      while probes <= Cap()
        invariant probes <= Cap() + 1 && i == ProbeAt(hash, key, probes, log2Cap)
        invariant Passed(slots[..], hash, key, probes, log2Cap)
      {
        ProbeBound(hash, key, probes, log2Cap);
        Settled(slots[..], hash, records, disp, key, probes, log2Cap);
        if slots[i].state.Empty? || slots[i].key == key {
          FirstLap(slots[..], hash, key, probes, log2Cap);
          KeyOf(key);
          return i, probes;
        }
        NextCell(CellOf(hash(key), log2Cap), probes, log2Cap);
        i := CellOf(i + 1, log2Cap);
        probes := probes + 1;
      }
      AllTaken(slots[..], hash, records, disp, key, probes, log2Cap);
      FullTable(slots[..], hash, records, disp, log2Cap);
      return NOT_FOUND, 0;
    }

    lemma Shape()
      requires Holds(slots[..], hash, records, disp, log2Cap)
      ensures slots.Length == Cap() && disp.Keys == records.Keys
    {
    }

    lemma HomeStep(key: nat)
      ensures ProbeAt(hash, key, 0, log2Cap) == CellOf(hash(key), log2Cap)
    {
      CellBound(hash(key), log2Cap);
      SmallIndex(CellOf(hash(key), log2Cap), log2Cap);
    }

    lemma KeyOf(key: nat)
      requires Holds(slots[..], hash, records, disp, log2Cap)
      ensures key in records ==> records[key].key == key && !records[key].state.Empty?
    {
      if key in records {
        assert Stored(slots[..], hash, key, records[key], disp[key], log2Cap);
      }
    }

    /** The cell that holds the key is where its path ends. */
    lemma Ends(key: nat, d: nat)
      requires Holds(slots[..], hash, records, disp, log2Cap) && key in records
      requires ProbeAt(hash, key, d, log2Cap) < slots.Length && slots[ProbeAt(hash, key, d, log2Cap)] == records[key]
      ensures ProbeAt(hash, key, d, log2Cap) == ProbeAt(hash, key, disp[key], log2Cap)
    {
      KeyOf(key);
      assert Backed(slots[..], hash, records, disp, ProbeAt(hash, key, d, log2Cap), log2Cap);
    }

    /** Write a record into the cell found for it. */
    method Put(i: nat, r: Rec, ghost d: nat)
      requires Holds(slots[..], hash, records, disp, log2Cap) && !r.state.Empty?
      requires i < slots.Length && i == ProbeAt(hash, r.key, d, log2Cap) && d < Cap()
      requires Passed(slots[..], hash, r.key, d, log2Cap) && (slots[i].state.Empty? || slots[i].key == r.key)
      modifies slots, this`records, this`disp
      ensures Holds(slots[..], hash, records, disp, log2Cap)
      ensures records == old(records)[r.key := r]
    {
      Store(slots[..], hash, records, disp, r.key, d, log2Cap, r);
      hide Holds, CellOf, Pow2, ProbeAt, Passed;
      slots[i] := r;
      records := records[r.key := r];
      disp := disp[r.key := d];
    }

    /** Which records of the old table are in the new one once its first n cells were carried over. */
    ghost predicate Carried(kept: map<nat, Rec>, before: map<nat, nat>, k: nat, n: nat)
      requires kept.Keys <= before.Keys
      reads `records
    {
      && (forall key :: key in records ==> key in kept && records[key] == kept[key])
      && forall key :: key in kept ==> (key in records <==> ProbeAt(hash, key, before[key], k) < n)
    }

    predicate Wanted(r: Rec, liveOnly: bool)
    {
      if liveOnly then r.state.Live? else !r.state.Empty? && r.key != 0
    }

    /** Cell i of the old table holds the one record that becomes due at step i, if any. */
    ghost predicate Due(r: Rec, kept: map<nat, Rec>, before: map<nat, nat>, k: nat, i: nat, liveOnly: bool)
      requires kept.Keys <= before.Keys
    {
      && (Wanted(r, liveOnly) ==> !r.state.Empty? && r.key in kept && kept[r.key] == r && ProbeAt(hash, r.key, before[r.key], k) == i)
      && forall key :: key in kept && ProbeAt(hash, key, before[key], k) == i ==> Wanted(r, liveOnly) && r.key == key
    }

    /** Carry one record over. */
    method Carry(r: Rec, liveOnly: bool, ghost kept: map<nat, Rec>, ghost before: map<nat, nat>, ghost k: nat, ghost i: nat)
      requires Holds(slots[..], hash, records, disp, log2Cap) && occupied == |records| <= i < Cap()
      requires kept.Keys <= before.Keys && Carried(kept, before, k, i) && Due(r, kept, before, k, i, liveOnly)
      modifies slots, this`occupied, this`records, this`disp
      ensures Holds(slots[..], hash, records, disp, log2Cap) && occupied == |records| <= i + 1
      ensures Carried(kept, before, k, i + 1)
    {
      hide Holds, CellOf, Pow2, ProbeAt, Passed;
      if Wanted(r, liveOnly) {
        var j, d := SlotFor(r.key);
        if j != NOT_FOUND {
          KeysUpdate(records, r.key, r);
          Put(j, r, d);
          occupied := occupied + 1;
        }
      }
    }

    /** Carry the records of the old cells over into the empty table, all of them or the live ones. */
    method Reinsert(was: array<Rec>, liveOnly: bool, ghost r0: map<nat, Rec>, ghost d0: map<nat, nat>, ghost k0: nat)
      requires was != slots && Holds(was[..], hash, r0, d0, k0) && 0 !in r0 && was.Length == Pow2(k0) <= Cap()
      requires Holds(slots[..], hash, records, disp, log2Cap) && records == map[] && occupied == 0
      modifies slots, this`occupied, this`records, this`disp
      ensures Holds(slots[..], hash, records, disp, log2Cap)
      ensures records == Kept(r0, liveOnly) && occupied == |records|
    {
      hide Holds, CellOf, Pow2, ProbeAt, Kept, Due, Carried;
      ghost var kept := Kept(r0, liveOnly);
      TableKeys(was[..], r0, d0, k0, liveOnly);
      NoneCarried(kept, d0, k0);
      var i := 0;
      while i < was.Length
        invariant 0 <= i <= was.Length
        invariant Holds(slots[..], hash, records, disp, log2Cap)
        invariant occupied == |records| <= i
        invariant Carried(kept, d0, k0, i)
      {
        OneCell(was[..], r0, d0, k0, i, liveOnly);
        Carry(was[i], liveOnly, kept, d0, k0, i);
        i := i + 1;
      }
      AllCarried(was[..], r0, d0, k0, kept);
    }

    lemma TableKeys(cells: seq<Rec>, r0: map<nat, Rec>, d0: map<nat, nat>, k: nat, liveOnly: bool)
      requires Holds(cells, hash, r0, d0, k)
      ensures Kept(r0, liveOnly).Keys <= d0.Keys
    {
    }

    /** Replace the table by a fresh one of 2^newLog2 cells. */
    method Rebuild(newLog2: nat, liveOnly: bool)
      requires Holds(slots[..], hash, records, disp, log2Cap) && log2Cap <= newLog2 && 0 !in records
      modifies this`slots, this`log2Cap, this`occupied, this`records, this`disp
      ensures Holds(slots[..], hash, records, disp, log2Cap) && fresh(slots)
      ensures log2Cap == newLog2 && records == Kept(old(records), liveOnly) && occupied == |records|
    {
      hide Holds, CellOf, Pow2, ProbeAt, Kept;
      Shape();
      var was := slots;
      ghost var r0, d0, k0 := records, disp, log2Cap;
      Pow2Le(k0, newLog2);
      slots := NewTable(hash, newLog2);
      log2Cap, occupied := newLog2, 0;
      records, disp := map[], map[];
      Reinsert(was, liveOnly, r0, d0, k0);
    }

    lemma NoneCarried(kept: map<nat, Rec>, before: map<nat, nat>, k: nat)
      requires kept.Keys <= before.Keys && records == map[]
      ensures Carried(kept, before, k, 0)
    {
    }

    lemma FromCell(cells: seq<Rec>, r0: map<nat, Rec>, d0: map<nat, nat>, k: nat, i: nat)
      requires Holds(cells, hash, r0, d0, k) && i < |cells|
      ensures d0.Keys == r0.Keys
      ensures !cells[i].state.Empty? ==> cells[i].key in r0 && ProbeAt(hash, cells[i].key, d0[cells[i].key], k) == i
      ensures !cells[i].state.Empty? ==> r0[cells[i].key] == cells[i]
    {
      assert Backed(cells, hash, r0, d0, i, k);
      if !cells[i].state.Empty? {
        assert Stored(cells, hash, cells[i].key, r0[cells[i].key], d0[cells[i].key], k);
      }
    }

    /** Only the record in cell i becomes due at step i. */
    lemma OneCell(cells: seq<Rec>, r0: map<nat, Rec>, d0: map<nat, nat>, k: nat, i: nat, liveOnly: bool)
      requires Holds(cells, hash, r0, d0, k) && i < |cells| && 0 !in r0
      ensures d0.Keys == r0.Keys && Kept(r0, liveOnly).Keys <= d0.Keys && Due(cells[i], Kept(r0, liveOnly), d0, k, i, liveOnly)
    {
      FromCell(cells, r0, d0, k, i);
      var kept := Kept(r0, liveOnly);
      forall key | key in kept && ProbeAt(hash, key, d0[key], k) == i
        ensures Wanted(cells[i], liveOnly) && cells[i].key == key
      {
        assert Stored(cells, hash, key, r0[key], d0[key], k);
      }
    }

    lemma AllCarried(cells: seq<Rec>, r0: map<nat, Rec>, d0: map<nat, nat>, k: nat, kept: map<nat, Rec>)
      requires Holds(cells, hash, r0, d0, k) && kept.Keys <= d0.Keys && Carried(kept, d0, k, |cells|)
      ensures records == kept
    {
      forall key | key in kept
        ensures key in records
      {
        ProbeBound(hash, key, d0[key], k);
      }
    }

    /** Make room by forgetting everything that is not live; `mapped` says whether a new table could be had. */
    method DropFreed(mapped: bool) returns (dropped: bool)
      requires Valid()
      modifies this`slots, this`log2Cap, this`occupied, this`records, this`disp
      ensures Valid() && (slots == old(slots) || fresh(slots)) && log2Cap == old(log2Cap)
      ensures records == if dropped then Kept(old(records), true) else old(records)
      ensures dropped <==> mapped && old(occupied) > nLive
    {
      hide Holds, CellOf, Pow2, Kept;
      if occupied <= nLive || !mapped {
        return false;
      }
      LiveKept(records);
      Rebuild(log2Cap, true);
      return true;
    }

    static lemma LiveKept(r0: map<nat, Rec>)
      ensures LiveKeys(Kept(r0, true)) == LiveKeys(r0) && (0 !in r0 ==> 0 !in Kept(r0, true))
    {
    }

    static lemma AllKept(r0: map<nat, Rec>)
      ensures Kept(r0, false) == r0
    {
    }

    method Rehash(newLog2: nat, mapped: bool)
      requires Valid() && log2Cap <= newLog2
      modifies this`slots, this`log2Cap, this`occupied, this`records, this`disp
      ensures Valid() && (slots == old(slots) || fresh(slots)) && records == old(records)
      ensures log2Cap == if mapped then newLog2 else old(log2Cap)
    {
      hide Holds, CellOf, Pow2, Kept;
      if !mapped {
        return;
      }
      AllKept(records);
      Rebuild(newLog2, false);
    }

    /** 70 percent of the cells are taken. */
    predicate Loaded()
      reads this
    {
      occupied * 10 >= Cap() * 7
    }

    /** Doubling would pass the record limit, something is not live, and a table for the rest can be had. */
    predicate Evicts(mapped: bool)
      reads this
    {
      Loaded() && Pow2(log2Cap + 1) > maxRecords && mapped && occupied > nLive
    }

    /** What an eviction leaves is all there is to hold, or else everything. */
    ghost function Survivors(mapped: bool): map<nat, Rec>
      reads this
    {
      if Evicts(mapped) then Kept(records, true) else records
    }

    /** The table is loaded, and an eviction, if there is one, leaves it so. */
    ghost predicate Doubles(mappedDrop: bool)
      reads this
    {
      Loaded() && |Survivors(mappedDrop)| * 10 >= Cap() * 7
    }

    /** Past 70 percent load, double the table; past the record limit, first drop what is not live. */
    method GrowIfNeeded(mappedDrop: bool, mappedGrow: bool)
      requires Valid()
      modifies this`slots, this`log2Cap, this`occupied, this`records, this`disp
      ensures Valid() && (slots == old(slots) || fresh(slots))
      ensures records == old(Survivors(mappedDrop))
      ensures log2Cap == if mappedGrow && old(Doubles(mappedDrop)) then old(log2Cap) + 1 else old(log2Cap)
      ensures mappedGrow ==> occupied + 1 < Cap()
    {
      hide Holds, CellOf, Kept;
      Room();
      if occupied * 10 < Cap() * 7 {
        return;
      }
      var newLog2 := log2Cap + 1;
      if Pow2(newLog2) > maxRecords {
        var dropped := DropFreed(mappedDrop);
        if dropped && occupied * 10 < Cap() * 7 {
          return;
        }
      }
      ghost var cap := Cap();
      Fits();
      Rehash(newLog2, mappedGrow);
      assert Pow2(newLog2) == 2 * cap;
    }

    /** Even the first table has thousands of cells. */
    lemma Room()
      requires log2Cap >= FIRST_LOG2
      ensures Cap() >= 4096
    {
      assert Pow2(4) == 16 && Pow2(8) == 16 * Pow2(4) && Pow2(12) == 16 * Pow2(8);
      hide Pow2;
      if log2Cap > FIRST_LOG2 {
        Pow2Mono(FIRST_LOG2, log2Cap);
      }
    }

    /** There are never more records than cells. */
    lemma Fits()
      requires Valid()
      ensures occupied <= Cap()
    {
      hide CellOf, Pow2;
      var cells := Injective(records.Keys);
      assert |records.Keys| == |records|;
    }

    lemma {:induction false} Injective(keys: set<nat>) returns (cells: set<nat>)
      requires Holds(slots[..], hash, records, disp, log2Cap) && keys <= records.Keys
      ensures |keys| <= Cap() && |cells| == |keys|
      ensures forall i :: i in cells <==> exists key :: key in keys && ProbeAt(hash, key, disp[key], log2Cap) == i
      decreases |keys|
    {
      hide CellOf, Pow2, Passed;
      if key :| key in keys {
        var rest := Injective(keys - {key});
        var i := ProbeAt(hash, key, disp[key], log2Cap);
        assert Stored(slots[..], hash, key, records[key], disp[key], log2Cap);
        forall q | q in keys - {key}
          ensures ProbeAt(hash, q, disp[q], log2Cap) != i
        {
          assert Stored(slots[..], hash, q, records[q], disp[q], log2Cap);
        }
        cells := rest + {i};
        forall c | c in cells
          ensures c < Cap()
        {
          var q :| q in keys && ProbeAt(hash, q, disp[q], log2Cap) == c;
          ProbeBound(hash, q, disp[q], log2Cap);
        }
        BoundedSize(cells, Cap());
      } else {
        cells := {};
      }
    }

    // ---- what the doctor records ----

    /**
     Record an allocation. No record but the pointer's own changes, unless the table is evicted: then
     exactly the live ones stay. It fails only in a full table, and never while tables can be mapped.
     */
    method RecordAlloc(ptr: nat, reqSize: nat, op: nat, mappedDrop: bool, mappedGrow: bool) returns (stored: bool)
      requires Valid() && ptr > 0
      modifies this, slots
      ensures Valid()
      ensures stored <==> ptr in old(Survivors(mappedDrop)) || |old(Survivors(mappedDrop))| < Cap()
      ensures mappedGrow ==> stored && occupied < Cap()
      ensures records == if stored then old(Survivors(mappedDrop))[ptr := Rec(ptr, Live, reqSize, op, 0, 0)] else old(Survivors(mappedDrop))
      ensures log2Cap == if mappedGrow && old(Doubles(mappedDrop)) then old(log2Cap) + 1 else old(log2Cap)
      ensures forall key :: key in old(records) && key != ptr && (old(records)[key].state.Live? || !old(Evicts(mappedDrop))) ==>
                            key in records && records[key] == old(records)[key]
    {
      hide Holds, CellOf, Pow2, LiveKeys, Passed, ProbeAt;
      GrowIfNeeded(mappedDrop, mappedGrow);
      var i, d := SlotFor(ptr);
      if i == NOT_FOUND {
        return false;
      }
      ghost var r := Rec(ptr, Live, reqSize, op, 0, 0);
      KeyOf(ptr);
      LiveUpdate(records, ptr, r);
      KeysUpdate(records, ptr, r);
      if slots[i].state.Empty? {
        occupied := occupied + 1;
      }
      if !slots[i].state.Live? {
        nLive := nLive + 1;
      }
      Put(i, Rec(ptr, Live, reqSize, op, 0, 0), d);
      Fits();
      return true;
    }

    /** Record that a pointer was freed or tombstoned. Unknown pointers and repeated frees change nothing. */
    method MarkFree(ptr: nat, to: RecState, len: nat, op: nat)
      requires Valid() && (to.Freed? || to.Tombstoned?)
      modifies this`records, this`disp, this`nLive, slots
      ensures Valid()
      ensures records == if ptr in old(records) && old(records)[ptr].state.Live?
                         then old(records)[ptr := old(records)[ptr].(state := to, freeOp := op, freeLen := len)]
                         else old(records)
    {
      hide Holds, CellOf, Pow2, LiveKeys, Passed, ProbeAt;
      var i := Find(ptr);
      if i == NOT_FOUND {
        return;
      }
      var s := slots[i];
      KeyOf(ptr);
      if s.state.Freed? || s.state.Tombstoned? || s.state.Quarantined? {
        return;
      }
      var r := s.(state := to, freeOp := op, freeLen := len);
      Rewrite(i, r);
    }

    /** A block given up deliberately no longer counts as live. */
    method Quarantine(ptr: nat)
      requires Valid()
      modifies this`records, this`disp, this`nLive, slots
      ensures Valid()
      ensures records == if ptr in old(records) then old(records)[ptr := old(records)[ptr].(state := Quarantined)] else old(records)
    {
      hide Holds, CellOf, Pow2, LiveKeys, Passed, ProbeAt;
      var i := Find(ptr);
      if i == NOT_FOUND {
        return;
      }
      KeyOf(ptr);
      Rewrite(i, slots[i].(state := Quarantined));
    }

    /** Overwrite the record in cell i by one that is not live. */
    method Rewrite(i: nat, r: Rec)
      requires Valid() && r.key in records && i == ProbeAt(hash, r.key, disp[r.key], log2Cap) && i < slots.Length
      requires slots[i] == records[r.key] && slots[i].key == r.key && !r.state.Empty? && !r.state.Live?
      modifies this`records, this`disp, this`nLive, slots
      ensures Valid() && records == old(records)[r.key := r]
    {
      hide Holds, CellOf, Pow2, LiveKeys, ProbeAt;
      Shape();
      LiveUpdate(records, r.key, r);
      KeysUpdate(records, r.key, r);
      PathPassed(slots[..], hash, records, disp, r.key, log2Cap);
      if slots[i].state.Live? && nLive > 0 {
        nLive := nLive - 1;
      }
      Put(i, r, disp[r.key]);
    }
  }

  lemma {:induction false} BoundedSize(s: set<nat>, n: nat)
    requires forall x :: x in s ==> x < n
    ensures |s| <= n
    decreases n
  {
    if n == 0 {
      assert s == {};
    } else {
      SetSize(s, n - 1);
      BoundedSize(s - {n - 1}, n - 1);
    }
  }
}
