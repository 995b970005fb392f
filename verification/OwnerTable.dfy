/**
 The table from granules to arenas, written and cleared one entry at a time by the threads that create
 and release sheets, while others look addresses up. Sequential consistency.
 */
module OwnerTable {
  import opened Tiling
  import opened VaReserve

  const NOBODY: nat := 0

  datatype Phase = Registering(n: nat) | Live | Clearing(n: nat)

  /** A sheet of `len` granules from `first`, owned by an arena, in some phase of its life. */
  datatype Sheet = Sheet(first: nat, len: nat, arena: nat, phase: Phase)

  datatype State = State(table: seq<nat>, sheets: map<nat, Sheet>)

  datatype Action =
    | Create(id: nat, first: nat, len: nat, arena: nat)   // a run was carved
    | Step(id: nat)                                       // one entry is stored or cleared
    | Retire(id: nat)                                     // the sheet is being released
    | Return(id: nat)                                     // its run goes back to the reserve

  predicate Meets(a: Sheet, first: nat, len: nat)
  {
    a.first < first + len && first < a.first + a.len
  }

  /** A run can be carved only where no sheet is; it is returned only after every entry was cleared. */
  ghost predicate Enabled(s: State, a: Action)
  {
    match a
    case Create(id, first, len, arena) =>
      && id !in s.sheets && arena != NOBODY && len > 0 && first + len <= |s.table|
      && forall j :: j in s.sheets ==> !Meets(s.sheets[j], first, len)
    case Step(id) =>
      && id in s.sheets
      && !s.sheets[id].phase.Live?
      && (s.sheets[id].phase.Clearing? ==> s.sheets[id].phase.n < s.sheets[id].len)
    case Retire(id) => id in s.sheets && s.sheets[id].phase.Live?
    case Return(id) => id in s.sheets && s.sheets[id].phase == Clearing(s.sheets[id].len)
  }

  function Put(table: seq<nat>, g: nat, arena: nat): seq<nat>
  {
    if g < |table| then table[g := arena] else table
  }

  ghost function Apply(s: State, a: Action): State
    requires Enabled(s, a)
  {
    match a
    case Create(id, first, len, arena) => s.(sheets := s.sheets[id := Sheet(first, len, arena, Registering(0))])
    case Step(id) =>
      var b := s.sheets[id];
      (match b.phase
       case Registering(n) =>
         if n < b.len then
           State(Put(s.table, b.first + n, b.arena), s.sheets[id := b.(phase := Registering(n + 1))])
         else s.(sheets := s.sheets[id := b.(phase := Live)])
       case Clearing(n) => State(Put(s.table, b.first + n, NOBODY), s.sheets[id := b.(phase := Clearing(n + 1))])
       case Live => s)
    case Retire(id) => s.(sheets := s.sheets[id := s.sheets[id].(phase := Clearing(0))])
    case Return(id) => s.(sheets := s.sheets - {id})
  }

  /** What the table holds at granule g of sheet b. */
  function Entry(b: Sheet, g: nat): nat
  {
    match b.phase
    case Registering(n) => if g < b.first + n then b.arena else NOBODY
    case Live => b.arena
    case Clearing(n) => if g < b.first + n then NOBODY else b.arena
  }

  predicate Inside(b: Sheet, g: nat)
  {
    b.first <= g < b.first + b.len
  }

  ghost predicate SheetOk(s: State, id: nat)
    requires id in s.sheets
  {
    var b := s.sheets[id];
    && b.len > 0 && b.first + b.len <= |s.table| && b.arena != NOBODY
    && (b.phase.Registering? ==> b.phase.n <= b.len)
    && (forall g: nat :: g < |s.table| && Inside(b, g) ==> s.table[g] == Entry(b, g))
    && forall j :: j in s.sheets && j != id ==> !Meets(s.sheets[j], b.first, b.len)
  }

  ghost predicate Covered(s: State, g: nat)
  {
    exists id :: id in s.sheets && Inside(s.sheets[id], g)
  }

  ghost predicate Inv(s: State)
  {
    && (forall id :: id in s.sheets ==> SheetOk(s, id))
    && forall g: nat :: g < |s.table| && !Covered(s, g) ==> s.table[g] == NOBODY
  }

  lemma StillCovered(s: State, n: State, g: nat)
    requires forall j :: j in s.sheets ==>
               j in n.sheets && n.sheets[j].first == s.sheets[j].first && n.sheets[j].len == s.sheets[j].len
    ensures Covered(s, g) ==> Covered(n, g)
  {
    if Covered(s, g) {
      var j :| j in s.sheets && Inside(s.sheets[j], g);
      assert j in n.sheets && Inside(n.sheets[j], g);
    }
  }

  lemma OtherCovered(s: State, id: nat, g: nat)
    requires id in s.sheets
    ensures Covered(s, g) ==> Inside(s.sheets[id], g) || Covered(s.(sheets := s.sheets - {id}), g)
  {
    var n := s.(sheets := s.sheets - {id});
    if Covered(s, g) {
      var j :| j in s.sheets && Inside(s.sheets[j], g);
      if j != id {
        assert j in n.sheets && Inside(n.sheets[j], g);
      }
    }
  }

  lemma CreateKeeps(s: State, id: nat, first: nat, len: nat, arena: nat)
    requires Inv(s) && Enabled(s, Create(id, first, len, arena))
    ensures Inv(Apply(s, Create(id, first, len, arena)))
  {
    var n := Apply(s, Create(id, first, len, arena));
    var b := n.sheets[id];
    forall g: nat | g < |s.table| && Inside(b, g)
      ensures s.table[g] == NOBODY
    {
      forall j | j in s.sheets
        ensures !Inside(s.sheets[j], g)
      {
        assert !Meets(s.sheets[j], first, len);
      }
    }
    forall j | j in n.sheets
      ensures SheetOk(n, j)
    {
      assert j != id ==> SheetOk(s, j);
    }
    forall g: nat | g < |n.table| && !Covered(n, g)
      ensures n.table[g] == NOBODY
    {
      StillCovered(s, n, g);
    }
  }

  /** One entry of one sheet changes along with its phase; no other sheet has that granule. */
  lemma PhaseKeeps(s: State, id: nat, g: nat, v: nat, b': Sheet)
    requires Inv(s) && id in s.sheets
    requires b'.first == s.sheets[id].first && b'.len == s.sheets[id].len && b'.arena == s.sheets[id].arena
    requires b'.phase.Registering? ==> b'.phase.n <= b'.len
    requires forall h: nat :: Inside(b', h) ==> Entry(b', h) == if h == g then v else Entry(s.sheets[id], h)
    requires Inside(b', g)
    ensures Inv(State(Put(s.table, g, v), s.sheets[id := b']))
  {
    var n := State(Put(s.table, g, v), s.sheets[id := b']);
    assert SheetOk(s, id);
    forall j | j in n.sheets
      ensures SheetOk(n, j)
    {
      assert SheetOk(s, j);
      if j != id {
        assert !Meets(s.sheets[j], b'.first, b'.len);
      }
    }
    forall h: nat | h < |n.table| && !Covered(n, h)
      ensures n.table[h] == NOBODY
    {
      StillCovered(s, n, h);
      assert !Inside(n.sheets[id], h);
    }
  }

  lemma ReturnKeeps(s: State, id: nat)
    requires Inv(s) && Enabled(s, Return(id))
    ensures Inv(Apply(s, Return(id)))
  {
    var n := Apply(s, Return(id));
    assert SheetOk(s, id);
    forall j | j in n.sheets
      ensures SheetOk(n, j)
    {
      assert SheetOk(s, j);
    }
    forall g: nat | g < |n.table| && !Covered(n, g)
      ensures n.table[g] == NOBODY
    {
      OtherCovered(s, id, g);
    }
  }

  lemma SheetKnown(s: State, id: nat)
    requires Inv(s) && id in s.sheets
    ensures SheetOk(s, id)
  {
  }

  lemma EntryKeeps(s: State, id: nat)
    requires Inv(s) && Enabled(s, Step(id))
    ensures Inv(Apply(s, Step(id)))
  {
    hide Inv, Meets, Put, Covered;
    var b := s.sheets[id];
    assert b.len > 0 && (b.phase.Registering? ==> b.phase.n <= b.len) by {
      SheetKnown(s, id);
    }
    hide SheetOk;
    match b.phase {
      case Registering(n) =>
        if n < b.len {
          PhaseKeeps(s, id, b.first + n, b.arena, b.(phase := Registering(n + 1)));
        } else {
          SameEntries(s, id, b.(phase := Live));
        }
      case Clearing(n) => PhaseKeeps(s, id, b.first + n, NOBODY, b.(phase := Clearing(n + 1)));
    }
  }

  lemma StepKeeps(s: State, a: Action)
    requires Inv(s) && Enabled(s, a)
    ensures Inv(Apply(s, a)) && |Apply(s, a).table| == |s.table|
  {
    hide Inv;
    match a {
      case Create(id, first, len, arena) => CreateKeeps(s, id, first, len, arena);
      case Step(id) => EntryKeeps(s, id);
      case Retire(id) => SameEntries(s, id, s.sheets[id].(phase := Clearing(0)));
      case Return(id) => ReturnKeeps(s, id);
    }
  }

  /** A phase ends without touching the table. */
  lemma SameEntries(s: State, id: nat, b': Sheet)
    requires Inv(s) && id in s.sheets
    requires b'.first == s.sheets[id].first && b'.len == s.sheets[id].len && b'.arena == s.sheets[id].arena
    requires !b'.phase.Registering?
    requires forall h: nat :: Inside(b', h) ==> Entry(b', h) == Entry(s.sheets[id], h)
    ensures Inv(s.(sheets := s.sheets[id := b']))
  {
    assert SheetOk(s, id);
    var g := b'.first;
    assert Inside(b', g) && s.table[g] == Entry(s.sheets[id], g);
    PhaseKeeps(s, id, g, Entry(s.sheets[id], g), b');
    assert Put(s.table, g, Entry(s.sheets[id], g)) == s.table;
  }

  /** The run of actions can be taken one after the other. */
  ghost predicate Runs(s: State, run: seq<Action>)
    decreases |run|
  {
    run == [] || (Enabled(s, run[0]) && Runs(Apply(s, run[0]), run[1..]))
  }

  ghost function After(s: State, run: seq<Action>): State
    requires Runs(s, run)
    decreases |run|
  {
    if run == [] then s else After(Apply(s, run[0]), run[1..])
  }

  lemma {:induction false} RunKeeps(s: State, run: seq<Action>)
    requires Inv(s) && Runs(s, run)
    ensures Inv(After(s, run)) && |After(s, run).table| == |s.table|
    decreases |run|
  {
    if run != [] {
      StepKeeps(s, run[0]);
      RunKeeps(Apply(s, run[0]), run[1..]);
    }
  }

  /** Granule g maps to the arena of its live sheet, to nobody if it is in no sheet, and never to a stranger. */
  ghost predicate TableTells(s: State, g: nat)
    requires g < |s.table|
  {
    && (forall id :: id in s.sheets && s.sheets[id].phase.Live? && Inside(s.sheets[id], g) ==> s.table[g] == s.sheets[id].arena)
    && (!Covered(s, g) ==> s.table[g] == NOBODY)
    && (forall id :: id in s.sheets && Inside(s.sheets[id], g) && s.table[g] != NOBODY ==> s.table[g] == s.sheets[id].arena)
  }

  lemma Tells(s: State, g: nat)
    requires Inv(s) && g < |s.table|
    ensures TableTells(s, g)
  {
    forall id | id in s.sheets && Inside(s.sheets[id], g)
      ensures s.table[g] == Entry(s.sheets[id], g)
    {
      assert SheetOk(s, id);
    }
  }

  /**
   At every moment of every run: each granule of a live sheet maps to its arena, and a granule of no
   sheet to nobody. In particular a sheet being cleared never takes a new sheet's entry with it.
   */
  lemma LookupAgrees(s: State, run: seq<Action>, g: nat)
    requires s.sheets == map[] && (forall h :: 0 <= h < |s.table| ==> s.table[h] == NOBODY) && Runs(s, run) && g < |s.table|
    ensures |After(s, run).table| == |s.table| && TableTells(After(s, run), g)
  {
    RunKeeps(s, run);
    Tells(After(s, run), g);
  }

  // ---- a sheet's whole life ----

  /** n steps of one sheet. */
  function Steps(id: nat, n: nat): seq<Action>
  {
    if n == 0 then [] else [Step(id)] + Steps(id, n - 1)
  }

  /** The table with the granules [lo, hi) set. */
  function Filled(table: seq<nat>, lo: nat, hi: nat, v: nat): (r: seq<nat>)
    requires hi <= |table|
    ensures |r| == |table| && forall g: nat :: g < |table| ==> r[g] == if lo <= g < hi then v else table[g]
    decreases hi - lo
  {
    if lo >= hi then table else Filled(table[lo := v], lo + 1, hi, v)
  }

  lemma FirstStep(s: State, a: Action, rest: seq<Action>)
    requires Enabled(s, a) && Runs(Apply(s, a), rest)
    ensures Runs(s, [a] + rest) && After(s, [a] + rest) == After(Apply(s, a), rest)
  {
    assert ([a] + rest)[1..] == rest;
  }

  /** A registration alone comes to its end: every granule is entered, and the sheet is live. */
  lemma {:induction false} RegisterCompletes(s: State, id: nat, n: nat)
    requires id in s.sheets && s.sheets[id].phase == Registering(n) && n <= s.sheets[id].len
    requires s.sheets[id].first + s.sheets[id].len <= |s.table|
    ensures var b := s.sheets[id]; var run := Steps(id, b.len - n + 1);
            && Runs(s, run)
            && After(s, run) == State(Filled(s.table, b.first + n, b.first + b.len, b.arena), s.sheets[id := b.(phase := Live)])
    decreases s.sheets[id].len - n
  {
    var b := s.sheets[id];
    var m := Apply(s, Step(id));
    if n < b.len {
      RegisterCompletes(m, id, n + 1);
      assert m.sheets[id := b.(phase := Live)] == s.sheets[id := b.(phase := Live)];
    } else {
      assert Runs(m, Steps(id, 0));
    }
    FirstStep(s, Step(id), Steps(id, b.len - n));
  }

  /** So does a clearing: every granule is cleared, and the run may go back. */
  lemma {:induction false} ClearCompletes(s: State, id: nat, n: nat)
    requires id in s.sheets && s.sheets[id].phase == Clearing(n) && n <= s.sheets[id].len
    requires s.sheets[id].first + s.sheets[id].len <= |s.table|
    ensures var b := s.sheets[id]; var run := Steps(id, b.len - n);
            && Runs(s, run)
            && After(s, run) == State(Filled(s.table, b.first + n, b.first + b.len, NOBODY), s.sheets[id := b.(phase := Clearing(b.len))])
            && Enabled(After(s, run), Return(id))
    decreases s.sheets[id].len - n
  {
    var b := s.sheets[id];
    if n < b.len {
      var m := Apply(s, Step(id));
      ClearCompletes(m, id, n + 1);
      assert m.sheets[id := b.(phase := Clearing(b.len))] == s.sheets[id := b.(phase := Clearing(b.len))];
      FirstStep(s, Step(id), Steps(id, b.len - n - 1));
    } else {
      assert s.sheets[id := b] == s.sheets;
    }
  }

  lemma {:induction false} JoinRuns(s: State, a: seq<Action>, b: seq<Action>)
    requires Runs(s, a) && Runs(After(s, a), b)
    ensures Runs(s, a + b) && After(s, a + b) == After(After(s, a), b)
    decreases |a|
  {
    if a == [] {
      assert a + b == b;
    } else {
      JoinRuns(Apply(s, a[0]), a[1..], b);
      assert (a + b)[1..] == a[1..] + b;
    }
  }

  /** The steps from a sheet's creation to its being live, and from its retirement to its return. */
  function Rise(id: nat, first: nat, len: nat, arena: nat): seq<Action>
  {
    [Create(id, first, len, arena)] + Steps(id, len + 1)
  }

  function Fall(id: nat, len: nat): seq<Action>
  {
    [Retire(id)] + Steps(id, len) + [Return(id)]
  }

  /** A sheet created where none is becomes live with its own entries and no other entry changed. */
  lemma Rises(s: State, id: nat, first: nat, len: nat, arena: nat)
    requires Inv(s) && Enabled(s, Create(id, first, len, arena))
    ensures Runs(s, Rise(id, first, len, arena))
    ensures After(s, Rise(id, first, len, arena))
         == State(Filled(s.table, first, first + len, arena), s.sheets[id := Sheet(first, len, arena, Live)])
  {
    hide Inv;
    var m := Apply(s, Create(id, first, len, arena));
    RegisterCompletes(m, id, 0);
    FirstStep(s, Create(id, first, len, arena), Steps(id, len + 1));
    assert m.sheets[id := Sheet(first, len, arena, Live)] == s.sheets[id := Sheet(first, len, arena, Live)];
  }

  /** A live sheet that is released goes with its own entries and no other. */
  lemma Falls(s: State, id: nat)
    requires Inv(s) && Enabled(s, Retire(id))
    ensures var b := s.sheets[id];
            && b.first + b.len <= |s.table| && Runs(s, Fall(id, b.len))
            && After(s, Fall(id, b.len)) == State(Filled(s.table, b.first, b.first + b.len, NOBODY), s.sheets - {id})
  {
    hide Inv, SheetOk, Runs, After;
    SheetFits(s, id);
    var b := s.sheets[id];
    var m := Apply(s, Retire(id));
    Returns(m, id);
    FirstStep(s, Retire(id), Steps(id, b.len) + [Return(id)]);
    assert Fall(id, b.len) == [Retire(id)] + (Steps(id, b.len) + [Return(id)]);
    assert m.sheets - {id} == s.sheets - {id};
  }

  lemma SheetFits(s: State, id: nat)
    requires Inv(s) && id in s.sheets
    ensures s.sheets[id].first + s.sheets[id].len <= |s.table|
  {
    assert SheetOk(s, id);
  }

  lemma Returns(s: State, id: nat)
    requires id in s.sheets && s.sheets[id].phase == Clearing(0) && s.sheets[id].first + s.sheets[id].len <= |s.table|
    ensures var b := s.sheets[id]; var run := Steps(id, b.len) + [Return(id)];
            && Runs(s, run) && After(s, run) == State(Filled(s.table, b.first, b.first + b.len, NOBODY), s.sheets - {id})
  {
    var b := s.sheets[id];
    ClearCompletes(s, id, 0);
    var c := After(s, Steps(id, b.len));
    assert Runs(Apply(c, Return(id)), []);
    FirstStep(c, Return(id), []);
    assert [Return(id)] + [] == [Return(id)];
    assert Apply(c, Return(id)).sheets == s.sheets - {id};
    hide Apply;
    JoinRuns(s, Steps(id, b.len), [Return(id)]);
  }

  /** A sheet's whole life leaves the table and the other sheets as they were. */
  lemma SheetLife(s: State, id: nat, first: nat, len: nat, arena: nat)
    requires Inv(s) && Enabled(s, Create(id, first, len, arena))
    ensures var run := Rise(id, first, len, arena) + Fall(id, len); Runs(s, run) && After(s, run) == s
  {
    Rises(s, id, first, len, arena);
    var m := After(s, Rise(id, first, len, arena));
    RunKeeps(s, Rise(id, first, len, arena));
    Falls(m, id);
    JoinRuns(s, Rise(id, first, len, arena), Fall(id, len));
    NothingThere(s, id, first, len, arena);
    hide Inv;
    assert Filled(m.table, first, first + len, NOBODY) == s.table;
    assert m.sheets - {id} == s.sheets;
  }

  lemma NothingThere(s: State, id: nat, first: nat, len: nat, arena: nat)
    requires Inv(s) && Enabled(s, Create(id, first, len, arena))
    ensures forall g: nat :: first <= g < first + len ==> s.table[g] == NOBODY
  {
    forall g: nat | first <= g < first + len
      ensures s.table[g] == NOBODY
    {
      forall j | j in s.sheets
        ensures !Inside(s.sheets[j], g)
      {
        assert !Meets(s.sheets[j], first, len);
      }
    }
  }

  // ---- the reserve delivers what creation needs ----

  /** Every sheet lies in a granted piece of the reserve, each in its own. */
  ghost predicate Backed(sheets: map<nat, Sheet>, m: Layout)
  {
    forall id :: id in sheets ==> sheets[id].first in m && m[sheets[id].first] == Seg(sheets[id].len, Alloc)
  }

  /** A run the reserve newly grants meets no sheet. */
  lemma CarveMeetsNone(sheets: map<nat, Sheet>, m: Layout, m': Layout, cursor: nat, off: nat, len: nat)
    requires Backed(sheets, m) && Pieces(m', cursor) && off in m' && m'[off] == Seg(len, Alloc)
    requires off in m ==> m[off].kind.Free?
    requires forall s: nat :: s in m && !m[s].kind.Free? ==> s in m' && m'[s] == m[s]
    ensures forall j :: j in sheets ==> !Meets(sheets[j], off, len)
    ensures Backed(sheets, m')
  {
    forall j | j in sheets
      ensures !Meets(sheets[j], off, len) && sheets[j].first in m' && m'[sheets[j].first] == Seg(sheets[j].len, Alloc)
    {
      var f := sheets[j].first;
      assert f in m && f in m' && f != off;
      assert f < off ==> End(m', f) <= off;
      assert off < f ==> End(m', off) <= f;
    }
  }

  // ---- the table and the reserve together ----

  /** The table, and the reserve's pieces below its cursor. */
  datatype Joint = Joint(owners: State, layout: Layout, cursor: nat)

  datatype Event =
    | Carved(id: nat, off: nat, len: nat, arena: nat, left: Layout, past: nat)  // a run was granted
    | Missed(left: Layout, past: nat)                                          // none was
    | Stored(id: nat)
    | Retired(id: nat)
    | Released(id: nat, listed: bool)                                          // the run went back

  /** A request leaves what was granted or leaked before as it was, and the cursor within the table. */
  ghost predicate Carves(s: Joint, left: Layout, past: nat)
  {
    && Pieces(left, past) && past <= |s.owners.table|
    && forall f: nat :: f in s.layout && !s.layout[f].kind.Free? ==> f in left && left[f] == s.layout[f]
  }

  /** What the reserve and the sheets' own lives allow; that a carved run meets no sheet is not assumed. */
  ghost predicate Possible(s: Joint, e: Event)
  {
    match e
    case Carved(id, off, len, arena, left, past) =>
      && Carves(s, left, past) && id !in s.owners.sheets && arena != NOBODY
      && (off in s.layout ==> s.layout[off].kind.Free?) && off in left && left[off] == Seg(len, Alloc)
    case Missed(left, past) => Carves(s, left, past)
    case Stored(id) => Enabled(s.owners, Step(id))
    case Retired(id) => Enabled(s.owners, Retire(id))
    case Released(id, listed) => Enabled(s.owners, Return(id))
  }

  /** What an event does to the table. */
  function OnTable(e: Event): seq<Action>
  {
    match e
    case Carved(id, off, len, arena, _, _) => [Create(id, off, len, arena)]
    case Missed(_, _) => []
    case Stored(id) => [Step(id)]
    case Retired(id) => [Retire(id)]
    case Released(id, _) => [Return(id)]
  }

  /** What an event does to the reserve. */
  ghost function OnReserve(s: Joint, e: Event): Joint
  {
    match e
    case Carved(_, _, _, _, left, past) => s.(layout := left, cursor := past)
    case Missed(left, past) => s.(layout := left, cursor := past)
    case Stored(id) => s
    case Retired(id) => s
    case Released(id, listed) =>
      if id in s.owners.sheets && s.owners.sheets[id].first in s.layout then
        s.(layout := Retag(s.layout, s.owners.sheets[id].first, if listed then Free else Tombstoned))
      else s
  }

  ghost predicate JointInv(s: Joint)
  {
    && Inv(s.owners) && Pieces(s.layout, s.cursor) && s.cursor <= |s.owners.table|
    && Backed(s.owners.sheets, s.layout)
  }

  /** Each event is an enabled step of the table, or none. */
  lemma EventEnabled(s: Joint, e: Event)
    requires JointInv(s) && Possible(s, e)
    ensures Runs(s.owners, OnTable(e))
  {
    hide Inv;
    if e.Carved? {
      CarveMeetsNone(s.owners.sheets, s.layout, e.left, e.past, e.off, e.len);
      assert Linked(e.left, e.off, e.past);
      assert Enabled(s.owners, Create(e.id, e.off, e.len, e.arena));
    }
    if !e.Missed? {
      assert OnTable(e)[1..] == [];
    }
  }

  ghost function JointAfter(s: Joint, e: Event): Joint
  {
    OnReserve(s, e).(owners := if Runs(s.owners, OnTable(e)) then After(s.owners, OnTable(e)) else s.owners)
  }

  /** No event breaks the table, and every sheet keeps the granted piece it was carved from. */
  lemma EventKeeps(s: Joint, e: Event)
    requires JointInv(s) && Possible(s, e)
    ensures Runs(s.owners, OnTable(e)) && JointInv(JointAfter(s, e))
    ensures |JointAfter(s, e).owners.table| == |s.owners.table|
    ensures e.Missed? ==> JointAfter(s, e).owners == s.owners
    ensures !e.Missed? ==> Enabled(s.owners, OnTable(e)[0]) && JointAfter(s, e).owners == Apply(s.owners, OnTable(e)[0])
  {
    EventEnabled(s, e);
    var n := JointAfter(s, e);
    RunKeeps(s.owners, OnTable(e));
    if e.Missed? {
      assert n.owners == s.owners;
    } else {
      assert OnTable(e)[1..] == [] && n.owners == Apply(s.owners, OnTable(e)[0]);
    }
    if e.Released? {
      ReleaseBacked(s, e.id, e.listed);
    } else if e.Carved? {
      CarveMeetsNone(s.owners.sheets, s.layout, e.left, e.past, e.off, e.len);
    }
  }

  /** A sheet's run goes back; every other sheet still has its own piece. */
  lemma ReleaseBacked(s: Joint, id: nat, listed: bool)
    requires JointInv(s) && Enabled(s.owners, Return(id))
    ensures var n := OnReserve(s, Released(id, listed));
            Pieces(n.layout, s.cursor) && Backed(s.owners.sheets - {id}, n.layout)
  {
    hide Tiles, Pieces;
    var b := s.owners.sheets[id];
    forall j | j in s.owners.sheets && j != id
      ensures s.owners.sheets[j].first != b.first
    {
      assert SheetOk(s.owners, j) && SheetOk(s.owners, id);
    }
    hide Inv, SheetOk;
    PieceBack(s.layout, s.cursor, b.first, if listed then Free else Tombstoned);
  }

  lemma PieceBack(m: Layout, cursor: nat, off: nat, k: Kind)
    requires Pieces(m, cursor) && off in m && (k.Free? || k.Tombstoned?)
    ensures Pieces(Retag(m, off, k), cursor)
  {
    RetagTiles(m, off, k, 0, cursor);
    hide Tiles;
  }

  ghost predicate JointRuns(s: Joint, run: seq<Event>)
    decreases |run|
  {
    run == [] || (Possible(s, run[0]) && JointRuns(JointAfter(s, run[0]), run[1..]))
  }

  ghost function JointEnd(s: Joint, run: seq<Event>): Joint
    decreases |run|
  {
    if run == [] then s else JointEnd(JointAfter(s, run[0]), run[1..])
  }

  lemma {:induction false} JointKeeps(s: Joint, run: seq<Event>)
    requires JointInv(s) && JointRuns(s, run)
    ensures JointInv(JointEnd(s, run)) && |JointEnd(s, run).owners.table| == |s.owners.table|
    decreases |run|
  {
    hide JointInv;
    if run != [] {
      EventKeeps(s, run[0]);
      JointKeeps(JointAfter(s, run[0]), run[1..]);
    }
  }

  /**
   In every state the table and the reserve reach together, the table agrees with the live sheets, each
   sheet has its own granted piece, and no two meet. Nothing about the carved runs is assumed beyond
   what the reserve's own contract says.
   */
  lemma JointAgrees(s: Joint, run: seq<Event>, g: nat)
    requires s.owners.sheets == map[] && (forall h :: 0 <= h < |s.owners.table| ==> s.owners.table[h] == NOBODY)
    requires s.layout == map[] && s.cursor == 0 && JointRuns(s, run) && g < |s.owners.table|
    ensures var n := JointEnd(s, run);
            && |n.owners.table| == |s.owners.table| && TableTells(n.owners, g) && Backed(n.owners.sheets, n.layout)
            && forall i, j :: i in n.owners.sheets && j in n.owners.sheets && i != j ==>
                 !Meets(n.owners.sheets[i], n.owners.sheets[j].first, n.owners.sheets[j].len)
  {
    JointKeeps(s, run);
    var n := JointEnd(s, run);
    Tells(n.owners, g);
    forall i, j | i in n.owners.sheets && j in n.owners.sheets && i != j
      ensures !Meets(n.owners.sheets[i], n.owners.sheets[j].first, n.owners.sheets[j].len)
    {
      assert SheetOk(n.owners, j);
    }
  }

  // ---- the reserve's methods make these events ----

  /** A call of the reserve that carves a sheet's run, as one event of the joint run. */
  method CarveSheet(r: Reserve, bytes: nat, backed: bool, backedFresh: bool, ghost s: Joint, ghost id: nat, ghost arena: nat)
    returns (g: Grant, ghost e: Event)
    requires r.Valid() && bytes <= CARVE_LIMIT && JointInv(s) && s.layout == r.layout && s.cursor == r.cursor
    requires r.cursor + Rounded(bytes) < U64_GRANULES && r.total == |s.owners.table| && id !in s.owners.sheets && arena != NOBODY
    modifies r`count, r`cursor, r`layout, r.runs
    ensures r.Valid() && Possible(s, e) && (g.Granted? <==> e.Carved?) && (g.Failed? <==> e.Missed?)
    ensures JointInv(JointAfter(s, e)) && JointAfter(s, e).layout == r.layout && JointAfter(s, e).cursor == r.cursor
    ensures g.Granted? ==> g.slot == r.Slot(e.off) && id in JointAfter(s, e).owners.sheets
                           && JointAfter(s, e).owners.sheets[id] == Sheet(e.off, Granules(bytes), arena, Registering(0))
  {
    hide Inv, Backed, Pieces, Tiles, Listed, Runs, After;
    g := r.Carve(bytes, backed, backedFresh);
    if g.Granted? {
      ghost var off: nat :| g == Granted(r.Slot(off)) && r.NewGrant(s.layout, r.layout, off, Granules(bytes));
      e := Carved(id, off, Granules(bytes), arena, r.layout, r.cursor);
    } else {
      e := Missed(r.layout, r.cursor);
    }
    EventKeeps(s, e);
  }

  /** A call of the reserve that takes a cleared sheet's run back; its argument is right by the invariant. */
  method ReturnSheet(r: Reserve, slot: nat, bytes: nat, ghost s: Joint, ghost id: nat) returns (ghost e: Event)
    requires r.Valid() && bytes <= CARVE_LIMIT && JointInv(s) && s.layout == r.layout && s.cursor == r.cursor
    requires Enabled(s.owners, Return(id))
    requires slot == r.Slot(s.owners.sheets[id].first) && Granules(bytes) == s.owners.sheets[id].len
    modifies r`count, r`layout, r.runs
    ensures r.Valid() && Possible(s, e) && e.Released?
    ensures JointInv(JointAfter(s, e)) && JointAfter(s, e).layout == r.layout && JointAfter(s, e).cursor == r.cursor
    ensures id !in JointAfter(s, e).owners.sheets
  {
    r.PieceInside(s.owners.sheets[id].first);
    ghost var had := r.count < r.runs.Length;
    r.Release(slot, bytes, s.owners.sheets[id].first);
    e := Released(id, had);
    EventKeeps(s, e);
  }
}
