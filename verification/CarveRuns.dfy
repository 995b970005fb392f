/**
 Several threads carving at once, one shared access at a time: the locked search of the list, the
 kernel's answer, the load of the cursor and its exchange are steps of their own. Sequential consistency.
 */
module CarveRuns {
  import opened Tiling
  import opened VaReserve

  /** Where a thread stands inside a carve of n granules. */
  datatype Pc =
    | Away
    | Searching(n: nat)                // the list is to be searched
    | Backing(off: nat, n: nat)        // a listed run was taken; the kernel is to back it
    | Reading(n: nat)                  // the cursor is to be loaded
    | Swinging(n: nat, seen: nat)      // the cursor is to be tested and advanced
    | BackingFresh(off: nat, n: nat)   // fresh granules were taken; the kernel is to back them

  /** `held` are the runs handed out and not returned. */
  datatype State = State(layout: Layout, cursor: nat, total: nat, pcs: map<nat, Pc>, held: set<nat>)

  datatype Action =
    | Call(t: nat, n: nat)
    | Take(t: nat, off: nat, left: Layout)   // the search finds a run and cuts it
    | FindNone(t: nat)
    | Back(t: nat, ok: bool)
    | Read(t: nat)
    | Swing(t: nat, spurious: bool)          // a weak exchange may fail for no reason
    | Return(off: nat, listed: bool)         // a run comes back, to the list if that has room

  function PcOf(s: State, t: nat): Pc
  {
    if t in s.pcs then s.pcs[t] else Away
  }

  function At(s: State, t: nat, pc: Pc): State
  {
    s.(pcs := s.pcs[t := pc])
  }

  /** Requests within the carver's limits: the granule count fits 32 bits and the sum does not wrap. */
  ghost predicate Enabled(s: State, a: Action)
  {
    match a
    case Call(t, n) => PcOf(s, t).Away? && 0 < n < U32_RANGE && s.total + n < U64_GRANULES
    case Take(t, off, left) => PcOf(s, t).Searching? && Reserve.Reused(s.layout, left, off, PcOf(s, t).n)
    case FindNone(t) => PcOf(s, t).Searching? && !Reserve.Listable(s.layout, PcOf(s, t).n)
    case Back(t, ok) => PcOf(s, t).Backing? || PcOf(s, t).BackingFresh?
    case Read(t) => PcOf(s, t).Reading?
    case Swing(t, spurious) => PcOf(s, t).Swinging?
    case Return(off, listed) => off in s.held
  }

  function Lose(m: Layout, off: nat, k: Kind): Layout
  {
    if off in m then Retag(m, off, k) else m
  }

  function Apply(s: State, a: Action): State
  {
    match a
    case Call(t, n) => At(s, t, Searching(n))
    case Take(t, off, left) => At(s, t, Backing(off, Size(PcOf(s, t)))).(layout := left)
    case FindNone(t) => At(s, t, Reading(Size(PcOf(s, t))))
    case Back(t, ok) =>
      (match PcOf(s, t)
       case Backing(off, n) =>
         if ok then At(s, t, Away).(held := s.held + {off}) else At(s, t, Reading(n)).(layout := Lose(s.layout, off, Tombstoned))
       case BackingFresh(off, n) =>
         if ok then At(s, t, Away).(held := s.held + {off}) else At(s, t, Away).(layout := Lose(s.layout, off, Tombstoned))
       case _ => s)
    case Read(t) => At(s, t, Swinging(Size(PcOf(s, t)), s.cursor))
    case Swing(t, spurious) =>
      (match PcOf(s, t)
       case Swinging(n, seen) =>
         if seen + n > s.total then At(s, t, Away)
         else if s.cursor == seen && !spurious then
           At(s, t, BackingFresh(s.cursor, n)).(layout := s.layout[s.cursor := Seg(n, Alloc)], cursor := s.cursor + n)
         else At(s, t, Swinging(n, s.cursor))
       case _ => s)
    case Return(off, listed) => s.(layout := Lose(s.layout, off, if listed then Free else Tombstoned), held := s.held - {off})
  }

  function Size(pc: Pc): nat
  {
    if pc.Away? then 0 else pc.n
  }

  /** The thread has taken the run at off and not handed it out yet. */
  predicate Has(pc: Pc, off: nat)
  {
    (pc.Backing? || pc.BackingFresh?) && pc.off == off
  }

  predicate ThreadOk(s: State, t: nat)
  {
    var pc := PcOf(s, t);
    && (pc.Away? || pc.n > 0)
    && (pc.Backing? || pc.BackingFresh? ==> pc.off in s.layout && s.layout[pc.off] == Seg(pc.n, Alloc) && pc.off !in s.held)
    && (pc.Swinging? ==> pc.seen <= s.cursor)
  }

  /** A granted run has one holder: a client, or one thread. */
  ghost predicate RunOk(s: State, off: nat)
  {
    off in s.layout && s.layout[off].kind.Alloc? ==> off in s.held || exists t: nat :: Has(PcOf(s, t), off)
  }

  ghost predicate Inv(s: State)
  {
    && Pieces(s.layout, s.cursor) && s.cursor <= s.total
    && (forall t: nat :: ThreadOk(s, t))
    && (forall t: nat, u: nat, off: nat :: Has(PcOf(s, t), off) && Has(PcOf(s, u), off) ==> t == u)
    && (forall off: nat :: off in s.held ==> off in s.layout && s.layout[off].kind.Alloc?)
    && forall off: nat :: RunOk(s, off)
  }

  // ---- each step keeps the invariant ----

  lemma ReusedPieces(m: Layout, m': Layout, cursor: nat, off: nat, n: nat)
    requires Pieces(m, cursor) && n > 0 && Reserve.Reused(m, m', off, n)
    ensures Pieces(m', cursor) && off in m' && m'[off] == Seg(n, Alloc) && m[off].kind.Free?
    ensures forall f: nat :: f in m && !m[f].kind.Free? ==> f in m' && m'[f] == m[f]
    ensures forall f: nat :: f in m' && m'[f].kind.Alloc? && f != off ==> f in m && m[f] == m'[f]
  {
    if n < m[off].size {
      CutPieces(m, cursor, off, n);
    } else {
      PieceRetag(m, cursor, off, Alloc);
    }
    hide Pieces;
  }

  lemma PieceRetag(m: Layout, cursor: nat, off: nat, k: Kind)
    requires Pieces(m, cursor) && off in m && (k.Free? || k.Alloc? || k.Tombstoned?)
    ensures Pieces(Retag(m, off, k), cursor)
  {
    RetagTiles(m, off, k, 0, cursor);
    hide Tiles;
  }

  lemma FreshPieces(m: Layout, cursor: nat, n: nat)
    requires Pieces(m, cursor) && n > 0
    ensures cursor !in m && Pieces(m[cursor := Seg(n, Alloc)], cursor + n)
  {
    AppendTiles(m, cursor, n, Alloc);
    hide Tiles;
  }

  /** A thread takes the run at off, which nobody had. */
  lemma TakeKeeps(s: State, t: nat, off: nat, pc: Pc, m': Layout, cursor': nat)
    requires Inv(s) && !PcOf(s, t).Backing? && !PcOf(s, t).BackingFresh? && Has(pc, off) && pc.n > 0
    requires Pieces(m', cursor') && s.cursor <= cursor' <= s.total && off in m' && m'[off] == Seg(pc.n, Alloc)
    requires off in s.layout ==> s.layout[off].kind.Free?
    requires forall f: nat :: f in s.layout && !s.layout[f].kind.Free? ==> f in m' && m'[f] == s.layout[f]
    requires forall f: nat :: f in m' && m'[f].kind.Alloc? && f != off ==> f in s.layout && s.layout[f] == m'[f]
    ensures Inv(At(s, t, pc).(layout := m', cursor := cursor'))
  {
    hide Pieces;
    var n := At(s, t, pc).(layout := m', cursor := cursor');
    forall u: nat
      ensures ThreadOk(n, u) && (u != t ==> PcOf(n, u) == PcOf(s, u) && !Has(PcOf(s, u), off))
    {
      assert ThreadOk(s, u);
    }
    forall f: nat
      ensures RunOk(n, f)
    {
      assert RunOk(s, f);
      if f == off {
        assert Has(PcOf(n, t), f);
      } else if u: nat :| Has(PcOf(s, u), f) {
        assert Has(PcOf(n, u), f);
      }
    }
  }

  /** A thread moves without taking a run or giving one up. */
  lemma MoveKeeps(s: State, t: nat, pc: Pc)
    requires Inv(s) && !PcOf(s, t).Backing? && !PcOf(s, t).BackingFresh? && !pc.Backing? && !pc.BackingFresh?
    requires (pc.Away? || pc.n > 0) && (pc.Swinging? ==> pc.seen <= s.cursor)
    ensures Inv(At(s, t, pc))
  {
    hide Pieces;
    var n := At(s, t, pc);
    forall u: nat
      ensures ThreadOk(n, u) && (u != t ==> PcOf(n, u) == PcOf(s, u))
    {
      assert ThreadOk(s, u);
    }
    forall f: nat
      ensures RunOk(n, f)
    {
      assert RunOk(s, f);
      if u: nat :| Has(PcOf(s, u), f) {
        assert Has(PcOf(n, u), f);
      }
    }
  }

  /** The kernel backs a taken run, which goes to a client, or refuses it, and the run is lost. */
  lemma BackKeeps(s: State, t: nat, off: nat, pc: Pc, ok: bool)
    requires Inv(s) && Has(PcOf(s, t), off) && (pc.Away? || (pc.Reading? && pc.n > 0))
    ensures Inv(At(s, t, pc).(held := if ok then s.held + {off} else s.held,
                              layout := if ok then s.layout else Lose(s.layout, off, Tombstoned)))
  {
    hide Inv, Lose;
    Knows(s, t);
    if ok {
      GivesKeeps(s, t, off, pc, s.layout, s.held + {off});
    } else {
      PieceRetag(s.layout, s.cursor, off, Tombstoned);
      assert Lose(s.layout, off, Tombstoned) == Retag(s.layout, off, Tombstoned) by {
        LoseIs(s.layout, off, Tombstoned);
      }
      GivesKeeps(s, t, off, pc, Retag(s.layout, off, Tombstoned), s.held);
    }
  }

  lemma LoseIs(m: Layout, off: nat, k: Kind)
    requires off in m
    ensures Lose(m, off, k) == Retag(m, off, k)
  {
  }

  /** A thread has its run no longer; a client has it, or nobody. */
  lemma GivesKeeps(s: State, t: nat, off: nat, pc: Pc, m: Layout, held: set<nat>)
    requires Inv(s) && Has(PcOf(s, t), off) && off in s.layout && (pc.Away? || (pc.Reading? && pc.n > 0))
    requires (m == s.layout && held == s.held + {off}) || (m == Retag(s.layout, off, Tombstoned) && held == s.held)
    requires Pieces(m, s.cursor)
    ensures Inv(At(s, t, pc).(held := held, layout := m))
  {
    hide Pieces;
    assert ThreadOk(s, t);
    var n := At(s, t, pc).(held := held, layout := m);
    forall u: nat
      ensures ThreadOk(n, u) && (u != t ==> PcOf(n, u) == PcOf(s, u))
    {
      assert ThreadOk(s, u);
      assert Has(PcOf(s, u), off) ==> u == t;
    }
    forall f: nat
      ensures RunOk(n, f)
    {
      assert RunOk(s, f);
      if u: nat :| Has(PcOf(s, u), f) {
        assert f != off ==> Has(PcOf(n, u), f);
      }
    }
  }

  lemma ReturnKeeps(s: State, off: nat, listed: bool)
    requires Inv(s) && off in s.held
    ensures Inv(Apply(s, Return(off, listed)))
  {
    var k := if listed then Free else Tombstoned;
    PieceRetag(s.layout, s.cursor, off, k);
    hide Pieces;
    var n := Apply(s, Return(off, listed));
    assert n == s.(layout := Retag(s.layout, off, k), held := s.held - {off});
    hide Apply, Lose;
    assert forall u: nat :: PcOf(n, u) == PcOf(s, u);
    forall u: nat
      ensures ThreadOk(n, u)
    {
      assert ThreadOk(s, u);
    }
    forall f: nat
      ensures RunOk(n, f)
    {
      assert RunOk(s, f);
    }
    assert forall t: nat, u: nat, f: nat :: Has(PcOf(n, t), f) && Has(PcOf(n, u), f) ==> t == u;
    assert forall f: nat :: f in n.held ==> f in n.layout && n.layout[f].kind.Alloc?;
    assert Pieces(n.layout, n.cursor);
  }

  lemma StepKeeps(s: State, a: Action)
    requires Inv(s) && Enabled(s, a)
    ensures Inv(Apply(s, a)) && Apply(s, a).total == s.total && s.cursor <= Apply(s, a).cursor
  {
    hide Inv, Pieces, Reserve.Reused, Reserve.Listable;
    match a {
      case Call(t, n) =>
        Knows(s, t);
        MoveKeeps(s, t, Searching(n));
      case Take(t, off, left) =>
        var n := PcOf(s, t).n;
        Knows(s, t);
        ReusedPieces(s.layout, left, s.cursor, off, n);
        ReusedFree(s.layout, left, off, n);
        TakeKeeps(s, t, off, Backing(off, n), left, s.cursor);
      case FindNone(t) =>
        Knows(s, t);
        MoveKeeps(s, t, Reading(PcOf(s, t).n));
      case Back(t, ok) =>
        Knows(s, t);
        BackKeeps(s, t, PcOf(s, t).off, if PcOf(s, t).Backing? && !ok then Reading(PcOf(s, t).n) else Away, ok);
      case Read(t) =>
        Knows(s, t);
        MoveKeeps(s, t, Swinging(PcOf(s, t).n, s.cursor));
      case Swing(t, spurious) => SwingKeeps(s, t, spurious);
      case Return(off, listed) => ReturnKeeps(s, off, listed);
    }
  }

  lemma SwingKeeps(s: State, t: nat, spurious: bool)
    requires Inv(s) && PcOf(s, t).Swinging?
    ensures var n := Apply(s, Swing(t, spurious)); Inv(n) && n.total == s.total && s.cursor <= n.cursor
  {
    hide Inv, Pieces;
    Knows(s, t);
    var n, seen := PcOf(s, t).n, PcOf(s, t).seen;
    if seen + n > s.total {
      MoveKeeps(s, t, Away);
    } else if s.cursor == seen && !spurious {
      FreshPieces(s.layout, s.cursor, n);
      TakeKeeps(s, t, s.cursor, BackingFresh(s.cursor, n), s.layout[s.cursor := Seg(n, Alloc)], s.cursor + n);
    } else {
      MoveKeeps(s, t, Swinging(n, s.cursor));
    }
  }

  lemma Knows(s: State, t: nat)
    requires Inv(s)
    ensures ThreadOk(s, t) && Pieces(s.layout, s.cursor) && s.cursor <= s.total
  {
  }

  lemma ReusedFree(m: Layout, m': Layout, off: nat, n: nat)
    requires Reserve.Reused(m, m', off, n)
    ensures off in m && m[off].kind.Free?
  {
  }

  ghost predicate Runs(s: State, run: seq<Action>)
    decreases |run|
  {
    run == [] || (Enabled(s, run[0]) && Runs(Apply(s, run[0]), run[1..]))
  }

  function After(s: State, run: seq<Action>): State
    decreases |run|
  {
    if run == [] then s else After(Apply(s, run[0]), run[1..])
  }

  ghost predicate Init(s: State)
  {
    s.layout == map[] && s.cursor == 0 && s.pcs == map[] && s.held == {}
  }

  lemma {:induction false} RunKeeps(s: State, run: seq<Action>)
    requires Inv(s) && Runs(s, run)
    ensures Inv(After(s, run)) && After(s, run).total == s.total && s.cursor <= After(s, run).cursor
    decreases |run|
  {
    hide Inv, Apply, Enabled;
    if run != [] {
      StepKeeps(s, run[0]);
      RunKeeps(Apply(s, run[0]), run[1..]);
    }
  }

  // ---- what the invariant means ----

  /** Who has the run at off: a client or a thread inside its carve. */
  ghost predicate Holds(s: State, off: nat, n: nat)
  {
    off in s.layout && s.layout[off].size == n && (off in s.held || exists t: nat :: Has(PcOf(s, t), off))
  }

  /** However carvers and returns interleave, two runs in anybody's hands share no granule, and a run has one holder. */
  lemma NoOverlap(s: State, run: seq<Action>, a: nat, m: nat, b: nat, n: nat, t: nat, u: nat)
    requires Init(s) && Runs(s, run)
    ensures var e := After(s, run);
            && (Holds(e, a, m) && Holds(e, b, n) && a != b ==> a + m <= b || b + n <= a)
            && (Holds(e, a, m) ==> e.layout[a].kind.Alloc? && a + m <= e.total)
            && (Has(PcOf(e, t), a) ==> a !in e.held && (Has(PcOf(e, u), a) ==> t == u))
  {
    assert Inv(s);
    RunKeeps(s, run);
    var e := After(s, run);
    forall v: nat, f: nat | Has(PcOf(e, v), f)
      ensures f in e.layout && e.layout[f].kind.Alloc? && f !in e.held
    {
      assert ThreadOk(e, v);
    }
    hide ThreadOk;
    if Holds(e, a, m) {
      assert Linked(e.layout, a, e.cursor);
    }
  }

  /** A carve that gives up does so at a moment when the rest of the reservation is too small for it. */
  lemma FailsWhenFull(s: State, t: nat, spurious: bool)
    requires Inv(s) && Enabled(s, Swing(t, spurious))
    ensures PcOf(Apply(s, Swing(t, spurious)), t).Away? <==> PcOf(s, t).seen + PcOf(s, t).n > s.total
    ensures PcOf(Apply(s, Swing(t, spurious)), t).Away? ==> s.cursor + PcOf(s, t).n > s.total
  {
    assert ThreadOk(s, t);
  }

  /** Yet a run that came back since its search may be listed: a carve can fail beside a run that fits. */
  lemma FailsBesideListed(s: State) returns (run: seq<Action>, n: State)
    requires Init(s) && s.total == 1
    ensures Runs(s, run) && n == After(s, run) && PcOf(n, 0).Swinging? && Reserve.Listable(n.layout, PcOf(n, 0).n)
    ensures PcOf(Apply(n, Swing(0, false)), 0).Away?
  {
    var s1 := Apply(s, Call(0, 1));
    var s2 := Apply(s1, FindNone(0));
    var s3 := Apply(s2, Read(0));
    var s4 := Apply(s3, Swing(0, false));
    var s5 := Apply(s4, Back(0, true));
    var s6 := Apply(s5, Call(0, 1));
    var s7 := Apply(s6, FindNone(0));
    var s8 := Apply(s7, Read(0));
    n := Apply(s8, Return(0, true));
    assert s5.layout == map[0 := Seg(1, Alloc)] && s5.held == {0} && s5.cursor == 1;
    assert n.layout[0] == Seg(1, Free);
    hide Apply, Enabled, Runs, After, Reserve.Listable;
    run := [];
    Ended(n);
    run := Before(s8, Return(0, true), run, n);
    run := Before(s7, Read(0), run, n);
    run := Before(s6, FindNone(0), run, n);
    run := Before(s5, Call(0, 1), run, n);
    run := Before(s4, Back(0, true), run, n);
    run := Before(s3, Swing(0, false), run, n);
    run := Before(s2, Read(0), run, n);
    run := Before(s1, FindNone(0), run, n);
    run := Before(s, Call(0, 1), run, n);
  }

  lemma Ended(s: State)
    ensures Runs(s, []) && After(s, []) == s
  {
  }

  lemma Before(s: State, a: Action, rest: seq<Action>, n: State) returns (run: seq<Action>)
    requires Enabled(s, a) && Runs(Apply(s, a), rest) && n == After(Apply(s, a), rest)
    ensures run == [a] + rest && Runs(s, run) && n == After(s, run)
  {
    run := [a] + rest;
    assert run[1..] == rest;
  }

  // ---- a carve with nobody else about ----

  lemma {:induction false} Shortest(m: Layout, n: nat, among: set<nat>) returns (off: nat)
    requires among <= m.Keys && exists f: nat :: f in among && m[f].kind.Free? && m[f].size >= n
    ensures off in among && m[off].kind.Free? && m[off].size >= n
    ensures forall f: nat :: f in among && m[f].kind.Free? && m[f].size >= n ==> m[off].size <= m[f].size
    decreases |among|
  {
    var f: nat :| f in among && m[f].kind.Free? && m[f].size >= n;
    var rest := among - {f};
    off := f;
    if exists g: nat :: g in rest && m[g].kind.Free? && m[g].size >= n {
      var g := Shortest(m, n, rest);
      off := if m[g].size < m[f].size then g else f;
    }
  }

  /** What the list has for a request that it can serve. */
  lemma Cut(m: Layout, cursor: nat, n: nat) returns (off: nat, left: Layout)
    requires Pieces(m, cursor) && n > 0 && Reserve.Listable(m, n)
    ensures Reserve.Reused(m, left, off, n)
  {
    off := Shortest(m, n, m.Keys);
    if n < m[off].size {
      CutPieces(m, cursor, off, n);
      left := SplitAt(Retag(m, off, Alloc), off, n);
    } else {
      left := Retag(m, off, Alloc);
    }
  }

  /** From the cursor's load on. */
  ghost predicate Ends(s: State, e: State, t: nat, n: nat, ok: bool)
  {
    && PcOf(e, t).Away? && e.total == s.total
    && if s.cursor + n > s.total then e.layout == s.layout && e.cursor == s.cursor && e.held == s.held
       else
         && e.layout == s.layout[s.cursor := Seg(n, if ok then Alloc else Tombstoned)] && e.cursor == s.cursor + n
         && e.held == if ok then s.held + {s.cursor} else s.held
  }

  lemma TailAlone(s: State, t: nat, n: nat, ok: bool) returns (run: seq<Action>, e: State)
    requires PcOf(s, t) == Reading(n)
    ensures Runs(s, run) && e == After(s, run) && Ends(s, e, t, n, ok)
    ensures forall a :: a in run ==> !a.Return? && a.t == t
  {
    var s1 := Apply(s, Read(t));
    var s2 := Apply(s1, Swing(t, false));
    if s.cursor + n > s.total {
      e := s2;
      hide Apply;
      Ended(e);
      run := Before(s1, Swing(t, false), [], e);
    } else {
      e := Apply(s2, Back(t, ok));
      hide Apply;
      Ended(e);
      run := Before(s2, Back(t, ok), [], e);
      run := Before(s1, Swing(t, false), run, e);
    }
    run := Before(s, Read(t), run, e);
  }

  /** The list's part of a carve: its run serves, or the thread goes on to the cursor. */
  lemma ListAlone(s: State, t: nat, n: nat, ok: bool) returns (run: seq<Action>, m: State)
    requires PcOf(s, t) == Searching(n) && n > 0 && Pieces(s.layout, s.cursor)
    ensures Runs(s, run) && m == After(s, run) && m.cursor == s.cursor && m.total == s.total
    ensures forall a :: a in run ==> !a.Return? && a.t == t
    ensures if Reserve.Listable(s.layout, n) && ok then
              PcOf(m, t).Away? && exists off: nat :: Reserve.Reused(s.layout, m.layout, off, n) && m.held == s.held + {off}
            else PcOf(m, t) == Reading(n) && Reserve.Unbacked(s.layout, m.layout, n) && m.held == s.held
  {
    hide Pieces, Reserve.Listable;
    if Reserve.Listable(s.layout, n) {
      var off, left := Cut(s.layout, s.cursor, n);
      var s1 := Apply(s, Take(t, off, left));
      m := Apply(s1, Back(t, ok));
      InCut(s.layout, left, off, n);
      assert !ok ==> Reserve.Refused(s.layout, m.layout, off, n);
      hide Apply, Reserve.Reused;
      Ended(m);
      run := Before(s1, Back(t, ok), [], m);
      run := Before(s, Take(t, off, left), run, m);
    } else {
      m := Apply(s, FindNone(t));
      hide Apply;
      Ended(m);
      run := Before(s, FindNone(t), [], m);
    }
  }

  lemma InCut(m: Layout, m': Layout, off: nat, n: nat)
    requires Reserve.Reused(m, m', off, n)
    ensures off in m'
  {
  }

  /**
   A carve that nobody disturbs comes to its end, and ends as the carver's own call does: a listed run if
   one is long enough and the kernel backs it, and otherwise the granules at the cursor if they fit.
   */
  lemma CarveAlone(s: State, t: nat, n: nat, ok: bool, okFresh: bool) returns (run: seq<Action>, e: State)
    requires Inv(s) && Enabled(s, Call(t, n))
    ensures Runs(s, run) && e == After(s, run) && PcOf(e, t).Away? && forall a :: a in run ==> !a.Return? && a.t == t
    ensures Reserve.Listable(s.layout, n) && ok ==>
              e.cursor == s.cursor && exists off: nat :: Reserve.Reused(s.layout, e.layout, off, n) && e.held == s.held + {off}
    ensures !(Reserve.Listable(s.layout, n) && ok) ==>
              exists m: State :: Reserve.Unbacked(s.layout, m.layout, n) && m.cursor == s.cursor && m.total == s.total && m.held == s.held
                                 && Ends(m, e, t, n, okFresh)
  {
    Knows(s, t);
    hide Inv, Pieces, Ends, Reserve.Listable, Reserve.Reused, Reserve.Unbacked;
    var s1 := Apply(s, Call(t, n));
    var first, m := ListAlone(s1, t, n, ok);
    if Reserve.Listable(s.layout, n) && ok {
      run, e := first, m;
    } else {
      var rest;
      rest, e := TailAlone(m, t, n, okFresh);
      Join(s1, first, rest);
      run := first + rest;
    }
    hide Apply;
    run := Before(s, Call(t, n), run, e);
  }

  lemma {:induction false} Join(s: State, a: seq<Action>, b: seq<Action>)
    requires Runs(s, a) && Runs(After(s, a), b)
    ensures Runs(s, a + b) && After(s, a + b) == After(After(s, a), b)
    decreases |a|
  {
    hide Apply, Enabled;
    if a == [] {
      assert a + b == b;
    } else {
      Join(Apply(s, a[0]), a[1..], b);
      assert (a + b)[1..] == a[1..] + b;
    }
  }
}
