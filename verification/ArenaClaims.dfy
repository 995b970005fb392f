/** What a thread's claim, its exit and its use of its arena achieve when it steps alone. */
module ArenaClaims {
  import opened ArenaSlots

  /** n steps of thread t. */
  function Goes(t: int, n: nat): seq<Action>
  {
    if n == 0 then [] else [Go(t, false)] + Goes(t, n - 1)
  }

  /** Stepping alone, thread t takes state s to state m. */
  ghost predicate Reaches(s: State, max: nat, pid: int, t: int, m: State)
  {
    exists n: nat :: Takes(s, max, pid, t, n, m)
  }

  ghost predicate Takes(s: State, max: nat, pid: int, t: int, n: nat, m: State)
  {
    Runs(s, max, pid, Goes(t, n)) && After(s, max, pid, Goes(t, n)) == m
  }

  lemma Here(s: State, max: nat, pid: int, t: int)
    ensures Reaches(s, max, pid, t, s)
  {
    assert Takes(s, max, pid, t, 0, s);
  }

  lemma OneMore(s: State, max: nat, pid: int, t: int, m: State)
    requires Enabled(s, Go(t, false)) && Reaches(Apply(s, max, pid, Go(t, false)), max, pid, t, m)
    ensures Reaches(s, max, pid, t, m)
  {
    hide Apply, Enabled, Takes;
    var n: nat :| Takes(Apply(s, max, pid, Go(t, false)), max, pid, t, n, m);
    TakesOne(s, max, pid, t, n, m);
  }

  lemma TakesOne(s: State, max: nat, pid: int, t: int, n: nat, m: State)
    requires Enabled(s, Go(t, false)) && Takes(Apply(s, max, pid, Go(t, false)), max, pid, t, n, m)
    ensures Takes(s, max, pid, t, n + 1, m)
  {
    hide Apply, Enabled;
    RunCons(s, max, pid, Go(t, false), Goes(t, n));
  }

  /** One step from a place in the allocator, where thread t stands in state s otherwise. */
  lemma StepOn(s: State, max: nat, pid: int, t: int, pc: Pc, next: State, m: State)
    requires Alive(s, t) && !pc.Idle? && Advance(At(s, t, pc), max, t, pc, false) == next && Reaches(next, max, pid, t, m)
    ensures Reaches(At(s, t, pc), max, pid, t, m)
  {
    hide Advance, Reaches;
    OneMore(At(s, t, pc), max, pid, t, m);
  }

  // ---- what the scans find ----

  predicate FreeAt(s: State, i: nat)
  {
    OwnerOf(s, Pool(i)) == FREE
  }

  predicate DeadAt(s: State, t: int, i: nat)
  {
    i < |s.built| && s.built[i] && OwnerOf(s, Pool(i)) > 0 && OwnerOf(s, Pool(i)) != t && !Alive(s, OwnerOf(s, Pool(i)))
  }

  /** A node that nobody owns, or a thread that died. */
  predicate Reclaimable(s: State, t: int, j: nat)
  {
    OwnerOf(s, Node(j)) == FREE || (OwnerOf(s, Node(j)) > 0 && OwnerOf(s, Node(j)) != t && !Alive(s, OwnerOf(s, Node(j))))
  }

  const NOWHERE: int := -1

  function FirstFree(s: State, i: nat, lim: nat): (r: int)
    ensures r == NOWHERE <==> forall j: nat :: i <= j < lim ==> !FreeAt(s, j)
    ensures r != NOWHERE ==> i <= r < lim && FreeAt(s, r) && forall j: nat :: i <= j < r ==> !FreeAt(s, j)
    decreases lim - i
  {
    if i >= lim then NOWHERE else if FreeAt(s, i) then i else FirstFree(s, i + 1, lim)
  }

  function FirstDead(s: State, t: int, i: nat, lim: nat): (r: int)
    ensures r == NOWHERE <==> forall j: nat :: i <= j < lim ==> !DeadAt(s, t, j)
    ensures r != NOWHERE ==> i <= r < lim && DeadAt(s, t, r) && forall j: nat :: i <= j < r ==> !DeadAt(s, t, j)
    decreases lim - i
  {
    if i >= lim then NOWHERE else if DeadAt(s, t, i) then i else FirstDead(s, t, i + 1, lim)
  }

  /** Nodes are walked from the youngest. */
  function LastNode(s: State, t: int, left: nat): (r: int)
    ensures r == NOWHERE <==> forall j: nat :: j < left ==> !Reclaimable(s, t, j)
    ensures r != NOWHERE ==> 0 <= r < left && Reclaimable(s, t, r) && forall j: nat :: r < j < left ==> !Reclaimable(s, t, j)
  {
    if left == 0 then NOWHERE else if Reclaimable(s, t, left - 1) then left - 1 else LastNode(s, t, left - 1)
  }

  /** Thread t has won the owner word of a seat that others had. */
  function Won(s: State, t: int, seat: Seat): State
  {
    At(SetOwner(s, seat, t), t, ClaimDrain(seat))
  }

  function Taken(s: State, t: int, seat: Seat): State
  {
    Seated(SetOwner(s, seat, t), t, Some(seat))
  }

  lemma WonTakes(s: State, max: nat, pid: int, t: int, seat: Seat)
    requires Alive(s, t)
    ensures Reaches(Won(s, t, seat), max, pid, t, Taken(s, t, seat))
  {
    hide Reaches;
    var m := Taken(s, t, seat);
    Here(m, max, pid, t);
    var b := SetOwner(s, seat, t);
    assert Advance(At(b, t, ClaimDrain(seat)), max, t, ClaimDrain(seat), false) == m;
    StepOn(b, max, pid, t, ClaimDrain(seat), m, m);
  }

  lemma {:induction false} FreeScan(s: State, max: nat, pid: int, t: int, i: nat, lim: nat, m: State)
    requires Alive(s, t)
    requires var f := FirstFree(s, i, lim);
             Reaches(if f == NOWHERE then At(s, t, ScanDead(0, Limit(s, max))) else Won(s, t, Pool(f)), max, pid, t, m)
    ensures Reaches(At(s, t, ScanFree(i, lim)), max, pid, t, m)
    decreases lim - i
  {
    hide Reaches, SetOwner;
    var next := if i >= lim then At(s, t, ScanDead(0, Limit(s, max))) else if FreeAt(s, i) then Won(s, t, Pool(i)) else At(s, t, ScanFree(i + 1, lim));
    if i < lim && !FreeAt(s, i) {
      FreeScan(s, max, pid, t, i + 1, lim, m);
    }
    OwnAfter(s, t, ScanFree(i, lim), Pool(i));
    assert Advance(At(s, t, ScanFree(i, lim)), max, t, ScanFree(i, lim), false) == next;
    StepOn(s, max, pid, t, ScanFree(i, lim), next, m);
  }

  /** Where a thread stands has no part in the owner words. */
  lemma OwnAfter(s: State, t: int, pc: Pc, seat: Seat)
    ensures At(SetOwner(At(s, t, pc), seat, t), t, ClaimDrain(seat)) == Won(s, t, seat)
    ensures OwnerOf(At(s, t, pc), seat) == OwnerOf(s, seat)
  {
  }

  lemma {:induction false} DeadScan(s: State, max: nat, pid: int, t: int, i: nat, lim: nat, m: State)
    requires Alive(s, t)
    requires var f := FirstDead(s, t, i, lim);
             Reaches(if f == NOWHERE then At(s, t, Reserve(s.next)) else Won(s, t, Pool(f)), max, pid, t, m)
    ensures Reaches(At(s, t, ScanDead(i, lim)), max, pid, t, m)
    decreases lim - i
  {
    hide Reaches, Advance, At, Won, Limit;
    if i < lim && !DeadAt(s, t, i) {
      DeadScan(s, max, pid, t, i + 1, lim, m);
    }
    if i < lim && Judged(s, t, i) {
      JudgeOn(s, max, pid, t, i, lim, OwnerOf(s, Pool(i)), m);
    }
    DeadNext(s, max, t, i, lim);
    StepOn(s, max, pid, t, ScanDead(i, lim), AfterDead(s, t, i, lim), m);
  }

  /** The slot has an owner who is to be looked up. */
  predicate Judged(s: State, t: int, i: nat)
  {
    i < |s.built| && s.built[i] && OwnerOf(s, Pool(i)) > 0 && OwnerOf(s, Pool(i)) != t
  }

  function AfterDead(s: State, t: int, i: nat, lim: nat): State
  {
    if i >= lim then At(s, t, Reserve(s.next))
    else if Judged(s, t, i) then At(s, t, Judge(i, lim, OwnerOf(s, Pool(i))))
    else At(s, t, ScanDead(i + 1, lim))
  }

  lemma DeadNext(s: State, max: nat, t: int, i: nat, lim: nat)
    requires Alive(s, t)
    ensures Advance(At(s, t, ScanDead(i, lim)), max, t, ScanDead(i, lim), false) == AfterDead(s, t, i, lim)
  {
  }

  lemma JudgeOn(s: State, max: nat, pid: int, t: int, i: nat, lim: nat, was: int, m: State)
    requires Alive(s, t) && was == OwnerOf(s, Pool(i)) && was != t
    requires Reaches(if Alive(s, was) then At(s, t, ScanDead(i + 1, lim)) else Won(s, t, Pool(i)), max, pid, t, m)
    ensures Reaches(At(s, t, Judge(i, lim, was)), max, pid, t, m)
  {
    hide Reaches;
    if !Alive(s, was) {
      OwnAfter(s, t, Reclaim(i, lim, was), Pool(i));
      StepOn(s, max, pid, t, Reclaim(i, lim, was), Won(s, t, Pool(i)), m);
    }
    var next := At(s, t, if Alive(s, was) then ScanDead(i + 1, lim) else Reclaim(i, lim, was));
    assert Advance(At(s, t, Judge(i, lim, was)), max, t, Judge(i, lim, was), false) == next;
    StepOn(s, max, pid, t, Judge(i, lim, was), next, m);
  }

  lemma {:induction false} NodeScan(s: State, max: nat, pid: int, t: int, left: nat, m: State)
    requires Alive(s, t)
    requires var f := LastNode(s, t, left);
             Reaches(if f == NOWHERE then At(s, t, PushNode(|s.nodes|)) else Won(s, t, Node(f)), max, pid, t, m)
    ensures Reaches(At(s, t, ScanNodes(left)), max, pid, t, m)
    decreases left
  {
    hide Reaches;
    if left == 0 {
      var next := At(s, t, PushNode(|s.nodes|));
      assert Advance(At(s, t, ScanNodes(left)), max, t, ScanNodes(left), false) == next;
      StepOn(s, max, pid, t, ScanNodes(left), next, m);
    } else {
      if !Reclaimable(s, t, left - 1) {
        NodeScan(s, max, pid, t, left - 1, m);
      }
      NodeOn(s, max, pid, t, left, m);
    }
  }

  lemma NodeOn(s: State, max: nat, pid: int, t: int, left: nat, m: State)
    requires Alive(s, t) && left > 0
    requires Reaches(if Reclaimable(s, t, left - 1) then Won(s, t, Node(left - 1)) else At(s, t, ScanNodes(left - 1)), max, pid, t, m)
    ensures Reaches(At(s, t, ScanNodes(left)), max, pid, t, m)
  {
    hide Reaches;
    var was := OwnerOf(s, Node(left - 1));
    if Reclaimable(s, t, left - 1) {
      OwnAfter(s, t, TakeNode(left, was), Node(left - 1));
      StepOn(s, max, pid, t, TakeNode(left, was), Won(s, t, Node(left - 1)), m);
    }
    var judged := At(s, t, if Reclaimable(s, t, left - 1) then TakeNode(left, was) else ScanNodes(left - 1));
    assert Advance(At(s, t, JudgeNode(left, was)), max, t, JudgeNode(left, was), false) == judged;
    StepOn(s, max, pid, t, JudgeNode(left, was), judged, m);
    var next := At(s, t, JudgeNode(left, was));
    assert Advance(At(s, t, ScanNodes(left)), max, t, ScanNodes(left), false) == next;
    StepOn(s, max, pid, t, ScanNodes(left), next, m);
  }

  // ---- fresh slots and fresh nodes ----

  /** The next slot of the pool is built for thread t and is its own. */
  function Fresh(s: State, t: int): State
  {
    var b := s.(next := s.next + 1, builder := s.builder + [t], built := if s.next < |s.built| then s.built[s.next := true] else s.built);
    Taken(b, t, Pool(s.next))
  }

  function NewNode(s: State, t: int): State
  {
    Seated(s.(nodes := s.nodes + [t]), t, Some(Node(|s.nodes|)))
  }

  lemma FreshReached(s: State, max: nat, pid: int, t: int)
    requires Alive(s, t) && s.next < max
    ensures Reaches(At(s, t, Reserve(s.next)), max, pid, t, Fresh(s, t))
  {
    hide Reaches;
    var cur := s.next;
    var r := s.(next := cur + 1, builder := s.builder + [t]);
    var b := r.(built := if cur < |r.built| then r.built[cur := true] else r.built);
    Here(Fresh(s, t), max, pid, t);
    assert Advance(At(b, t, Post(cur)), max, t, Post(cur), false) == Fresh(s, t);
    StepOn(b, max, pid, t, Post(cur), Fresh(s, t), Fresh(s, t));
    assert Advance(At(r, t, Build(cur)), max, t, Build(cur), false) == At(b, t, Post(cur));
    StepOn(r, max, pid, t, Build(cur), At(b, t, Post(cur)), Fresh(s, t));
    assert Advance(At(s, t, Reserve(cur)), max, t, Reserve(cur), false) == At(r, t, Build(cur));
    StepOn(s, max, pid, t, Reserve(cur), At(r, t, Build(cur)), Fresh(s, t));
  }

  lemma NodeReached(s: State, max: nat, pid: int, t: int)
    requires Alive(s, t)
    ensures Reaches(At(s, t, PushNode(|s.nodes|)), max, pid, t, NewNode(s, t))
  {
    hide Reaches;
    Here(NewNode(s, t), max, pid, t);
    assert Advance(At(s, t, PushNode(|s.nodes|)), max, t, PushNode(|s.nodes|), false) == NewNode(s, t);
    StepOn(s, max, pid, t, PushNode(|s.nodes|), NewNode(s, t), NewNode(s, t));
  }

  // ---- the claim ----

  /** The state a claim of thread t ends in. */
  function Claimed(s: State, max: nat, t: int): State
  {
    var f := FirstFree(s, 0, Limit(s, max));
    var d := FirstDead(s, t, 0, Limit(s, max));
    var j := LastNode(s, t, |s.nodes|);
    if f != NOWHERE then Taken(s, t, Pool(f))
    else if d != NOWHERE then Taken(s, t, Pool(d))
    else if s.next < max then Fresh(s, t)
    else if j != NOWHERE then Taken(s, t, Node(j))
    else NewNode(s, t)
  }

  lemma ClaimReaches(s: State, max: nat, pid: int, t: int)
    requires Alive(s, t)
    ensures Reaches(At(s, t, ScanFree(0, Limit(s, max))), max, pid, t, Claimed(s, max, t))
  {
    hide Reaches, Taken, Won, Fresh, NewNode, Advance;
    var m := Claimed(s, max, t);
    var f := FirstFree(s, 0, Limit(s, max));
    var d := FirstDead(s, t, 0, Limit(s, max));
    var j := LastNode(s, t, |s.nodes|);
    if f != NOWHERE {
      WonTakes(s, max, pid, t, Pool(f));
    } else {
      if d != NOWHERE {
        WonTakes(s, max, pid, t, Pool(d));
      } else if s.next < max {
        FreshReached(s, max, pid, t);
      } else {
        if j != NOWHERE {
          WonTakes(s, max, pid, t, Node(j));
        } else {
          NodeReached(s, max, pid, t);
        }
        NodeScan(s, max, pid, t, |s.nodes|, m);
        PoolUsedUp(s, max, t);
        StepOn(s, max, pid, t, Reserve(s.next), At(s, t, ScanNodes(|s.nodes|)), m);
      }
      DeadScan(s, max, pid, t, 0, Limit(s, max), m);
    }
    FreeScan(s, max, pid, t, 0, Limit(s, max), m);
  }

  lemma PoolUsedUp(s: State, max: nat, t: int)
    requires s.next >= max
    ensures Advance(At(s, t, Reserve(s.next)), max, t, Reserve(s.next), false) == At(s, t, ScanNodes(|s.nodes|))
  {
  }

  /**
   A thread without an arena that calls and steps alone ends outside the allocator with an arena: the
   lowest free slot of the pool; if there is none, the lowest slot of a dead owner; if there is none, the
   next fresh slot, built; if the pool is used up, the youngest node that nobody living owns; and a new
   node only if there is none of these. Its owner word names the thread, and nothing else changes.
   */
  lemma ClaimAlone(s: State, max: nat, pid: int, t: int) returns (n: nat, seat: Seat)
    requires Inv(s, max) && Alive(s, t) && Of(s, t).pc.Idle? && Of(s, t).tls.None?
    ensures var run := [Call(t)] + Goes(t, n); Runs(s, max, pid, run) && After(s, max, pid, run) == Claimed(s, max, t)
    ensures Of(Claimed(s, max, t), t) == Thread(true, Some(seat), Idle) && OwnerOf(Claimed(s, max, t), seat) == t && Built(Claimed(s, max, t), seat)
    ensures forall u: int :: u != t ==> Of(Claimed(s, max, t), u) == Of(s, u)
    ensures forall x: Seat :: x != seat ==> OwnerOf(Claimed(s, max, t), x) == OwnerOf(s, x)
    ensures (exists i: nat :: i < s.next && FreeAt(s, i)) ==>
              seat.Pool? && seat.i < s.next && FreeAt(s, seat.i) && forall i: nat :: i < seat.i ==> !FreeAt(s, i)
    ensures (forall i: nat :: i < s.next ==> !FreeAt(s, i)) && (exists i: nat :: i < s.next && DeadAt(s, t, i)) ==>
              seat.Pool? && seat.i < s.next && DeadAt(s, t, seat.i) && forall i: nat :: i < seat.i ==> !DeadAt(s, t, i)
    ensures (forall i: nat :: i < s.next ==> !FreeAt(s, i) && !DeadAt(s, t, i)) ==>
              if s.next < max then seat == Pool(s.next)
              else seat.Node? && (if seat.j < |s.nodes| then Reclaimable(s, t, seat.j) else seat.j == |s.nodes|)
                   && forall j: nat :: j < |s.nodes| && (seat.j == |s.nodes| || j > seat.j) ==> !Reclaimable(s, t, j)
  {
    hide Inv, Reaches, Advance, Claimed;
    ClaimReaches(s, max, pid, t);
    assert Apply(s, max, pid, Call(t)) == At(s, t, ScanFree(0, Limit(s, max)));
    n := Number(At(s, t, ScanFree(0, Limit(s, max))), max, pid, t, Claimed(s, max, t));
    RunCons(s, max, pid, Call(t), Goes(t, n));
    seat := ClaimSeat(s, max, t);
  }

  lemma ClaimSeat(s: State, max: nat, t: int) returns (seat: Seat)
    requires Inv(s, max) && Alive(s, t) && Of(s, t).tls.None?
    ensures Of(Claimed(s, max, t), t) == Thread(true, Some(seat), Idle) && OwnerOf(Claimed(s, max, t), seat) == t && Built(Claimed(s, max, t), seat)
    ensures forall u: int :: u != t ==> Of(Claimed(s, max, t), u) == Of(s, u)
    ensures forall x: Seat :: x != seat ==> OwnerOf(Claimed(s, max, t), x) == OwnerOf(s, x)
    ensures (exists i: nat :: i < s.next && FreeAt(s, i)) ==>
              seat.Pool? && seat.i < s.next && FreeAt(s, seat.i) && forall i: nat :: i < seat.i ==> !FreeAt(s, i)
    ensures (forall i: nat :: i < s.next ==> !FreeAt(s, i)) && (exists i: nat :: i < s.next && DeadAt(s, t, i)) ==>
              seat.Pool? && seat.i < s.next && DeadAt(s, t, seat.i) && forall i: nat :: i < seat.i ==> !DeadAt(s, t, i)
    ensures (forall i: nat :: i < s.next ==> !FreeAt(s, i) && !DeadAt(s, t, i)) ==>
              if s.next < max then seat == Pool(s.next)
              else seat.Node? && (if seat.j < |s.nodes| then Reclaimable(s, t, seat.j) else seat.j == |s.nodes|)
                   && forall j: nat :: j < |s.nodes| && (seat.j == |s.nodes| || j > seat.j) ==> !Reclaimable(s, t, j)
  {
    hide Inv;
    Bounds(s, max, t);
    seat := Of(Claimed(s, max, t), t).tls.seat;
  }

  lemma Number(s: State, max: nat, pid: int, t: int, m: State) returns (n: nat)
    requires Reaches(s, max, pid, t, m)
    ensures Takes(s, max, pid, t, n, m)
  {
    n :| Takes(s, max, pid, t, n, m);
  }

  /** The sizes of the tables, and that what nobody living owns is built. */
  lemma Bounds(s: State, max: nat, t: int)
    requires Inv(s, max)
    ensures |s.owner| == |s.built| == max && s.next <= max && Limit(s, max) == s.next
    ensures forall i: nat :: FreeAt(s, i) || DeadAt(s, t, i) ==> i < s.next && s.built[i]
    ensures forall i: nat :: s.next <= i < max ==> s.owner[i] == NEVER
  {
    forall i: nat | i < max
      ensures (s.owner[i] != NEVER ==> i < s.next && s.built[i])
    {
      assert SlotOk(s, i);
    }
  }

  // ---- the exit ----

  /** A thread that leaves and steps alone frees its owner word last and has no arena; the initial thread keeps its own. */
  lemma LeaveAlone(s: State, max: nat, pid: int, t: int)
    requires Inv(s, max) && Alive(s, t) && Of(s, t).pc.Idle? && Of(s, t).tls.Some?
    ensures var seat := Of(s, t).tls.seat; var run := [Leave(t)] + Goes(t, if t == pid then 1 else 3);
            && Runs(s, max, pid, run)
            && After(s, max, pid, run) == if t == pid then s else Seated(SetOwner(s, seat, FREE), t, None)
    ensures OwnerOf(Seated(SetOwner(s, Of(s, t).tls.seat, FREE), t, None), Of(s, t).tls.seat) == FREE
  {
    hide Inv, ThreadOk, Takes, Goes;
    OwnsSeat(s, max, t);
    var seat := Of(s, t).tls.seat;
    var m := if t == pid then s else Seated(SetOwner(s, seat, FREE), t, None);
    NoGoes(m, max, pid, t);
    if t == pid {
      assert Advance(At(s, t, LastDrain), max, t, LastDrain, false) == s;
      GoesOne(s, max, pid, t, LastDrain, s, 0, m);
    } else {
      var f := SetOwner(s, seat, FREE);
      assert Advance(At(f, t, ExitClear), max, t, ExitClear, false) == m;
      GoesOne(f, max, pid, t, ExitClear, m, 0, m);
      assert Advance(At(s, t, ExitStore(seat)), max, t, ExitStore(seat), false) == At(f, t, ExitClear);
      GoesOne(s, max, pid, t, ExitStore(seat), At(f, t, ExitClear), 1, m);
      assert Advance(At(s, t, ExitDrain(seat)), max, t, ExitDrain(seat), false) == At(s, t, ExitStore(seat));
      GoesOne(s, max, pid, t, ExitDrain(seat), At(s, t, ExitStore(seat)), 2, m);
    }
    LeaveOne(s, max, pid, t, if t == pid then 1 else 3, m);
  }

  lemma OwnsSeat(s: State, max: nat, t: int)
    requires Inv(s, max) && Alive(s, t) && Of(s, t).pc.Idle? && Of(s, t).tls.Some?
    ensures OwnerOf(s, Of(s, t).tls.seat) == t && Built(s, Of(s, t).tls.seat)
    ensures OwnerOf(SetOwner(s, Of(s, t).tls.seat, FREE), Of(s, t).tls.seat) == FREE
  {
    assert ThreadOk(s, max, t);
    assert t != NEVER;
  }

  lemma NoGoes(s: State, max: nat, pid: int, t: int)
    ensures Takes(s, max, pid, t, 0, s)
  {
  }

  lemma GoesOne(s: State, max: nat, pid: int, t: int, pc: Pc, next: State, n: nat, m: State)
    requires Alive(s, t) && !pc.Idle? && Advance(At(s, t, pc), max, t, pc, false) == next && Takes(next, max, pid, t, n, m)
    ensures Takes(At(s, t, pc), max, pid, t, n + 1, m)
  {
    hide Advance, Takes;
    TakesOne(At(s, t, pc), max, pid, t, n, m);
  }

  lemma LeaveOne(s: State, max: nat, pid: int, t: int, n: nat, m: State)
    requires Enabled(s, Leave(t)) && Takes(Apply(s, max, pid, Leave(t)), max, pid, t, n, m)
    ensures Runs(s, max, pid, [Leave(t)] + Goes(t, n)) && After(s, max, pid, [Leave(t)] + Goes(t, n)) == m
  {
    hide Apply, Enabled, Goes;
    RunCons(s, max, pid, Leave(t), Goes(t, n));
  }

  /** What one thread leaves in the pool the next claim takes, or a lower slot; no overflow node is taken, let alone pushed. */
  lemma LeaveThenClaim(s: State, max: nat, pid: int, t: int, u: int) returns (n: nat, seat: Seat)
    requires Inv(s, max) && Alive(s, t) && Of(s, t).pc.Idle? && Of(s, t).tls.Some? && Of(s, t).tls.seat.Pool? && t != pid
    requires Alive(s, u) && Of(s, u).pc.Idle? && Of(s, u).tls.None?
    ensures var run := [Leave(t)] + Goes(t, 3) + [Call(u)] + Goes(u, n); var e := After(s, max, pid, run);
            && Runs(s, max, pid, run) && Of(e, u) == Thread(true, Some(seat), Idle)
            && seat.Pool? && seat.i <= Of(s, t).tls.seat.i && e.nodes == s.nodes && e.next == s.next
  {
    LeaveAlone(s, max, pid, t);
    var left := [Leave(t)] + Goes(t, 3);
    RunKeeps(s, max, pid, left);
    var m := After(s, max, pid, left);
    Bounds(m, max, u);
    n, seat := ClaimAlone(m, max, pid, u);
    assert FreeAt(m, Of(s, t).tls.seat.i);
    RunJoin(s, max, pid, left, [Call(u)] + Goes(u, n));
    assert left + ([Call(u)] + Goes(u, n)) == left + [Call(u)] + Goes(u, n);
  }

  lemma {:induction false} RunJoin(s: State, max: nat, pid: int, a: seq<Action>, b: seq<Action>)
    ensures After(s, max, pid, a + b) == After(After(s, max, pid, a), max, pid, b)
    ensures Runs(s, max, pid, a + b) <==> Runs(s, max, pid, a) && Runs(After(s, max, pid, a), max, pid, b)
    decreases |a|
  {
    hide Apply, Enabled;
    if a == [] {
      assert a + b == b;
    } else {
      RunJoin(Apply(s, max, pid, a[0]), max, pid, a[1..], b);
      assert (a + b)[1..] == a[1..] + b;
    }
  }

  /** A thread with an arena drains it and is back where it was. */
  lemma UseAlone(s: State, max: nat, pid: int, t: int)
    requires Alive(s, t) && Of(s, t).pc.Idle? && Of(s, t).tls.Some?
    ensures var run := [Call(t)] + Goes(t, 1); Runs(s, max, pid, run) && After(s, max, pid, run) == s
  {
    var s1 := Apply(s, max, pid, Call(t));
    assert Apply(s1, max, pid, Go(t, false)) == s;
    RunCons(s1, max, pid, Go(t, false), []);
    RunCons(s, max, pid, Call(t), Goes(t, 1));
  }
}
