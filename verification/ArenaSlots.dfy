/**
 Which thread owns which arena: a fixed pool of slots, then a growing stack of overflow nodes.
 Threads step one shared access at a time, under sequential consistency.
 */
module ArenaSlots {

  /** An owner word holds a thread id, or one of these. */
  const NEVER: int := 0
  const FREE: int := -1

  datatype Seat = Pool(i: nat) | Node(j: nat)

  datatype Maybe = None | Some(seat: Seat)

  /** Where a thread stands inside the allocator. */
  datatype Pc =
    | Idle
    | UseDrain                                      // __current_arena drains the arena it found
    | ScanFree(i: nat, lim: nat)
    | ClaimDrain(seat: Seat)                        // the exchange succeeded
    | ScanDead(i: nat, lim: nat)
    | Judge(i: nat, lim: nat, was: int)             // the owner was read; is it alive?
    | Reclaim(i: nat, lim: nat, was: int)           // it is not
    | Reserve(cur: nat)
    | Build(cur: nat)
    | Post(cur: nat)                                // the arena is built; the owner is to be stored
    | ScanNodes(left: nat)
    | JudgeNode(left: nat, was: int)
    | TakeNode(left: nat, was: int)
    | PushNode(seen: nat)
    | ExitDrain(seat: Seat)
    | ExitStore(seat: Seat)
    | ExitClear                                     // the owner word is free again; forget the arena
    | LastDrain                                     // the initial thread only drains

  datatype Thread = Thread(alive: bool, tls: Maybe, pc: Pc)

  /** `builder` remembers which thread reserved each slot of the pool. */
  datatype State = State(
    next: nat, owner: seq<int>, built: seq<bool>, nodes: seq<int>, threads: map<int, Thread>,
    builder: seq<int>)

  datatype Action =
    | Spawn(t: int)
    | Die(t: int)
    | Call(t: int)                    // the thread allocates or frees
    | Leave(t: int)                   // its exit hook runs
    | Go(t: int, spurious: bool)      // one step inside the allocator

  function Of(s: State, t: int): Thread
  {
    if t in s.threads then s.threads[t] else Thread(false, None, Idle)
  }

  predicate Alive(s: State, t: int)
  {
    Of(s, t).alive
  }

  function OwnerOf(s: State, seat: Seat): int
  {
    match seat
    case Pool(i) => if i < |s.owner| then s.owner[i] else NEVER
    case Node(j) => if j < |s.nodes| then s.nodes[j] else NEVER
  }

  function SetOwner(s: State, seat: Seat, t: int): State
  {
    match seat
    case Pool(i) => if i < |s.owner| then s.(owner := s.owner[i := t]) else s
    case Node(j) => if j < |s.nodes| then s.(nodes := s.nodes[j := t]) else s
  }

  function At(s: State, t: int, pc: Pc): State
  {
    s.(threads := s.threads[t := Of(s, t).(pc := pc)])
  }

  function Seated(s: State, t: int, seat: Maybe): State
  {
    s.(threads := s.threads[t := Of(s, t).(tls := seat, pc := Idle)])
  }

  /** A thread may die anywhere. It stays dead, and its id is never used again. */
  predicate Enabled(s: State, a: Action)
  {
    match a
    case Spawn(t) => t > 0 && t !in s.threads
    case Die(t) => Alive(s, t)
    case Call(t) => Alive(s, t) && Of(s, t).pc.Idle?
    case Leave(t) => Alive(s, t) && Of(s, t).pc.Idle?
    case Go(t, spurious) => Alive(s, t) && !Of(s, t).pc.Idle?
  }

  /** `pid` is the initial thread, which never gives its arena back; `max` is the size of the pool. */
  function Apply(s: State, max: nat, pid: int, a: Action): State
  {
    match a
    case Spawn(t) => s.(threads := s.threads[t := Thread(true, None, Idle)])
    case Die(t) => s.(threads := s.threads[t := Of(s, t).(alive := false)])
    case Call(t) =>
      if Of(s, t).tls.Some? then At(s, t, UseDrain) else At(s, t, ScanFree(0, Limit(s, max)))
    case Leave(t) =>
      if Of(s, t).tls.None? then s
      else if t == pid then At(s, t, LastDrain)
      else if OwnerOf(s, Of(s, t).tls.seat) == t then At(s, t, ExitDrain(Of(s, t).tls.seat))
      else Seated(s, t, None)
    case Go(t, spurious) => Advance(s, max, t, Of(s, t).pc, spurious)
  }

  function Limit(s: State, max: nat): nat
  {
    if s.next > max then max else s.next
  }

  function Advance(s: State, max: nat, t: int, pc: Pc, spurious: bool): State
  {
    match pc
    case Idle => s
    case UseDrain => At(s, t, Idle)
    case ScanFree(i, lim) =>
      if i >= lim then At(s, t, ScanDead(0, Limit(s, max)))
      else if OwnerOf(s, Pool(i)) == FREE then At(SetOwner(s, Pool(i), t), t, ClaimDrain(Pool(i)))
      else At(s, t, ScanFree(i + 1, lim))
    case ClaimDrain(seat) => Seated(s, t, Some(seat))
    case ScanDead(i, lim) =>
      if i >= lim then At(s, t, Reserve(s.next))
      else if i >= |s.built| || !s.built[i] || OwnerOf(s, Pool(i)) <= 0 || OwnerOf(s, Pool(i)) == t then At(s, t, ScanDead(i + 1, lim))
      else At(s, t, Judge(i, lim, OwnerOf(s, Pool(i))))
    case Judge(i, lim, was) =>
      At(s, t, if Alive(s, was) then ScanDead(i + 1, lim) else Reclaim(i, lim, was))
    case Reclaim(i, lim, was) =>
      if OwnerOf(s, Pool(i)) == was then At(SetOwner(s, Pool(i), t), t, ClaimDrain(Pool(i)))
      else At(s, t, ScanDead(i + 1, lim))
    case Reserve(cur) =>
      if cur >= max then At(s, t, ScanNodes(|s.nodes|))
      else if s.next == cur then At(s.(next := cur + 1, builder := s.builder + [t]), t, Build(cur))
      else At(s, t, Reserve(s.next))
    case Build(cur) =>
      At(if cur < |s.built| then s.(built := s.built[cur := true]) else s, t, Post(cur))
    case Post(cur) => Seated(SetOwner(s, Pool(cur), t), t, Some(Pool(cur)))
    case ScanNodes(left) =>
      if left == 0 then At(s, t, PushNode(|s.nodes|))
      else At(s, t, JudgeNode(left, OwnerOf(s, Node(left - 1))))
    case JudgeNode(left, was) =>
      if was == FREE || (was > 0 && was != t && !Alive(s, was)) then At(s, t, TakeNode(left, was))
      else At(s, t, ScanNodes(if left > 0 then left - 1 else 0))
    case TakeNode(left, was) =>
      if left > 0 && OwnerOf(s, Node(left - 1)) == was then At(SetOwner(s, Node(left - 1), t), t, ClaimDrain(Node(left - 1)))
      else At(s, t, ScanNodes(if left > 0 then left - 1 else 0))
    case PushNode(seen) =>
      if |s.nodes| == seen && !spurious then Seated(s.(nodes := s.nodes + [t]), t, Some(Node(seen)))
      else At(s, t, PushNode(|s.nodes|))
    case ExitDrain(seat) => At(s, t, ExitStore(seat))
    case ExitStore(seat) => At(SetOwner(s, seat, FREE), t, ExitClear)
    case ExitClear => Seated(s, t, None)
    case LastDrain => At(s, t, Idle)
  }

  ghost predicate Init(s: State, max: nat)
  {
    && s.next == 0 && |s.owner| == |s.built| == max && s.nodes == [] && s.threads == map[] && s.builder == []
    && (forall i :: 0 <= i < max ==> s.owner[i] == NEVER && !s.built[i])
  }

  ghost predicate Runs(s: State, max: nat, pid: int, run: seq<Action>)
    decreases |run|
  {
    run == [] || (Enabled(s, run[0]) && Runs(Apply(s, max, pid, run[0]), max, pid, run[1..]))
  }

  function After(s: State, max: nat, pid: int, run: seq<Action>): State
    decreases |run|
  {
    if run == [] then s else After(Apply(s, max, pid, run[0]), max, pid, run[1..])
  }

  // ---- who may use an arena ----

  /** The thread may touch this arena: it claimed it, or is about to return it to its caller. */
  predicate Uses(s: State, t: int, seat: Seat)
  {
    var x := Of(s, t);
    x.alive && ((x.tls == Some(seat) && !x.pc.ExitClear?) || x.pc == ClaimDrain(seat))
  }

  /** The thread is inside the arena's drain. */
  predicate Drains(s: State, t: int, seat: Seat)
  {
    var x := Of(s, t);
    x.alive && (((x.pc.UseDrain? || x.pc.LastDrain?) && x.tls == Some(seat)) || x.pc == ClaimDrain(seat) || x.pc == ExitDrain(seat))
  }

  /** The thread, living or dead, has reserved slot i and not posted it. */
  predicate Building(s: State, t: int, i: nat)
  {
    Of(s, t).pc == Build(i) || Of(s, t).pc == Post(i)
  }

  predicate Builds(s: State, t: int, i: nat)
  {
    Alive(s, t) && Building(s, t, i)
  }

  // ---- the invariant ----

  predicate Built(s: State, seat: Seat)
  {
    match seat
    case Pool(i) => i < |s.built| && s.built[i]
    case Node(j) => j < |s.nodes|
  }

  /** What a living thread knows where it stands. */
  predicate ThreadOk(s: State, max: nat, t: int)
  {
    var x := Of(s, t);
    && t > 0
    && (x.tls.Some? && !x.pc.ExitClear? ==> OwnerOf(s, x.tls.seat) == t && Built(s, x.tls.seat))
    && match x.pc
       case Idle => true
       case UseDrain => x.tls.Some?
       case LastDrain => x.tls.Some?
       case ExitClear => x.tls.Some?
       case ExitDrain(seat) => x.tls == Some(seat)
       case ExitStore(seat) => x.tls == Some(seat)
       case ClaimDrain(seat) => x.tls.None? && OwnerOf(s, seat) == t && Built(s, seat)
       case Build(cur) => x.tls.None? && cur < s.next && OwnerOf(s, Pool(cur)) == NEVER && cur < |s.builder| && s.builder[cur] == t
       case Post(cur) => x.tls.None? && cur < s.next && OwnerOf(s, Pool(cur)) == NEVER && cur < |s.builder| && s.builder[cur] == t && Built(s, Pool(cur))
       case Judge(i, lim, was) => x.tls.None? && was > 0 && was in s.threads
       case Reclaim(i, lim, was) => x.tls.None? && was > 0 && was in s.threads && !Alive(s, was)
       case ScanNodes(left) => x.tls.None? && s.next >= max && left <= |s.nodes|
       case JudgeNode(left, was) => x.tls.None? && s.next >= max && 0 < left <= |s.nodes| && (was > 0 ==> was in s.threads)
       case TakeNode(left, was) =>
         && x.tls.None? && s.next >= max && 0 < left <= |s.nodes|
         && (was == FREE || (was > 0 && was in s.threads && !Alive(s, was)))
       case PushNode(seen) => x.tls.None? && s.next >= max
       case Reserve(cur) => x.tls.None? && cur <= s.next
       case _ => x.tls.None?
  }

  /** A slot of the pool: untouched, being built, free, or owned by a thread that once lived. */
  predicate SlotOk(s: State, i: nat)
    requires i < |s.owner| && i < |s.built|
  {
    && (i >= s.next ==> s.owner[i] == NEVER && !s.built[i])
    && (s.owner[i] != NEVER ==> s.built[i] && (s.owner[i] == FREE || (s.owner[i] > 0 && s.owner[i] in s.threads)))
    && (i < s.next ==> i < |s.builder| && s.builder[i] in s.threads && (s.owner[i] == NEVER <==> Building(s, s.builder[i], i)))
  }

  predicate NodeOk(s: State, j: nat)
    requires j < |s.nodes|
  {
    s.nodes[j] == FREE || (s.nodes[j] > 0 && s.nodes[j] in s.threads)
  }

  ghost predicate Inv(s: State, max: nat)
  {
    && |s.owner| == |s.built| == max && s.next == |s.builder| <= max
    && (s.nodes != [] ==> s.next == max)
    && (forall i: nat :: i < max ==> SlotOk(s, i))
    && (forall j: nat :: j < |s.nodes| ==> NodeOk(s, j))
    && forall t: int :: Alive(s, t) ==> ThreadOk(s, max, t)
  }

  lemma InitInv(s: State, max: nat)
    requires Init(s, max)
    ensures Inv(s, max)
  {
  }

  // ---- each step keeps the invariant ----

  /** Nothing changes but where thread t stands and which arena it remembers. */
  lemma MoveKeeps(s: State, max: nat, t: int, x: Thread)
    requires Inv(s, max) && Alive(s, t) && x.alive
    requires forall i: nat :: Building(s, t, i) <==> x.pc == Build(i) || x.pc == Post(i)
    requires ThreadOk(s.(threads := s.threads[t := x]), max, t)
    ensures Inv(s.(threads := s.threads[t := x]), max)
  {
    var n := s.(threads := s.threads[t := x]);
    forall i: nat | i < max
      ensures SlotOk(n, i)
    {
      assert SlotOk(s, i);
    }
    forall j: nat | j < |n.nodes|
      ensures NodeOk(n, j)
    {
      assert NodeOk(s, j);
    }
    forall u: int | Alive(n, u)
      ensures ThreadOk(n, max, u)
    {
      if u != t {
        assert ThreadOk(s, max, u);
      }
    }
  }

  /** An exchange on the owner word of an arena nobody living owns. */
  lemma ClaimKeeps(s: State, max: nat, t: int, seat: Seat)
    requires Inv(s, max) && Alive(s, t) && Built(s, seat) && Of(s, t).tls.None? && t > 0
    requires !Of(s, t).pc.Build? && !Of(s, t).pc.Post?
    requires OwnerOf(s, seat) == FREE || (OwnerOf(s, seat) > 0 && !Alive(s, OwnerOf(s, seat)))
    ensures Inv(At(SetOwner(s, seat, t), t, ClaimDrain(seat)), max)
  {
    var n := At(SetOwner(s, seat, t), t, ClaimDrain(seat));
    WordSlots(s, max, t, seat, t, Of(s, t).(pc := ClaimDrain(seat)));
    forall u: int | Alive(n, u)
      ensures ThreadOk(n, max, u)
    {
      if u != t {
        WordThreads(s, max, t, seat, t, Of(s, t).(pc := ClaimDrain(seat)), u);
      }
    }
  }

  /** Writing a thread's id, or FREE, into the owner word of a built arena leaves slots and nodes right. */
  lemma WordSlots(s: State, max: nat, t: int, seat: Seat, w: int, x: Thread)
    requires Inv(s, max) && Alive(s, t) && Built(s, seat) && t > 0 && (w == t || w == FREE)
    requires OwnerOf(s, seat) != NEVER
    requires !Of(s, t).pc.Build? && !Of(s, t).pc.Post? && !x.pc.Build? && !x.pc.Post?
    ensures var n := SetOwner(s, seat, w).(threads := s.threads[t := x]);
            && |n.owner| == |n.built| == max && |n.nodes| == |s.nodes|
            && (forall i: nat :: i < max ==> SlotOk(n, i)) && (forall j: nat :: j < |n.nodes| ==> NodeOk(n, j))
  {
    hide ThreadOk;
    var n := SetOwner(s, seat, w).(threads := s.threads[t := x]);
    forall i: nat | i < max
      ensures SlotOk(n, i)
    {
      assert SlotOk(s, i);
    }
    forall j: nat | j < |n.nodes|
      ensures NodeOk(n, j)
    {
      assert NodeOk(s, j);
    }
  }

  /** No other living thread relies on an owner word that does not name it. */
  lemma WordThreads(s: State, max: nat, t: int, seat: Seat, w: int, x: Thread, u: int)
    requires Inv(s, max) && Alive(s, t) && u != t && Alive(s, u) && Built(s, seat)
    requires x.alive && OwnerOf(s, seat) != u && OwnerOf(s, seat) != NEVER
    ensures ThreadOk(SetOwner(s, seat, w).(threads := s.threads[t := x]), max, u)
  {
    hide SlotOk, NodeOk;
    assert ThreadOk(s, max, u);
  }

  lemma ReserveKeeps(s: State, max: nat, t: int)
    requires Inv(s, max) && Alive(s, t) && Of(s, t).tls.None? && t > 0 && s.next < max
    requires !Of(s, t).pc.Build? && !Of(s, t).pc.Post?
    ensures Inv(At(s.(next := s.next + 1, builder := s.builder + [t]), t, Build(s.next)), max)
  {
    var n := At(s.(next := s.next + 1, builder := s.builder + [t]), t, Build(s.next));
    assert SlotOk(s, s.next);
    forall i: nat | i < max
      ensures SlotOk(n, i)
    {
      assert SlotOk(s, i);
    }
    assert n.nodes == [];
    forall u: int | Alive(n, u)
      ensures ThreadOk(n, max, u)
    {
      if u != t {
        assert ThreadOk(s, max, u);
      }
    }
  }

  lemma BuildKeeps(s: State, max: nat, t: int, cur: nat)
    requires Inv(s, max) && Alive(s, t) && Of(s, t).pc == Build(cur)
    ensures cur < |s.built| && Inv(At(s.(built := s.built[cur := true]), t, Post(cur)), max)
  {
    assert ThreadOk(s, max, t);
    var n := At(s.(built := s.built[cur := true]), t, Post(cur));
    forall i: nat | i < max
      ensures SlotOk(n, i)
    {
      assert SlotOk(s, i);
    }
    forall j: nat | j < |n.nodes|
      ensures NodeOk(n, j)
    {
      assert NodeOk(s, j);
    }
    forall u: int | Alive(n, u)
      ensures ThreadOk(n, max, u)
    {
      if u != t {
        assert ThreadOk(s, max, u);
      }
    }
  }

  /** The fresh slot gets its first owner; nobody else could have taken it meanwhile. */
  lemma PostKeeps(s: State, max: nat, t: int, cur: nat)
    requires Inv(s, max) && Alive(s, t) && Of(s, t).pc == Post(cur)
    ensures Inv(Seated(SetOwner(s, Pool(cur), t), t, Some(Pool(cur))), max)
  {
    assert ThreadOk(s, max, t);
    var n := Seated(SetOwner(s, Pool(cur), t), t, Some(Pool(cur)));
    forall i: nat | i < max
      ensures SlotOk(n, i)
    {
      assert SlotOk(s, i);
    }
    forall j: nat | j < |n.nodes|
      ensures NodeOk(n, j)
    {
      assert NodeOk(s, j);
    }
    forall u: int | Alive(n, u)
      ensures ThreadOk(n, max, u)
    {
      if u != t {
        assert ThreadOk(s, max, u);
      }
    }
  }

  lemma PushKeeps(s: State, max: nat, t: int)
    requires Inv(s, max) && Alive(s, t) && Of(s, t).pc == PushNode(|s.nodes|)
    ensures Inv(Seated(s.(nodes := s.nodes + [t]), t, Some(Node(|s.nodes|))), max)
  {
    assert ThreadOk(s, max, t);
    var n := Seated(s.(nodes := s.nodes + [t]), t, Some(Node(|s.nodes|)));
    forall i: nat | i < max
      ensures SlotOk(n, i)
    {
      assert SlotOk(s, i);
    }
    forall j: nat | j < |n.nodes|
      ensures NodeOk(n, j)
    {
      assert j < |s.nodes| ==> NodeOk(s, j);
    }
    forall u: int | Alive(n, u)
      ensures ThreadOk(n, max, u)
    {
      if u != t {
        assert ThreadOk(s, max, u);
      }
    }
  }

  /** The leaving thread frees its owner word after its last drain. */
  lemma FreeKeeps(s: State, max: nat, t: int, seat: Seat)
    requires Inv(s, max) && Alive(s, t) && Of(s, t).pc == ExitStore(seat)
    ensures Inv(At(SetOwner(s, seat, FREE), t, ExitClear), max)
  {
    assert ThreadOk(s, max, t);
    var n := At(SetOwner(s, seat, FREE), t, ExitClear);
    WordSlots(s, max, t, seat, FREE, Of(s, t).(pc := ExitClear));
    forall u: int | Alive(n, u)
      ensures ThreadOk(n, max, u)
    {
      if u != t {
        WordThreads(s, max, t, seat, FREE, Of(s, t).(pc := ExitClear), u);
      }
    }
  }

  /** A thread is born, or dies where it stands. */
  lemma LifeKeeps(s: State, max: nat, t: int, x: Thread)
    requires Inv(s, max) && t > 0
    requires (t !in s.threads && x == Thread(true, None, Idle)) || (Alive(s, t) && x == Of(s, t).(alive := false))
    ensures Inv(s.(threads := s.threads[t := x]), max)
  {
    var n := s.(threads := s.threads[t := x]);
    forall i: nat | i < max
      ensures SlotOk(n, i)
    {
      assert SlotOk(s, i);
    }
    forall j: nat | j < |n.nodes|
      ensures NodeOk(n, j)
    {
      assert NodeOk(s, j);
    }
    forall u: int | Alive(n, u)
      ensures ThreadOk(n, max, u)
    {
      if u != t {
        assert ThreadOk(s, max, u);
      }
    }
  }

  /** The owner word of a built arena. */
  lemma SeatKnown(s: State, max: nat, seat: Seat)
    requires Inv(s, max)
    ensures OwnerOf(s, seat) != NEVER ==> Built(s, seat) && (OwnerOf(s, seat) == FREE || (OwnerOf(s, seat) > 0 && OwnerOf(s, seat) in s.threads))
  {
    match seat {
      case Pool(i) =>
        if i < max {
          assert SlotOk(s, i);
        }
      case Node(j) =>
        if j < |s.nodes| {
          assert NodeOk(s, j);
        }
    }
  }

  /** Reading on through the pool's slots. */
  lemma ScanKeeps(s: State, max: nat, t: int, spurious: bool)
    requires Inv(s, max) && Alive(s, t)
    requires var pc := Of(s, t).pc; pc.ScanFree? || pc.ScanDead? || pc.Judge?
    ensures Inv(Advance(s, max, t, Of(s, t).pc, spurious), max)
  {
    assert ThreadOk(s, max, t);
    var x := Of(s, t);
    hide Inv, SlotOk, NodeOk;
    match x.pc {
      case ScanFree(i, lim) =>
        if i < lim && OwnerOf(s, Pool(i)) == FREE {
          SeatKnown(s, max, Pool(i));
          ClaimKeeps(s, max, t, Pool(i));
        } else {
          MoveKeeps(s, max, t, x.(pc := if i >= lim then ScanDead(0, Limit(s, max)) else ScanFree(i + 1, lim)));
        }
      case ScanDead(i, lim) =>
        SeatKnown(s, max, Pool(i));
        MoveKeeps(s, max, t, Of(Advance(s, max, t, x.pc, spurious), t));
      case Judge(i, lim, was) =>
        MoveKeeps(s, max, t, x.(pc := if Alive(s, was) then ScanDead(i + 1, lim) else Reclaim(i, lim, was)));
    }
  }

  /** The exchanges on a slot and on the pool's cursor. */
  lemma PoolKeeps(s: State, max: nat, t: int, spurious: bool)
    requires Inv(s, max) && Alive(s, t)
    requires var pc := Of(s, t).pc; pc.Reclaim? || pc.Reserve? || pc.Build? || pc.Post?
    ensures Inv(Advance(s, max, t, Of(s, t).pc, spurious), max)
  {
    assert ThreadOk(s, max, t);
    var x := Of(s, t);
    assert s.next <= max == |s.built|;
    hide Inv, SlotOk, NodeOk, SetOwner;
    match x.pc {
      case Reclaim(i, lim, was) =>
        if OwnerOf(s, Pool(i)) == was {
          SeatKnown(s, max, Pool(i));
          ClaimKeeps(s, max, t, Pool(i));
        } else {
          MoveKeeps(s, max, t, x.(pc := ScanDead(i + 1, lim)));
        }
      case Reserve(cur) =>
        if cur < max && s.next == cur {
          ReserveKeeps(s, max, t);
        } else {
          MoveKeeps(s, max, t, x.(pc := if cur >= max then ScanNodes(|s.nodes|) else Reserve(s.next)));
        }
      case Build(cur) => BuildKeeps(s, max, t, cur);
      case Post(cur) => PostKeeps(s, max, t, cur);
    }
  }

  /** Reading on through the overflow nodes, and pushing one. */
  lemma NodesKeep(s: State, max: nat, t: int, spurious: bool)
    requires Inv(s, max) && Alive(s, t)
    requires var pc := Of(s, t).pc; pc.ScanNodes? || pc.JudgeNode? || pc.TakeNode? || pc.PushNode?
    ensures Inv(Advance(s, max, t, Of(s, t).pc, spurious), max)
  {
    assert ThreadOk(s, max, t);
    var x := Of(s, t);
    hide Inv, SlotOk, NodeOk, SetOwner;
    match x.pc {
      case ScanNodes(left) =>
        if left > 0 {
          SeatKnown(s, max, Node(left - 1));
        }
        MoveKeeps(s, max, t, x.(pc := if left == 0 then PushNode(|s.nodes|) else JudgeNode(left, OwnerOf(s, Node(left - 1)))));
      case JudgeNode(left, was) =>
        MoveKeeps(s, max, t, x.(pc := if was == FREE || (was > 0 && was != t && !Alive(s, was)) then TakeNode(left, was)
                                      else ScanNodes(left - 1)));
      case TakeNode(left, was) =>
        if OwnerOf(s, Node(left - 1)) == was {
          SeatKnown(s, max, Node(left - 1));
          ClaimKeeps(s, max, t, Node(left - 1));
        } else {
          MoveKeeps(s, max, t, x.(pc := ScanNodes(left - 1)));
        }
      case PushNode(seen) =>
        if |s.nodes| == seen && !spurious {
          PushKeeps(s, max, t);
        } else {
          MoveKeeps(s, max, t, x.(pc := PushNode(|s.nodes|)));
        }
    }
  }

  /** Draining, and leaving. */
  lemma RestKeeps(s: State, max: nat, t: int, spurious: bool)
    requires Inv(s, max) && Alive(s, t)
    requires var pc := Of(s, t).pc;
             pc.UseDrain? || pc.ClaimDrain? || pc.ExitDrain? || pc.ExitStore? || pc.ExitClear? || pc.LastDrain?
    ensures Inv(Advance(s, max, t, Of(s, t).pc, spurious), max)
  {
    assert ThreadOk(s, max, t);
    var x := Of(s, t);
    hide Inv, SlotOk, NodeOk, SetOwner;
    match x.pc {
      case UseDrain => MoveKeeps(s, max, t, x.(pc := Idle));
      case ClaimDrain(seat) => MoveKeeps(s, max, t, x.(tls := Some(seat), pc := Idle));
      case ExitDrain(seat) => MoveKeeps(s, max, t, x.(pc := ExitStore(seat)));
      case ExitStore(seat) => FreeKeeps(s, max, t, seat);
      case ExitClear => MoveKeeps(s, max, t, x.(tls := None, pc := Idle));
      case LastDrain => MoveKeeps(s, max, t, x.(pc := Idle));
    }
  }

  lemma StepKeeps(s: State, max: nat, pid: int, a: Action)
    requires Inv(s, max) && Enabled(s, a)
    ensures Inv(Apply(s, max, pid, a), max)
  {
    match a {
      case Spawn(t) =>
        hide Inv;
        LifeKeeps(s, max, t, Thread(true, None, Idle));
      case Die(t) =>
        assert ThreadOk(s, max, t);
        hide Inv;
        LifeKeeps(s, max, t, Of(s, t).(alive := false));
      case Call(t) =>
        assert ThreadOk(s, max, t);
        hide Inv;
        MoveKeeps(s, max, t, Of(s, t).(pc := if Of(s, t).tls.Some? then UseDrain else ScanFree(0, Limit(s, max))));
      case Leave(t) =>
        assert ThreadOk(s, max, t);
        hide Inv;
        var x := Of(s, t);
        if x.tls.Some? {
          MoveKeeps(s, max, t, if t == pid then x.(pc := LastDrain) else x.(pc := ExitDrain(x.tls.seat)));
        }
      case Go(t, spurious) =>
        hide Inv, Advance;
        var pc := Of(s, t).pc;
        if pc.ScanFree? || pc.ScanDead? || pc.Judge? {
          ScanKeeps(s, max, t, spurious);
        } else if pc.Reclaim? || pc.Reserve? || pc.Build? || pc.Post? {
          PoolKeeps(s, max, t, spurious);
        } else if pc.ScanNodes? || pc.JudgeNode? || pc.TakeNode? || pc.PushNode? {
          NodesKeep(s, max, t, spurious);
        } else {
          RestKeeps(s, max, t, spurious);
        }
    }
  }

  lemma {:induction false} RunKeeps(s: State, max: nat, pid: int, run: seq<Action>)
    requires Inv(s, max) && Runs(s, max, pid, run)
    ensures Inv(After(s, max, pid, run), max)
    decreases |run|
  {
    hide Inv;
    if run != [] {
      StepKeeps(s, max, pid, run[0]);
      RunKeeps(Apply(s, max, pid, run[0]), max, pid, run[1..]);
    }
  }

  // ---- what the invariant means ----

  /** An arena a thread may use is constructed, and its owner word names that thread. */
  lemma UserOwns(s: State, max: nat, t: int, seat: Seat)
    requires Inv(s, max) && Uses(s, t, seat)
    ensures OwnerOf(s, seat) == t && Built(s, seat)
  {
    assert ThreadOk(s, max, t);
  }

  /** In every reachable state no arena is usable by two living threads. */
  lemma Exclusive(s: State, max: nat, pid: int, run: seq<Action>, t: int, u: int, seat: Seat)
    requires Init(s, max) && Runs(s, max, pid, run)
    requires Uses(After(s, max, pid, run), t, seat) && Uses(After(s, max, pid, run), u, seat)
    ensures t == u
  {
    hide Inv, Uses;
    InitInv(s, max);
    RunKeeps(s, max, pid, run);
    UserOwns(After(s, max, pid, run), max, t, seat);
    UserOwns(After(s, max, pid, run), max, u, seat);
  }

  /** Whoever drains an arena is its owner, so a ring has one consumer at a time. */
  lemma SingleDrainer(s: State, max: nat, pid: int, run: seq<Action>, t: int, u: int, seat: Seat)
    requires Init(s, max) && Runs(s, max, pid, run)
    requires Drains(After(s, max, pid, run), t, seat) && Drains(After(s, max, pid, run), u, seat)
    ensures t == u && OwnerOf(After(s, max, pid, run), seat) == t
  {
    var n := After(s, max, pid, run);
    InitInv(s, max);
    RunKeeps(s, max, pid, run);
    DrainerUses(n, max, t, seat);
    DrainerUses(n, max, u, seat);
    hide Inv, Uses, Drains;
    UserOwns(n, max, t, seat);
    UserOwns(n, max, u, seat);
  }

  lemma DrainerUses(s: State, max: nat, t: int, seat: Seat)
    requires Inv(s, max) && Drains(s, t, seat)
    ensures Uses(s, t, seat)
  {
    assert ThreadOk(s, max, t);
  }

  /** A slot whose construction is under way is nobody's, and has one builder. */
  lemma BuilderAlone(s: State, max: nat, t: int, u: int, i: nat)
    requires Inv(s, max) && Builds(s, t, i)
    ensures Builds(s, u, i) ==> u == t
    ensures !Uses(s, u, Pool(i))
  {
    assert ThreadOk(s, max, t);
    if Alive(s, u) {
      assert ThreadOk(s, max, u);
    }
  }

  /**
   The slots that leak: with every living thread outside the allocator, a slot handed out so far is
   ownerless exactly if the thread that reserved it died before posting it. Every other slot is built,
   and is free, or owned by a living thread, or left by a dead one for the next to reclaim. Overflow
   nodes appear only once the pool is used up.
   */
  lemma NothingLeaks(s: State, max: nat, i: nat)
    requires Inv(s, max) && i < s.next && forall t: int :: Alive(s, t) ==> Of(s, t).pc.Idle?
    ensures i < |s.owner| && i < |s.builder|
    ensures s.owner[i] == NEVER <==> !Alive(s, s.builder[i]) && Building(s, s.builder[i], i)
    ensures s.owner[i] != NEVER ==> Built(s, Pool(i)) && (s.owner[i] == FREE || (s.owner[i] > 0 && s.owner[i] in s.threads))
    ensures s.nodes != [] ==> s.next == max
  {
    assert SlotOk(s, i);
  }

  // ---- the slots that leak ----

  /** Slot i was reserved by a thread that died before it posted the slot. */
  predicate Leaked(s: State, i: nat)
  {
    i < |s.owner| && i < |s.builder| && s.owner[i] == NEVER && s.builder[i] in s.threads && !Alive(s, s.builder[i])
  }

  /** No step of any thread gives a leaked slot an owner. */
  lemma LeakStays(s: State, max: nat, pid: int, a: Action, i: nat)
    requires Inv(s, max) && Enabled(s, a) && Leaked(s, i)
    ensures Leaked(Apply(s, max, pid, a), i) && Apply(s, max, pid, a).builder[i] == s.builder[i]
  {
    hide Inv, ThreadOk, Advance;
    if a.Go? {
      AliveOk(s, max, a.t);
      GoSpares(s, max, a.t, a.spurious, i);
    }
  }

  lemma AliveOk(s: State, max: nat, t: int)
    requires Inv(s, max) && Alive(s, t)
    ensures ThreadOk(s, max, t)
  {
  }

  predicate AtPool(pc: Pc)
  {
    pc.ScanFree? || pc.ScanDead? || pc.Judge? || pc.Reclaim? || pc.Reserve? || pc.Build? || pc.Post?
  }

  lemma GoSpares(s: State, max: nat, t: int, spurious: bool, i: nat)
    requires Leaked(s, i) && Alive(s, t) && ThreadOk(s, max, t)
    ensures Leaked(Advance(s, max, t, Of(s, t).pc, spurious), i)
    ensures Advance(s, max, t, Of(s, t).pc, spurious).builder[i] == s.builder[i]
  {
    hide Advance, ThreadOk, AtPool;
    if AtPool(Of(s, t).pc) {
      PoolSpares(s, max, t, spurious, i);
    } else {
      RestSpares(s, max, t, spurious, i);
    }
  }

  lemma PoolSpares(s: State, max: nat, t: int, spurious: bool, i: nat)
    requires Leaked(s, i) && Alive(s, t) && ThreadOk(s, max, t)
    requires AtPool(Of(s, t).pc)
    ensures Leaked(Advance(s, max, t, Of(s, t).pc, spurious), i)
    ensures Advance(s, max, t, Of(s, t).pc, spurious).builder[i] == s.builder[i]
  {
  }

  lemma RestSpares(s: State, max: nat, t: int, spurious: bool, i: nat)
    requires Leaked(s, i) && Alive(s, t) && ThreadOk(s, max, t)
    requires !AtPool(Of(s, t).pc)
    ensures Leaked(Advance(s, max, t, Of(s, t).pc, spurious), i)
    ensures Advance(s, max, t, Of(s, t).pc, spurious).builder[i] == s.builder[i]
  {
  }

  /** Nor does any run: the slot is lost for good, and nobody ever uses its arena. */
  lemma {:induction false} LeakedForGood(s: State, max: nat, pid: int, run: seq<Action>, i: nat, t: int)
    requires Inv(s, max) && Runs(s, max, pid, run) && Leaked(s, i)
    ensures Leaked(After(s, max, pid, run), i) && !Uses(After(s, max, pid, run), t, Pool(i))
    decreases |run|
  {
    hide Leaked, Apply, Enabled;
    if run != [] {
      StepKeeps(s, max, pid, run[0]);
      LeakStays(s, max, pid, run[0], i);
      LeakedForGood(Apply(s, max, pid, run[0]), max, pid, run[1..], i, t);
    } else {
      LeakedUnused(s, max, i, t);
    }
  }

  lemma LeakedUnused(s: State, max: nat, i: nat, t: int)
    requires Inv(s, max) && Leaked(s, i)
    ensures !Uses(s, t, Pool(i))
  {
    if Alive(s, t) {
      assert ThreadOk(s, max, t);
    }
  }

  lemma RunCons(s: State, max: nat, pid: int, a: Action, rest: seq<Action>)
    ensures After(s, max, pid, [a] + rest) == After(Apply(s, max, pid, a), max, pid, rest)
    ensures Runs(s, max, pid, [a] + rest) <==> Enabled(s, a) && Runs(Apply(s, max, pid, a), max, pid, rest)
  {
    assert ([a] + rest)[1..] == rest;
  }

  /** A run that leaks: the first thread reserves slot 0 and dies while it builds the arena. */
  lemma LeakRun(s: State, max: nat, pid: int) returns (run: seq<Action>)
    requires Init(s, max) && max > 0
    ensures Runs(s, max, pid, run) && Leaked(After(s, max, pid, run), 0) && After(s, max, pid, run).next == 1
    ensures forall t: int :: !Alive(After(s, max, pid, run), t)
  {
    var go := Go(1, false);
    var s1 := Apply(s, max, pid, Spawn(1));
    var s2 := Apply(s1, max, pid, Call(1));
    var s3 := Apply(s2, max, pid, go);
    var s4 := Apply(s3, max, pid, go);
    var s5 := Apply(s4, max, pid, go);
    run := [];
    RunCons(s5, max, pid, Die(1), run);
    run := [Die(1)] + run;
    RunCons(s4, max, pid, go, run);
    run := [go] + run;
    RunCons(s3, max, pid, go, run);
    run := [go] + run;
    RunCons(s2, max, pid, go, run);
    run := [go] + run;
    RunCons(s1, max, pid, Call(1), run);
    run := [Call(1)] + run;
    RunCons(s, max, pid, Spawn(1), run);
    run := [Spawn(1)] + run;
  }
}
