/**
 The arenas' owner words and one arena's remote-free ring together. A thread drains the ring whenever
 its own steps through the allocator stand at a drain of that arena, and each thread has its own place
 inside the drain: that there is one consumer is proved here, and not part of the steps.
 */
module ArenaDrains {
  import A = ArenaSlots
  import R = RemoteFree
  import S = RemoteFreeSafety
  import D = RemoteFreeDeaths
  import L = FreeList
  import E = RemoteFreeDrain

  /** The arena's seat, the sizes of pool and ring, and the initial thread. */
  datatype Setup = Setup(seat: A.Seat, max: nat, pid: int, k: nat)

  datatype State = State(slots: A.State, ring: R.State, pcs: map<int, R.Consumer>)

  datatype Action =
    | Slot(step: A.Action)                  // a thread claims, builds, frees or leaves
    | Remote(move: R.Action)                // a push goes on, or a client writes to its memory
    | Enter(t: int)                         // thread t begins to drain
    | Drain(t: int, left: R.Node)           // thread t goes on with the drain

  function PcOf(s: State, t: int): R.Consumer
  {
    if t in s.pcs then s.pcs[t] else R.Away
  }

  /** A thread leaves a drain only at its end, or by dying in it. */
  ghost predicate Enabled(s: State, z: Setup, a: Action)
  {
    match a
    case Slot(b) => A.Enabled(s.slots, b) && (b.Go? ==> PcOf(s, b.t).Away?)
    case Remote(b) => !b.BeginDrain? && !b.Drain? && !b.OwnerDies? && R.Enabled(s.ring, b)
    case Enter(t) => A.Drains(s.slots, t, z.seat) && PcOf(s, t).Away?
    case Drain(t, left) => !PcOf(s, t).Away?
  }

  predicate DiesDraining(s: State, a: Action)
  {
    a.Slot? && a.step.Die? && !PcOf(s, a.step.t).Away?
  }

  /** Each thread goes on from its own place, whatever another thread did to the ring. */
  function Apply(s: State, z: Setup, a: Action): State
  {
    match a
    case Slot(b) =>
      var n := s.(slots := A.Apply(s.slots, z.max, z.pid, b));
      if DiesDraining(s, a) then n.(ring := R.Abandon(s.ring), pcs := s.pcs[b.t := R.Away]) else n
    case Remote(b) => s.(ring := R.Apply(s.ring, z.k, b))
    case Enter(t) => s.(ring := s.ring.(consumer := R.Popping), pcs := s.pcs[t := R.Popping])
    case Drain(t, left) =>
      var ring := R.DrainStep(s.ring, z.k, PcOf(s, t), left);
      s.(ring := ring, pcs := s.pcs[t := ring.consumer])
  }

  ghost predicate Init(s: State, z: Setup)
  {
    A.Init(s.slots, z.max) && R.Init(s.ring, z.k) && s.pcs == map[]
  }

  ghost predicate Runs(s: State, z: Setup, run: seq<Action>)
    decreases |run|
  {
    run == [] || (Enabled(s, z, run[0]) && Runs(Apply(s, z, run[0]), z, run[1..]))
  }

  function After(s: State, z: Setup, run: seq<Action>): State
    decreases |run|
  {
    if run == [] then s else After(Apply(s, z, run[0]), z, run[1..])
  }

  /** A thread inside the drain owns the arena, and stands where the ring's consumer stands. */
  predicate DrainerOk(s: State, z: Setup, t: int)
  {
    !PcOf(s, t).Away? ==> A.Drains(s.slots, t, z.seat) && PcOf(s, t) == s.ring.consumer
  }

  ghost predicate Inv(s: State, z: Setup)
  {
    && A.Inv(s.slots, z.max)
    && (forall t: int :: DrainerOk(s, z, t))
    && (!s.ring.consumer.Away? ==> exists t: int :: !PcOf(s, t).Away?)
  }

  /** Whoever drains is the one the owner word names. */
  lemma OneDrainer(s: State, z: Setup, t: int, u: int)
    requires A.Inv(s.slots, z.max) && A.Drains(s.slots, t, z.seat) && A.Drains(s.slots, u, z.seat)
    ensures t == u && A.OwnerOf(s.slots, z.seat) == t
  {
    A.DrainerUses(s.slots, z.max, t, z.seat);
    A.DrainerUses(s.slots, z.max, u, z.seat);
    A.UserOwns(s.slots, z.max, t, z.seat);
    A.UserOwns(s.slots, z.max, u, z.seat);
  }

  /** A thread that does not step goes on draining what it drains. */
  lemma OthersDrain(s: A.State, z: Setup, b: A.Action, u: int)
    requires A.Inv(s, z.max) && A.Enabled(s, b) && A.Drains(s, u, z.seat) && (b.Go? || b.Die? ==> u != b.t)
    ensures A.Drains(A.Apply(s, z.max, z.pid, b), u, z.seat)
  {
    if u != b.t {
      OtherStays(s, z, b, u);
    }
  }

  lemma OtherStays(s: A.State, z: Setup, b: A.Action, u: int)
    requires u != b.t
    ensures A.Of(A.Apply(s, z.max, z.pid, b), u) == A.Of(s, u)
  {
  }

  /** The ring's step that a joint step makes, if it makes one. */
  function RingStep(s: State, a: Action): seq<R.Action>
  {
    match a
    case Slot(_) => if DiesDraining(s, a) then [R.OwnerDies] else []
    case Remote(b) => [b]
    case Enter(_) => [R.BeginDrain]
    case Drain(_, left) => [R.Drain(left)]
  }

  /** If a thread dies inside the drain, it is not between handing a cell back and advancing the head. */
  predicate Gentle(s: State, a: Action)
  {
    DiesDraining(s, a) ==> !PcOf(s, a.step.t).Vacated?
  }

  /** Beginning a drain finds the ring without a consumer. */
  lemma EnterAlone(s: State, z: Setup, t: int)
    requires Inv(s, z) && Enabled(s, z, Enter(t))
    ensures s.ring.consumer.Away?
  {
    hide A.Inv, A.Drains;
    if !s.ring.consumer.Away? {
      var u: int :| !PcOf(s, u).Away?;
      assert DrainerOk(s, z, u);
      OneDrainer(s, z, t, u);
      assert false;
    }
  }

  lemma DrainerLives(s: State, z: Setup, t: int)
    requires Inv(s, z) && !PcOf(s, t).Away?
    ensures A.Alive(s.slots, t)
  {
    hide A.Inv;
    assert DrainerOk(s, z, t);
  }

  /** Two threads inside the drain are one. */
  lemma Alone(s: State, z: Setup, t: int, u: int)
    requires Inv(s, z) && !PcOf(s, t).Away? && !PcOf(s, u).Away?
    ensures t == u && PcOf(s, t) == s.ring.consumer && A.OwnerOf(s.slots, z.seat) == t
  {
    hide A.Inv, A.Drains;
    assert DrainerOk(s, z, t) && DrainerOk(s, z, u);
    OneDrainer(s, z, t, u);
  }

  /** A step of one thread's own leaves the other threads' drains alone, and its death ends its drain. */
  lemma SlotKeeps(s: State, z: Setup, b: A.Action)
    requires Inv(s, z) && Enabled(s, z, Slot(b))
    ensures Inv(Apply(s, z, Slot(b)), z)
  {
    var n := Apply(s, z, Slot(b));
    hide A.Inv, A.Apply, A.Enabled;
    A.StepKeeps(s.slots, z.max, z.pid, b);
    forall u: int
      ensures DrainerOk(n, z, u)
    {
      assert DrainerOk(s, z, u);
      if !PcOf(n, u).Away? {
        if DiesDraining(s, Slot(b)) {
          Alone(s, z, b.t, u);
          assert false;
        } else {
          OthersDrain(s.slots, z, b, u);
        }
      }
    }
    if !n.ring.consumer.Away? {
      var u: int :| !PcOf(s, u).Away?;
      assert !PcOf(n, u).Away?;
    }
  }

  /** Every joint step keeps the invariant, deaths inside the drain included. */
  lemma StepKeeps(s: State, z: Setup, a: Action)
    requires Inv(s, z) && Enabled(s, z, a)
    ensures Inv(Apply(s, z, a), z)
  {
    var n := Apply(s, z, a);
    hide A.Inv, A.Apply, A.Enabled, R.DrainStep, R.PushStep;
    match a {
      case Slot(b) => SlotKeeps(s, z, b);
      case Remote(b) =>
        hide A.Drains;
        SameConsumer(s.ring, z.k, b);
        forall u: int
          ensures DrainerOk(n, z, u)
        {
          assert DrainerOk(s, z, u);
        }
        if u: int :| !PcOf(s, u).Away? {
          assert !PcOf(n, u).Away?;
        }
      case Enter(t) =>
        EnterAlone(s, z, t);
        hide A.Drains;
        forall u: int
          ensures DrainerOk(n, z, u)
        {
          assert DrainerOk(s, z, u);
        }
        assert !PcOf(n, t).Away?;
      case Drain(t, left) =>
        hide A.Drains;
        forall u: int
          ensures DrainerOk(n, z, u)
        {
          assert DrainerOk(s, z, u) && DrainerOk(s, z, t);
          if !PcOf(s, u).Away? {
            Alone(s, z, t, u);
          }
        }
        assert PcOf(n, t) == n.ring.consumer;
    }
  }

  /** Every step is a step of the ring with a single consumer, or leaves the ring alone; a gentle one is an enabled step. */
  lemma StepRefines(s: State, z: Setup, a: Action)
    requires Inv(s, z) && Enabled(s, z, a)
    ensures Apply(s, z, a).ring == R.After(s.ring, z.k, RingStep(s, a))
    ensures Gentle(s, a) ==> R.Runs(s.ring, z.k, RingStep(s, a))
  {
    hide A.Inv, A.Apply, A.Enabled, A.Drains, R.DrainStep, R.PushStep;
    match a {
      case Slot(b) =>
        if DiesDraining(s, a) {
          Alone(s, z, b.t, b.t);
          OneStep(s.ring, z.k, R.OwnerDies);
        }
      case Remote(b) => OneStep(s.ring, z.k, b);
      case Enter(t) =>
        EnterAlone(s, z, t);
        OneStep(s.ring, z.k, R.BeginDrain);
      case Drain(t, left) =>
        Alone(s, z, t, t);
        OneStep(s.ring, z.k, R.Drain(left));
    }
  }

  lemma SameConsumer(s: R.State, k: nat, b: R.Action)
    requires !b.BeginDrain? && !b.Drain? && !b.OwnerDies?
    ensures R.Apply(s, k, b).consumer == s.consumer
  {
  }

  lemma OneStep(s: R.State, k: nat, b: R.Action)
    ensures R.After(s, k, [b]) == R.Apply(s, k, b)
    ensures R.Runs(s, k, [b]) <==> R.Enabled(s, b)
  {
    assert [b][1..] == [];
  }

  /** The ring's own run inside a joint run. */
  function RingRun(s: State, z: Setup, run: seq<Action>): seq<R.Action>
    decreases |run|
  {
    if run == [] then [] else RingStep(s, run[0]) + RingRun(Apply(s, z, run[0]), z, run[1..])
  }

  /** Every death inside the drain is a gentle one. */
  predicate GentleRun(s: State, z: Setup, run: seq<Action>)
    decreases |run|
  {
    run == [] || (Gentle(s, run[0]) && GentleRun(Apply(s, z, run[0]), z, run[1..]))
  }

  lemma {:induction false} RunKeeps(s: State, z: Setup, run: seq<Action>)
    requires Inv(s, z) && Runs(s, z, run)
    ensures Inv(After(s, z, run), z)
    decreases |run|
  {
    hide Inv, Enabled, Apply;
    if run != [] {
      StepKeeps(s, z, run[0]);
      RunKeeps(Apply(s, z, run[0]), z, run[1..]);
    }
  }

  lemma {:induction false} RunRefines(s: State, z: Setup, run: seq<Action>)
    requires Inv(s, z) && Runs(s, z, run) && GentleRun(s, z, run)
    ensures R.Runs(s.ring, z.k, RingRun(s, z, run)) && After(s, z, run).ring == R.After(s.ring, z.k, RingRun(s, z, run))
    decreases |run|
  {
    hide Inv, Enabled, Apply, RingStep, Gentle, R.Apply, R.Enabled;
    if run != [] {
      var n := Apply(s, z, run[0]);
      StepKeeps(s, z, run[0]);
      StepRefines(s, z, run[0]);
      RunRefines(n, z, run[1..]);
      S.RunAppend(s.ring, z.k, RingStep(s, run[0]), RingRun(n, z, run[1..]));
    }
  }

  /** Over every joint run two threads inside the drain are the same thread, and it owns the arena. */
  lemma OneConsumer(s: State, z: Setup, run: seq<Action>, t: int, u: int)
    requires Init(s, z) && Runs(s, z, run)
    ensures var n := After(s, z, run);
            && (!PcOf(n, t).Away? && !PcOf(n, u).Away? ==> t == u && A.OwnerOf(n.slots, z.seat) == t)
            && (!n.ring.consumer.Away? <==> exists v: int :: !PcOf(n, v).Away?)
  {
    A.InitInv(s.slots, z.max);
    assert Inv(s, z);
    RunKeeps(s, z, run);
    var n := After(s, z, run);
    hide A.Inv, A.Drains;
    if !PcOf(n, t).Away? && !PcOf(n, u).Away? {
      Alone(n, z, t, u);
    }
    if v: int :| !PcOf(n, v).Away? {
      assert DrainerOk(n, z, v);
    }
  }

  /**
   Over every joint run the ring goes through a run with one consumer, and its invariant holds if it has
   two cells or more, unless a thread dies between handing a cell back and advancing the head.
   */
  lemma RingSafe(s: State, z: Setup, run: seq<Action>)
    requires Init(s, z) && z.k > 0 && Runs(s, z, run) && GentleRun(s, z, run)
    ensures S.Inv(After(s, z, run).ring, z.k)
    ensures R.Runs(s.ring, z.k, RingRun(s, z, run)) && After(s, z, run).ring == R.After(s.ring, z.k, RingRun(s, z, run))
  {
    A.InitInv(s.slots, z.max);
    assert Inv(s, z);
    RunRefines(s, z, run);
    S.InitInv(s.ring, z.k);
    S.RunKeeps(s.ring, z.k, RingRun(s, z, run));
  }

  /** Whatever the threads do, a stuck ring yields nothing. */
  lemma {:induction false} StuckOn(s: State, z: Setup, run: seq<Action>)
    requires Inv(s, z) && Runs(s, z, run) && D.Stuck(s.ring, z.k)
    ensures D.Stuck(After(s, z, run).ring, z.k) && After(s, z, run).ring.popped == s.ring.popped
    decreases |run|
  {
    hide Inv, Enabled, Apply, RingStep, R.Apply, R.Enabled, D.Stuck;
    if run != [] {
      StepKeeps(s, z, run[0]);
      StepRefines(s, z, run[0]);
      D.StuckForGood(s.ring, z.k, RingStep(s, run[0]));
      StuckOn(Apply(s, z, run[0]), z, run[1..]);
    }
  }

  /** A death there, after any gentle run, breaks the ring's invariant: it is stuck in every run that follows. */
  lemma RingSticks(s: State, z: Setup, run: seq<Action>, t: int, rest: seq<Action>)
    requires Init(s, z) && z.k > 0 && Runs(s, z, run) && GentleRun(s, z, run)
    requires PcOf(After(s, z, run), t).Vacated?
    requires Runs(Apply(After(s, z, run), z, Slot(A.Die(t))), z, rest)
    ensures Enabled(After(s, z, run), z, Slot(A.Die(t)))
    ensures var m := Apply(After(s, z, run), z, Slot(A.Die(t)));
            && !S.Inv(m.ring, z.k) && D.Stuck(m.ring, z.k)
            && After(m, z, rest).ring.popped == m.ring.popped && D.Stuck(After(m, z, rest).ring, z.k)
  {
    A.InitInv(s.slots, z.max);
    assert Inv(s, z);
    RunKeeps(s, z, run);
    RingSafe(s, z, run);
    var n := After(s, z, run);
    hide A.Inv, A.Drains, S.Inv, D.Stuck, A.Apply;
    Alone(n, z, t, t);
    DrainerLives(n, z, t);
    S.AbandonExact(n.ring, z.k);
    D.DeathSticks(n.ring, z.k);
    StepKeeps(n, z, Slot(A.Die(t)));
    StuckOn(Apply(n, z, Slot(A.Die(t))), z, rest);
  }

  // ---- a use of the arena with nobody else about ----

  /** The owner's steps through a drain. */
  function Drains(t: int, lefts: seq<R.Node>): seq<Action>
  {
    if lefts == [] then [] else [Drain(t, lefts[0])] + Drains(t, lefts[1..])
  }

  /** As long as the ring's drain goes on, so does the thread's, and the owner words stay. */
  lemma {:induction false} DrainsJoint(s: State, z: Setup, t: int, lefts: seq<R.Node>)
    requires PcOf(s, t) == s.ring.consumer && R.Runs(s.ring, z.k, E.Drains(lefts))
    ensures Runs(s, z, Drains(t, lefts))
    ensures var n := After(s, z, Drains(t, lefts));
            && n.slots == s.slots && n.ring == R.After(s.ring, z.k, E.Drains(lefts)) && PcOf(n, t) == n.ring.consumer
    decreases |lefts|
  {
    if lefts != [] {
      var a, rest := Drain(t, lefts[0]), Drains(t, lefts[1..]);
      S.RunCons(s.ring, z.k, R.Drain(lefts[0]), E.Drains(lefts[1..]));
      var m := Apply(s, z, a);
      assert m.ring == R.Apply(s.ring, z.k, R.Drain(lefts[0]));
      hide R.DrainStep;
      DrainsJoint(m, z, t, lefts[1..]);
      Cons(s, z, a, rest);
    }
  }

  lemma Cons(s: State, z: Setup, a: Action, rest: seq<Action>)
    ensures After(s, z, [a] + rest) == After(Apply(s, z, a), z, rest)
    ensures Runs(s, z, [a] + rest) <==> Enabled(s, z, a) && Runs(Apply(s, z, a), z, rest)
  {
    assert ([a] + rest)[1..] == rest;
  }

  lemma {:induction false} Join(s: State, z: Setup, a: seq<Action>, b: seq<Action>)
    ensures After(s, z, a + b) == After(After(s, z, a), z, b)
    ensures Runs(s, z, a + b) <==> Runs(s, z, a) && Runs(After(s, z, a), z, b)
    decreases |a|
  {
    hide Apply, Enabled;
    if a == [] {
      assert a + b == b;
    } else {
      Join(Apply(s, z, a[0]), z, a[1..], b);
      assert (a + b)[1..] == a[1..] + b;
    }
  }

  /**
   A thread that uses its arena while no push is under way empties its ring and its stack: every block
   handed over by then is released. It is left with the arena, and the owner words are as they were.
   */
  lemma UseEmpties(s: State, z: Setup, t: int, lefts: seq<R.Node>)
    requires Inv(s, z) && z.k > 0 && S.Inv(s.ring, z.k) && s.ring.consumer.Away? && |lefts| == E.DrainCost(s.ring)
    requires forall p: nat :: R.Of(s.ring.producers, p).Ready?
    requires A.Alive(s.slots, t) && A.Of(s.slots, t).pc.Idle? && A.Of(s.slots, t).tls == A.Some(z.seat)
    ensures var run := [Slot(A.Call(t)), Enter(t)] + Drains(t, lefts) + [Slot(A.Go(t, false))]; var n := After(s, z, run);
            && Runs(s, z, run) && n.slots == s.slots && PcOf(n, t).Away?
            && n.ring.tail == n.ring.head && n.ring.top == L.NIL
            && n.ring.out == s.ring.out + S.Payloads(s.ring.jobs, E.RingIds(s.ring)) + S.Payloads(s.ring.jobs, E.Reversed(s.ring.stack))
  {
    hide Inv, S.Inv, S.Payloads, E.RingIds, E.Reversed, E.DrainCost, Apply, Enabled, A.Apply, A.Drains, R.Apply, R.Enabled;
    NobodyDrains(s, z, t);
    E.DrainEmpties(s.ring, z.k, lefts);
    S.RunCons(s.ring, z.k, R.BeginDrain, E.Drains(lefts));
    var s1 := CallOn(s, z, t);
    var s2 := EnterOn(s1, z, t);
    DrainsJoint(s2, z, t, lefts);
    var n := GoOn(After(s2, z, Drains(t, lefts)), z, t);
    UseChain(s, z, Slot(A.Call(t)), s1, Enter(t), s2, Drains(t, lefts), Slot(A.Go(t, false)), n);
  }

  lemma UseChain(s: State, z: Setup, a: Action, s1: State, b: Action, s2: State, rest: seq<Action>, c: Action, n: State)
    requires Enabled(s, z, a) && s1 == Apply(s, z, a) && Enabled(s1, z, b) && s2 == Apply(s1, z, b) && Runs(s2, z, rest)
    requires Enabled(After(s2, z, rest), z, c) && n == Apply(After(s2, z, rest), z, c)
    ensures Runs(s, z, [a, b] + rest + [c]) && After(s, z, [a, b] + rest + [c]) == n
  {
    hide Apply, Enabled;
    Cons(After(s2, z, rest), z, c, []);
    assert [c] + [] == [c];
    Join(s2, z, rest, [c]);
    Cons(s1, z, b, rest + [c]);
    Cons(s, z, a, [b] + (rest + [c]));
    assert [a, b] + rest + [c] == [a] + ([b] + (rest + [c]));
  }

  lemma CallOn(s: State, z: Setup, t: int) returns (n: State)
    requires A.Alive(s.slots, t) && A.Of(s.slots, t).pc.Idle? && A.Of(s.slots, t).tls == A.Some(z.seat)
    ensures Enabled(s, z, Slot(A.Call(t))) && n == Apply(s, z, Slot(A.Call(t)))
    ensures n.ring == s.ring && n.pcs == s.pcs && A.Drains(n.slots, t, z.seat)
    ensures A.Enabled(n.slots, A.Go(t, false)) && A.Apply(n.slots, z.max, z.pid, A.Go(t, false)) == s.slots
  {
    n := Apply(s, z, Slot(A.Call(t)));
  }

  lemma EnterOn(s: State, z: Setup, t: int) returns (n: State)
    requires A.Drains(s.slots, t, z.seat) && PcOf(s, t).Away?
    ensures Enabled(s, z, Enter(t)) && n == Apply(s, z, Enter(t))
    ensures n.slots == s.slots && n.ring == R.Apply(s.ring, z.k, R.BeginDrain) && PcOf(n, t) == n.ring.consumer
  {
    hide A.Drains;
    n := Apply(s, z, Enter(t));
  }

  lemma GoOn(s: State, z: Setup, t: int) returns (n: State)
    requires A.Enabled(s.slots, A.Go(t, false)) && PcOf(s, t).Away?
    ensures Enabled(s, z, Slot(A.Go(t, false))) && n == Apply(s, z, Slot(A.Go(t, false)))
    ensures n.slots == A.Apply(s.slots, z.max, z.pid, A.Go(t, false)) && n.ring == s.ring && n.pcs == s.pcs
  {
    hide A.Apply, A.Enabled;
    n := Apply(s, z, Slot(A.Go(t, false)));
  }

  lemma NobodyDrains(s: State, z: Setup, t: int)
    requires Inv(s, z) && s.ring.consumer.Away?
    ensures PcOf(s, t).Away?
  {
    assert DrainerOk(s, z, t);
  }
}
