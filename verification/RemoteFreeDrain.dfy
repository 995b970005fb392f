/** What a whole push and a whole drain achieve. */
module RemoteFreeDrain {
  import opened Powers
  import opened FreeList
  import opened RingIndex
  import opened RemoteFree
  import opened RemoteFreeRing
  import opened RemoteFreeStack
  import opened RemoteFreeSafety

  // ---- a drain with nobody else about ----

  function Reversed(ids: seq<nat>): (r: seq<nat>)
    ensures |r| == |ids|
  {
    if ids == [] then [] else [ids[|ids| - 1]] + Reversed(ids[..|ids| - 1])
  }

  /** The jobs in the ring from the front on, in the order of their reservations. */
  function RingIds(s: State): seq<nat>
  {
    JobsOf(s.log, Front(s), s.tail)
  }

  function JobsOf(log: seq<Entry>, lo: nat, hi: nat): (r: seq<nat>)
    ensures lo <= hi <= |log| ==> |r| == hi - lo
    ensures lo >= hi ==> r == []
    decreases hi - lo
  {
    if lo < hi <= |log| then [log[lo].job] + JobsOf(log, lo + 1, hi) else []
  }

  ghost function HandIds(c: Consumer): seq<nat>
  {
    if c.Vacated? || c.Holding? then [c.job] else []
  }

  /** The jobs a drain is yet to release, in the order in which it will: hand, ring, detached blocks, stack. */
  ghost function Due(s: State): seq<nat>
  {
    HandIds(s.consumer) + RingIds(s) + Reversed(s.cut) + Reversed(s.stack)
  }

  /** No push is under way, and the owner has left the ring only when it was empty. */
  ghost predicate Quiet(s: State)
  {
    && (forall p: nat :: Of(s.producers, p).Ready?)
    && (s.consumer.RingDone? || s.consumer.Swapping? || s.consumer.Walking? || s.consumer.Fetched? ==> s.head == s.tail)
    && (s.consumer.Walking? || s.consumer.Fetched? ==> s.stack == [])
    && (s.consumer.Swapping? ==> s.stack != [])
  }

  /** The steps from the empty ring to the end of the drain, with n blocks stacked. */
  function StackCost(n: nat): nat
  {
    if n == 0 then 1 else 2 * n + 3
  }

  /** The steps a quiet drain has still to take. */
  ghost function Left(s: State): nat
  {
    var n := |RingIds(s)|;
    match s.consumer
    case Away => 0
    case Popping => 5 * n + 1 + StackCost(|s.stack|)
    case Ripe => 5 * n + StackCost(|s.stack|)
    case Taken(_, _) => if n > 0 then 5 * n - 1 + StackCost(|s.stack|) else 1
    case Vacated(_, _) => 5 * n + 3 + StackCost(|s.stack|)
    case Holding(_, _) => 5 * n + 2 + StackCost(|s.stack|)
    case RingDone => StackCost(|s.stack|)
    case Swapping => 2 * |s.stack| + 2
    case Walking(_) => 2 * |s.cut| + 1
    case Fetched(_, _, _) => if |s.cut| > 0 then 2 * |s.cut| else 1
  }

  /** With every push finished, the head's cell is published exactly if the ring is not empty. */
  lemma HeadReady(s: State, k: nat)
    requires k > 0 && Inv(s, k) && !s.consumer.Vacated? && forall p: nat :: Of(s.producers, p).Ready?
    ensures CellAt(s.cells, k, s.head).stamp == s.head + 1 <==> s.head < s.tail
    ensures s.head <= s.tail == |s.log|
  {
    hide PlaceOk, StackOk, OwnerOk, PoppedOk, OutOk, ApartOk;
    Pow2Mono(0, k);
    hide CellAt, Pow2;
    if s.head < s.tail {
      assert EntryOk(CellAt(s.cells, k, s.head), s.log[s.head], s.head, s.jobs, Of(s.producers, s.log[s.head].who));
    } else {
      assert CellAt(s.cells, k, s.head).stamp == s.head;
    }
  }

  /** What a step of a quiet drain leaves to do. */
  ghost predicate Onward(s: State, n: State)
  {
    && Quiet(n) && n.done + Due(n) == s.done + Due(s) && Left(n) + 1 == Left(s)
    && n.jobs == s.jobs && n.lost == s.lost && n.tail == s.tail
    && (n.consumer.Away? ==> n.head == n.tail && n.stack == [] && n.cut == [])
  }

  lemma RingStep(s: State, k: nat, left: Node)
    requires k > 0 && Inv(s, k) && Quiet(s) && (s.consumer.Popping? || s.consumer.Ripe? || s.consumer.Vacated?)
    ensures Onward(s, Apply(s, k, Drain(left)))
  {
    hide Inv, CellAt, SetCell, Reversed, StackCost, Pow2, JobsOf, Put;
    RingFacts(s, k);
    if s.consumer.Popping? {
      HeadReady(s, k);
    }
    var n := Apply(s, k, Drain(left));
    assert RingIds(n) == RingIds(s) && n.done == s.done;
    assert Due(n) == Due(s);
  }

  /** The head's job goes from the ring to the owner's hand. */
  lemma TakenStep(s: State, k: nat, left: Node)
    requires Inv(s, k) && Quiet(s) && s.consumer.Taken?
    ensures Onward(s, Apply(s, k, Drain(left)))
  {
    hide Inv, CellAt, SetCell, Reversed, StackCost, Pow2, Put;
    RingFacts(s, k);
    var n := Apply(s, k, Drain(left));
    assert RingIds(s) == [s.consumer.job] + RingIds(n);
    hide JobsOf;
    assert Due(n) == Due(s);
  }

  /** What the invariant says of the numbers a drain reads. */
  lemma RingFacts(s: State, k: nat)
    requires Inv(s, k)
    ensures Front(s) <= s.tail == |s.log|
    ensures s.consumer.Taken? || s.consumer.Ripe? ==> s.head < s.tail
    ensures s.consumer.Taken? || s.consumer.Vacated? ==> s.head < s.tail && s.consumer.job == s.log[s.head].job
    ensures !s.consumer.Walking? && !s.consumer.Fetched? ==> s.cut == []
  {
    hide PlaceOk, PoppedOk, OutOk, ApartOk, CellAt, EntryOk, ListOk;
  }

  lemma HoldStep(s: State, k: nat, left: Node)
    requires Inv(s, k) && Quiet(s) && s.consumer.Holding?
    ensures Onward(s, Apply(s, k, Drain(left)))
  {
    hide Inv, CellAt, SetCell, Reversed, StackCost, Pow2, JobsOf, Put;
    RingFacts(s, k);
    var n := Apply(s, k, Drain(left));
    assert RingIds(n) == RingIds(s) && n.done == s.done + [s.consumer.job];
    assert Due(s) == [s.consumer.job] + Due(n);
    assert s.done + Due(s) == n.done + Due(n);
  }

  lemma StackStep(s: State, k: nat, left: Node)
    requires Inv(s, k) && Quiet(s) && (s.consumer.RingDone? || s.consumer.Swapping? || s.consumer.Walking?)
    ensures Onward(s, Apply(s, k, Drain(left)))
  {
    hide Inv, CellAt, SetCell, Pow2, TopOf, CutPlaces, JobsOf;
    RingFacts(s, k);
    Walks(s, k);
    TopTells(s.jobs, s.stack);
    TopTells(s.jobs, s.cut);
    var n := Apply(s, k, Drain(left));
    assert RingIds(n) == RingIds(s);
  }

  lemma TopTells(jobs: seq<Payload>, ids: seq<nat>)
    ensures TopOf(jobs, ids) == NIL <==> ids == []
    ensures TopOf(jobs, ids) < 0 <==> ids == []
  {
  }

  lemma FetchStep(s: State, k: nat, left: Node)
    requires Inv(s, k) && Quiet(s) && s.consumer.Fetched?
    ensures Onward(s, Apply(s, k, Drain(left)))
  {
    hide Inv, CellAt, SetCell, Pow2, TopOf, JobsOf, Put, Reversed, StackCost;
    RingFacts(s, k);
    Walks(s, k);
    var n := Apply(s, k, Drain(left));
    assert RingIds(n) == RingIds(s) == [];
    ReversedLast(s.cut);
    ReversedNone();
    assert Due(s) == Reversed(s.cut) && Due(n) == Reversed(n.cut);
    assert n.done == s.done + [Last(s.cut)] && n.cut == ButLast(s.cut);
    assert s.done + Due(s) == n.done + Due(n);
  }

  lemma ReversedLast(ids: seq<nat>)
    ensures ids != [] ==> Reversed(ids) == [Last(ids)] + Reversed(ButLast(ids))
  {
  }

  lemma ReversedNone()
    ensures Reversed([]) == []
  {
  }

  /** Each step of a quiet drain is one step nearer to its end, and releases what is due next. */
  lemma DrainStepOn(s: State, k: nat, left: Node)
    requires k > 0 && Inv(s, k) && Quiet(s) && !s.consumer.Away?
    ensures Inv(Apply(s, k, Drain(left)), k) && Onward(s, Apply(s, k, Drain(left)))
  {
    hide Inv, Onward, Apply;
    StepKeeps(s, k, Drain(left));
    if s.consumer.Taken? {
      TakenStep(s, k, left);
    } else if s.consumer.Holding? {
      HoldStep(s, k, left);
    } else if s.consumer.Fetched? {
      FetchStep(s, k, left);
    } else if s.consumer.RingDone? || s.consumer.Swapping? || s.consumer.Walking? {
      StackStep(s, k, left);
    } else {
      RingStep(s, k, left);
    }
  }

  /** So many steps of the owner; what each released block is overwritten with is anyone's. */
  function Drains(lefts: seq<Node>): (r: seq<Action>)
    ensures |r| == |lefts|
  {
    if lefts == [] then [] else [Drain(lefts[0])] + Drains(lefts[1..])
  }

  lemma {:induction false} DrainOn(s: State, k: nat, lefts: seq<Node>)
    requires k > 0 && Inv(s, k) && Quiet(s) && |lefts| == Left(s)
    requires s.consumer.Away? ==> s.head == s.tail && s.stack == [] && s.cut == []
    ensures Runs(s, k, Drains(lefts))
    ensures var n := After(s, k, Drains(lefts));
            && Inv(n, k) && n.consumer.Away? && n.head == n.tail == s.tail && n.stack == [] && n.done == s.done + Due(s)
            && n.jobs == s.jobs && n.lost == s.lost
    decreases |lefts|
  {
    if s.consumer.Away? {
      assert Due(s) == [];
    } else {
      LeftPositive(s);
      var n := Apply(s, k, Drain(lefts[0]));
      DrainStepOn(s, k, lefts[0]);
      DrainOn(n, k, lefts[1..]);
      hide Inv, Apply, Due;
      RunCons(s, k, Drain(lefts[0]), Drains(lefts[1..]));
    }
  }

  lemma LeftPositive(s: State)
    requires !s.consumer.Away?
    ensures Left(s) > 0
  {
  }

  /** The number of steps of a whole drain. */
  function DrainCost(s: State): nat
  {
    5 * |RingIds(s)| + 1 + StackCost(|s.stack|)
  }

  /**
   A drain that nobody disturbs comes to its end, after a number of steps known beforehand. It leaves ring
   and stack empty, and has released, once each and at the size they were pushed with, the blocks of the
   ring in the order of their reservations and then those of the stack from the top.
   */
  lemma DrainEmpties(s: State, k: nat, lefts: seq<Node>)
    requires k > 0 && Inv(s, k) && s.consumer.Away? && forall p: nat :: Of(s.producers, p).Ready?
    requires |lefts| == DrainCost(s)
    ensures Runs(s, k, [BeginDrain] + Drains(lefts))
    ensures var n := After(s, k, [BeginDrain] + Drains(lefts));
            && n.consumer.Away? && n.tail == n.head && n.top == NIL
            && n.out == s.out + Payloads(s.jobs, RingIds(s)) + Payloads(s.jobs, Reversed(s.stack))
            && n.jobs == s.jobs && n.lost == s.lost && Inv(n, k)
  {
    hide Inv, JobsOf, Payloads, Reversed, StackCost, Apply;
    RingFacts(s, k);
    Began(s, k);
    var m := Apply(s, k, BeginDrain);
    StepKeeps(s, k, BeginDrain);
    DrainOn(m, k, lefts);
    RunCons(s, k, BeginDrain, Drains(lefts));
    var n := After(m, k, Drains(lefts));
    Walks(n, k);
    OutIs(s, k);
    OutIs(n, k);
    PayloadsAdd(s.jobs, s.done, RingIds(s));
    PayloadsAdd(s.jobs, s.done + RingIds(s), Reversed(s.stack));
    assert n.done == s.done + RingIds(s) + Reversed(s.stack);
  }

  lemma Began(s: State, k: nat)
    requires s.consumer.Away? && s.cut == [] && s.head <= s.tail == |s.log| && forall p: nat :: Of(s.producers, p).Ready?
    ensures var m := Apply(s, k, BeginDrain);
            && Quiet(m) && !m.consumer.Away? && Left(m) == DrainCost(s) && Due(m) == RingIds(s) + Reversed(s.stack)
            && m.done == s.done && m.jobs == s.jobs && m.lost == s.lost && m.tail == s.tail
  {
    hide JobsOf, StackCost;
    ReversedNone();
    hide Reversed;
    assert RingIds(Apply(s, k, BeginDrain)) == RingIds(s);
  }

  lemma OutIs(s: State, k: nat)
    requires Inv(s, k)
    ensures s.out == Payloads(s.jobs, s.done)
  {
    hide RingOk, StackOk, OwnerOk, PoppedOk, PlaceOk, ApartOk;
  }

  lemma PayloadsAdd(jobs: seq<Payload>, a: seq<nat>, b: seq<nat>)
    ensures Payloads(jobs, a + b) == Payloads(jobs, a) + Payloads(jobs, b)
  {
  }

  // ---- a push with nobody else about ----

  /** The steps of a push, apart from its beginning. */
  function PushSteps(s: State, k: nat): nat
  {
    if s.tail < Front(s) + Pow2(k) then 5 else 6
  }

  /**
   A push that nobody disturbs comes to its end: the job is published in the next cell if one is free, and
   is otherwise the new top of the stack.
   */
  lemma PushCompletes(s: State, k: nat, p: nat, load: Payload)
    requires k > 0 && Inv(s, k) && Enabled(s, Begin(p, load))
    ensures var run := [Begin(p, load)] + Pushes(p, PushSteps(s, k)); var n := After(s, k, run);
            Runs(s, k, run) && Of(n.producers, p).Ready? && Pushed(s, n, k, load)
  {
    hide Pow2, RingOk, StackOk, PlaceOk, OwnerOk, PoppedOk, OutOk, ApartOk, CellAt, PushStep;
    var s1 := Apply(s, k, Begin(p, load));
    var s2 := Apply(s1, k, Push(p, false));
    RingSizes(s, k);
    LoadsTail(s1, k, p);
    NextCell(s, k);
    var n, rest := PushEnds(s2, k, p, |s.jobs|, s.tail < Front(s) + Pow2(k));
    hide Apply, Inv;
    rest := Before(s1, k, Push(p, false), rest, n);
    rest := Before(s, k, Begin(p, load), rest, n);
    assert Pushes(p, PushSteps(s, k)) == [Push(p, false)] + Pushes(p, PushSteps(s, k) - 1);
  }

  /** The pushed job is in the next cell, or on top of the stack; nothing else of the two has changed. */
  ghost predicate Pushed(s: State, n: State, k: nat, load: Payload)
  {
    && n.jobs == s.jobs + [load] && n.consumer == s.consumer && n.head == s.head && n.done == s.done
    && if s.tail < Front(s) + Pow2(k) then
         && n.tail == |n.log| == s.tail + 1 && s.log <= n.log && n.log[s.tail].job == |s.jobs|
         && CellAt(n.cells, k, s.tail) == Cell(s.tail + 1, load) && n.stack == s.stack && n.top == s.top
       else n.tail == s.tail && n.log == s.log && n.cells == s.cells && n.stack == s.stack + [|s.jobs|] && n.top == load.ptr
  }

  lemma RingSizes(s: State, k: nat)
    requires Inv(s, k)
    ensures |s.cells| == Pow2(k) && |s.log| == s.tail <= Front(s) + Pow2(k)
  {
    hide StackOk, PlaceOk, OwnerOk, PoppedOk, OutOk, ApartOk;
  }

  lemma LoadsTail(s: State, k: nat, p: nat)
    requires Of(s.producers, p).Begun?
    ensures Apply(s, k, Push(p, false)) == Move(s, p, Loaded(Of(s.producers, p).job, s.tail))
  {
  }

  /** The cell at the tail is free exactly if not every cell is outstanding. */
  lemma NextCell(s: State, k: nat)
    requires k > 0 && Inv(s, k)
    ensures if s.tail < Front(s) + Pow2(k) then CellAt(s.cells, k, s.tail).stamp == s.tail else CellAt(s.cells, k, s.tail).stamp < s.tail
  {
    hide StackOk, PlaceOk, OwnerOk, PoppedOk, OutOk, ApartOk;
    StampTells(k, s.cells, Front(s), s.tail, s.log, s.jobs, s.producers, s.tail);
  }

  /** From the loaded tail on, to a free cell or to the stack. */
  lemma PushEnds(s: State, k: nat, p: nat, h: nat, free: bool) returns (n: State, run: seq<Action>)
    requires Of(s.producers, p) == Loaded(h, s.tail) && h < |s.jobs| && |s.cells| == Pow2(k) && |s.log| == s.tail
    requires if free then CellAt(s.cells, k, s.tail).stamp == s.tail else CellAt(s.cells, k, s.tail).stamp < s.tail
    ensures run == Pushes(p, if free then 4 else 5) && Runs(s, k, run) && n == After(s, k, run) && Of(n.producers, p).Ready?
    ensures n.jobs == s.jobs && n.consumer == s.consumer && n.head == s.head && n.done == s.done
    ensures if free then
              && n.tail == s.tail + 1 && n.log == s.log + [Entry(h, p)] && n.stack == s.stack && n.top == s.top
              && CellAt(n.cells, k, s.tail) == Cell(s.tail + 1, s.jobs[h])
            else n.tail == s.tail && n.log == s.log && n.cells == s.cells && n.stack == s.stack + [h] && n.top == s.jobs[h].ptr
  {
    hide Pow2, CellAt, SetCell, CellOf, Put;
    var go := Push(p, false);
    var s1 := Apply(s, k, go);
    var s2 := Apply(s1, k, go);
    var s3 := Apply(s2, k, go);
    var s4 := Apply(s3, k, go);
    if free {
      n := s4;
      SetCellAt(s2.cells, k, s.tail, CellAt(s2.cells, k, s.tail).(load := s.jobs[h]), s.tail);
      SetCellAt(s3.cells, k, s.tail, CellAt(s3.cells, k, s.tail).(stamp := s.tail + 1), s.tail);
      assert Of(s3.producers, p) == Filled(h, s.tail);
      hide Apply;
      NoSteps(n, k);
      run := [];
    } else {
      assert Of(s4.producers, p) == Linked(h, s.top) && s4.top == s.top;
      n := Apply(s4, k, go);
      hide Apply;
      NoSteps(n, k);
      run := Before(s4, k, go, [], n);
    }
    run := Before(s3, k, go, run, n);
    run := Before(s2, k, go, run, n);
    run := Before(s1, k, go, run, n);
    run := Before(s, k, go, run, n);
    FivePushes(p);
  }

  lemma FivePushes(p: nat)
    ensures Pushes(p, 4) == [Push(p, false), Push(p, false), Push(p, false), Push(p, false)]
    ensures Pushes(p, 5) == [Push(p, false)] + Pushes(p, 4)
  {
    assert Pushes(p, 1) == [Push(p, false)];
    assert Pushes(p, 2) == [Push(p, false)] + Pushes(p, 1);
    assert Pushes(p, 3) == [Push(p, false)] + Pushes(p, 2);
    assert Pushes(p, 4) == [Push(p, false)] + Pushes(p, 3);
  }

  // ---- a drain with everybody about ----

  /** Which of the jobs in the ring below index `upto`, and on the stack, are still to be released, and where they are. */
  ghost predicate Serving(s: State, k: nat, from: nat, upto: nat, ids: set<nat>)
  {
    && upto <= |s.log|
    && (forall i: nat :: from <= i < upto ==> i >= Front(s) || s.log[i].job in s.done || s.log[i].job in HandIds(s.consumer))
    && (forall i: nat :: Front(s) <= i < upto ==> CellAt(s.cells, k, i).stamp == i + 1)
    && (PastRing(s.consumer) ==> upto <= Front(s))
    && forall h: nat :: h in ids ==> StackServed(s, h)
  }

  predicate PastRing(c: Consumer)
  {
    c.RingDone? || c.Swapping? || c.Walking? || c.Fetched? || c.Away?
  }

  /** A block that was stacked is released, or on the stack with the owner not past it, or detached with the owner at it. */
  predicate StackServed(s: State, h: nat)
  {
    h in s.done || (if s.consumer.Walking? || s.consumer.Fetched? then h in s.cut else !s.consumer.Away? && h in s.stack)
  }

  /** The pushes published without a gap before them. */
  ghost predicate Published(s: State, k: nat, upto: nat)
  {
    s.head <= upto <= s.tail && forall i: nat :: s.head <= i < upto ==> CellAt(s.cells, k, i).stamp == i + 1
  }

  lemma ServingBegins(s: State, k: nat, upto: nat, ids: set<nat>)
    requires Inv(s, k) && s.consumer.Away? && Published(s, k, upto) && forall h :: h in ids ==> h in s.stack
    ensures Serving(Apply(s, k, BeginDrain), k, s.head, upto, ids)
  {
    RingFacts(s, k);
    hide Inv, CellAt;
  }

  /** No push disturbs what a drain has begun to serve. */
  lemma PushServes(s: State, k: nat, p: nat, spurious: bool, from: nat, upto: nat, ids: set<nat>)
    requires k > 0 && Inv(s, k) && Serving(s, k, from, upto, ids) && !Of(s.producers, p).Ready?
    ensures Serving(Apply(s, k, Push(p, spurious)), k, from, upto, ids)
  {
    hide Inv, CellAt, Apply;
    RingSizes(s, k);
    PushLeaves(s, k, p, spurious);
    var n := Apply(s, k, Push(p, spurious));
    forall i: nat | Front(n) <= i < upto
      ensures CellAt(n.cells, k, i).stamp == i + 1
    {
      OtherCell(s, k, p, spurious, i);
    }
    forall h: nat | h in ids
      ensures StackServed(n, h)
    {
      assert StackServed(s, h);
    }
  }

  /** What a push leaves alone, and that log and stack only grow. */
  lemma PushLeaves(s: State, k: nat, p: nat, spurious: bool)
    ensures var n := Apply(s, k, Push(p, spurious));
            && n.consumer == s.consumer && n.head == s.head && n.done == s.done && n.cut == s.cut
            && s.log <= n.log && s.stack <= n.stack
  {
    hide CellAt, SetCell, Put, Pow2;
  }

  /** A cell that is published is written by no push. */
  lemma OtherCell(s: State, k: nat, p: nat, spurious: bool, i: nat)
    requires k > 0 && Inv(s, k) && Front(s) <= i < s.tail && CellAt(s.cells, k, i).stamp == i + 1 && !Of(s.producers, p).Ready?
    ensures CellAt(Apply(s, k, Push(p, spurious)).cells, k, i) == CellAt(s.cells, k, i)
  {
    hide PlaceOk, StackOk, OwnerOk, PoppedOk, OutOk, ApartOk, Put, Pow2;
    var x := Of(s.producers, p);
    if x.Filling? || x.Filled? {
      FillerCell(s, k, p);
      assert ProducerOk(x, p, Front(s), s.tail, k, s.log);
      hide CellAt, SetCell;
      var c := if x.Filling? then CellAt(s.cells, k, x.at).(load := JobAt(s.jobs, x.job)) else CellAt(s.cells, k, x.at).(stamp := x.at + 1);
      SetCellAt(s.cells, k, x.at, c, i);
    }
  }

  /** The owner's own steps before it leaves the ring. */
  lemma RingServes(s: State, k: nat, left: Node, from: nat, upto: nat, ids: set<nat>)
    requires k > 0 && Inv(s, k) && Serving(s, k, from, upto, ids)
    requires s.consumer.Popping? || s.consumer.Ripe? || s.consumer.Taken? || s.consumer.Vacated? || s.consumer.Holding?
    ensures Serving(Apply(s, k, Drain(left)), k, from, upto, ids)
  {
    hide Inv, CellAt, SetCell, Put, Pow2;
    RingFacts(s, k);
    var n := Apply(s, k, Drain(left));
    forall i: nat | Front(n) <= i < upto
      ensures CellAt(n.cells, k, i).stamp == i + 1
    {
      if s.consumer.Taken? {
        HandedCell(s, k, i);
      }
    }
    forall h: nat | h in ids
      ensures StackServed(n, h)
    {
      assert StackServed(s, h);
    }
  }

  lemma HandedCell(s: State, k: nat, i: nat)
    requires Inv(s, k) && s.consumer.Taken? && s.head < i < s.tail
    ensures var c := CellAt(s.cells, k, s.head).(stamp := s.head + Pow2(k));
            CellAt(SetCell(s.cells, k, s.head, c), k, i) == CellAt(s.cells, k, i)
  {
    RingSizes(s, k);
    hide Inv, CellAt, SetCell, Pow2;
    SetCellAt(s.cells, k, s.head, CellAt(s.cells, k, s.head).(stamp := s.head + Pow2(k)), i);
  }

  /** And after. */
  lemma StackServes(s: State, k: nat, left: Node, from: nat, upto: nat, ids: set<nat>)
    requires Inv(s, k) && Serving(s, k, from, upto, ids)
    requires s.consumer.RingDone? || s.consumer.Swapping? || s.consumer.Walking? || s.consumer.Fetched?
    ensures Serving(Apply(s, k, Drain(left)), k, from, upto, ids)
  {
    hide Inv, CellAt, SetCell, Put, Pow2, TopOf;
    RingFacts(s, k);
    Walks(s, k);
    TopTells(s.jobs, s.stack);
    TopTells(s.jobs, s.cut);
    var n := Apply(s, k, Drain(left));
    forall h: nat | h in ids
      ensures StackServed(n, h)
    {
      assert StackServed(s, h);
      if s.consumer.Fetched? && h in s.cut {
        assert h == Last(s.cut) || h in ButLast(s.cut);
      }
    }
  }

  lemma StepServes(s: State, k: nat, a: Action, from: nat, upto: nat, ids: set<nat>)
    requires k > 0 && Inv(s, k) && Enabled(s, a) && Serving(s, k, from, upto, ids) && !a.OwnerDies?
    ensures Serving(Apply(s, k, a), k, from, upto, ids)
  {
    match a {
      case Begin(p, load) =>
        hide Inv, CellAt;
        assert forall h: nat :: StackServed(s, h) ==> StackServed(Apply(s, k, a), h);
      case Push(p, spurious) => PushServes(s, k, p, spurious, from, upto, ids);
      case BeginDrain =>
        hide Inv, CellAt;
        assert forall h: nat :: StackServed(s, h) ==> StackServed(Apply(s, k, a), h);
      case Drain(left) =>
        if s.consumer.RingDone? || s.consumer.Swapping? || s.consumer.Walking? || s.consumer.Fetched? {
          StackServes(s, k, left, from, upto, ids);
        } else {
          RingServes(s, k, left, from, upto, ids);
        }
      case ClientWrite(ptr, left) =>
        hide Inv, CellAt;
        assert forall h: nat :: StackServed(s, h) ==> StackServed(Apply(s, k, a), h);
    }
  }

  lemma {:induction false} RunServes(s: State, k: nat, run: seq<Action>, from: nat, upto: nat, ids: set<nat>)
    requires k > 0 && Inv(s, k) && Runs(s, k, run) && Serving(s, k, from, upto, ids)
    requires forall i :: 0 <= i < |run| ==> !run[i].OwnerDies?
    ensures Serving(After(s, k, run), k, from, upto, ids)
    decreases |run|
  {
    hide Inv, Serving, Apply, Enabled;
    if run != [] {
      StepServes(s, k, run[0], from, upto, ids);
      StepKeeps(s, k, run[0]);
      RunServes(Apply(s, k, run[0]), k, run[1..], from, upto, ids);
    }
  }

  lemma LogGrows(s: State, k: nat, a: Action)
    ensures s.log <= Apply(s, k, a).log
  {
    hide CellAt, SetCell, Put, Pow2;
  }

  lemma {:induction false} RunLogGrows(s: State, k: nat, run: seq<Action>)
    ensures s.log <= After(s, k, run).log
    decreases |run|
  {
    hide Apply;
    if run != [] {
      LogGrows(s, k, run[0]);
      RunLogGrows(Apply(s, k, run[0]), k, run[1..]);
    }
  }

  /**
   Whatever producers and clients do meanwhile, a drain that ends has released every push that was
   published before it began with no gap before it, and every block that was stacked then.
   */
  lemma DrainServes(s: State, k: nat, run: seq<Action>, upto: nat)
    requires k > 0 && Inv(s, k) && s.consumer.Away? && Published(s, k, upto) && Runs(s, k, [BeginDrain] + run)
    requires After(s, k, [BeginDrain] + run).consumer.Away? && forall i :: 0 <= i < |run| ==> !run[i].OwnerDies?
    ensures var n := After(s, k, [BeginDrain] + run);
            && |s.log| == s.tail
            && (forall i: nat :: s.head <= i < upto ==> s.log[i].job in n.done)
            && (forall h :: h in s.stack ==> h in n.done)
  {
    var ids := set h | h in s.stack;
    var m := Apply(s, k, BeginDrain);
    RingFacts(s, k);
    ServingBegins(s, k, upto, ids);
    StepKeeps(s, k, BeginDrain);
    hide Inv, CellAt, Apply;
    RunCons(s, k, BeginDrain, run);
    RunServes(m, k, run, s.head, upto, ids);
    RunLogGrows(m, k, run);
    LogGrows(s, k, BeginDrain);
    var n := After(m, k, run);
    forall h | h in s.stack
      ensures h in n.done
    {
      assert h in ids && StackServed(n, h);
    }
  }
}
