/**
 Owners that die inside a drain. A dead owner's blocks are lost, and no others, unless it dies between
 handing a cell back and advancing the head: then nothing comes out of the ring any more.
 */
module RemoteFreeDeaths {
  import opened Powers
  import opened FreeList
  import opened RingIndex
  import opened RemoteFree
  import opened RemoteFreeRing
  import opened RemoteFreeStack
  import opened RemoteFreeSafety

  // ---- lost blocks ----

  lemma {:induction false} LossStays(s: State, k: nat, run: seq<Action>)
    ensures s.lost <= After(s, k, run).lost
    decreases |run|
  {
    hide Apply;
    if run != [] {
      var n := Apply(s, k, run[0]);
      OneLoss(s, k, run[0]);
      LossStays(n, k, run[1..]);
    }
  }

  lemma OneLoss(s: State, k: nat, a: Action)
    ensures s.lost <= Apply(s, k, a).lost
  {
    hide CellAt, SetCell, LostPlaces, CutPlaces, Pow2;
  }

  /** A block that a dying owner had in its hand or detached is never released, in any run from there. */
  lemma LostForGood(s: State, k: nat, run: seq<Action>, h: nat)
    requires k > 0 && Inv(s, k) && !s.consumer.Away? && !s.consumer.Vacated?
    requires h in Known(s.consumer, s.cut) && Runs(Abandon(s), k, run)
    ensures var n := After(Abandon(s), k, run); h in n.lost && h !in n.done && Outstanding(n, h)
  {
    AbandonKeeps(s, k);
    LossStays(Abandon(s), k, run);
    var n := After(Abandon(s), k, run);
    RunKeeps(Abandon(s), k, run);
    assert h in Abandon(s).lost && Abandon(s).lost <= n.lost;
    EndKnown(n, k, h);
    PlaceTells(n, k, h);
    hide Inv;
  }

  lemma EndKnown(s: State, k: nat, h: nat)
    requires Inv(s, k) && h in s.lost
    ensures h < |s.jobs|
  {
    hide RingOk, StackOk, OwnerOk, PoppedOk, OutOk, Backed;
    var n: nat :| n < |s.lost| && s.lost[n] == h;
    assert Says(s.place, s.lost[n], Lost(n));
  }

  // ---- a ring that is stuck ----

  /** The head's cell has a number the owner never waits for, and nobody is about to write there. */
  ghost predicate Stuck(s: State, k: nat)
  {
    && s.head < s.tail && CellAt(s.cells, k, s.head).stamp != s.head + 1
    && !s.consumer.Ripe? && !s.consumer.Taken? && !s.consumer.Vacated?
    && forall p: nat :: Clears(Of(s.producers, p), s.head)
  }

  predicate Clears(x: Producer, head: nat)
  {
    x.Filling? || x.Filled? ==> x.at != head
  }

  /** The one place in a drain where a death breaks the ring. */
  lemma DeathSticks(s: State, k: nat)
    requires k > 0 && Inv(s, k) && s.consumer.Vacated?
    ensures Stuck(Abandon(s), k)
  {
    AheadOfHead(s, k);
    HeadTaken(s, k);
    forall p: nat
      ensures Clears(Of(s.producers, p), s.head)
    {
      Knows(s, k, p);
    }
    hide Inv;
  }

  lemma CellSet(cells: seq<Cell>, k: nat, i: nat, c: Cell, j: nat)
    ensures CellAt(SetCell(cells, k, i, c), k, j) == CellAt(cells, k, j)
         || (CellAt(SetCell(cells, k, i, c), k, j) == c && CellAt(cells, k, i) == CellAt(cells, k, j))
  {
  }

  /** No step of anyone frees a stuck ring, be it a new owner's, a producer's or another death. */
  lemma StuckStays(s: State, k: nat, a: Action)
    requires Stuck(s, k)
    ensures var n := Apply(s, k, a); Stuck(n, k) && n.head == s.head && n.popped == s.popped
  {
    hide CellAt, SetCell, CellOf, LostPlaces, CutPlaces, PushStep, Pow2;
    if a.Push? {
      PushStuck(s, k, a.p, a.spurious);
    } else if a.Begin? {
      assert forall q: nat :: q != a.p ==> Of(Apply(s, k, a).producers, q) == Of(s.producers, q);
    }
  }

  lemma PushStuck(s: State, k: nat, p: nat, spurious: bool)
    requires Stuck(s, k)
    ensures var n := PushStep(s, k, p, Of(s.producers, p), spurious);
            Stuck(n, k) && n.head == s.head && n.popped == s.popped
  {
    hide CellAt, SetCell, CellOf;
    var x := Of(s.producers, p);
    assert Clears(x, s.head);
    var n := PushStep(s, k, p, x, spurious);
    if x.Filling? {
      CellSet(s.cells, k, x.at, CellAt(s.cells, k, x.at).(load := JobAt(s.jobs, x.job)), s.head);
    } else if x.Filled? {
      CellSet(s.cells, k, x.at, CellAt(s.cells, k, x.at).(stamp := x.at + 1), s.head);
    }
    forall q: nat
      ensures Clears(Of(n.producers, q), s.head)
    {
      assert Clears(Of(s.producers, q), s.head);
    }
  }

  /** In every run from there, with any owners and any deaths, nothing is popped again. */
  lemma {:induction false} StuckForGood(s: State, k: nat, run: seq<Action>)
    requires Stuck(s, k)
    ensures var n := After(s, k, run); Stuck(n, k) && n.head == s.head && n.popped == s.popped
    decreases |run|
  {
    hide Stuck, Apply;
    if run != [] {
      StuckStays(s, k, run[0]);
      StuckForGood(Apply(s, k, run[0]), k, run[1..]);
    }
  }

  // ---- runs in which an owner dies ----

  /** Thread 0 begins a push, with nobody else about, and reserves cell 0. */
  lemma FirstReserve(s: State, k: nat, load: Payload) returns (run: seq<Action>, n: State)
    requires Init(s, k) && k > 0
    ensures Runs(s, k, run) && n == After(s, k, run) && n.consumer.Away? && n.head == 0 && n.log == [Entry(0, 0)]
    ensures n.producers == map[0 := Filling(0, 0)] && n.cells == s.cells && |s.cells| > 0 && s.cells[0].stamp == 0
    ensures n.jobs == [load] && n.popped == [] && n.lost == [] && n.cut == [] && n.out == []
  {
    SmallIndex(0, k);
    Pow2Mono(0, k);
    hide CellOf, Pow2;
    var go := Push(0, false);
    var s1 := Apply(s, k, Begin(0, load));
    var s2 := Apply(s1, k, go);
    var s3 := Apply(s2, k, go);
    n := Apply(s3, k, go);
    assert CellAt(s.cells, k, 0).stamp == 0;
    assert n.producers == map[0 := Filling(0, 0)];
    hide After, Runs, Apply;
    NoSteps(n, k);
    run := Before(s3, k, go, [], n);
    run := Before(s2, k, go, run, n);
    run := Before(s1, k, go, run, n);
    run := Before(s, k, Begin(0, load), run, n);
  }

  /** One push by thread 0 leaves its payload in cell 0. */
  lemma FirstPush(s: State, k: nat, load: Payload) returns (run: seq<Action>, n: State)
    requires Init(s, k) && k > 0
    ensures Runs(s, k, run) && n == After(s, k, run) && n.consumer.Away? && n.head == 0 && n.log == [Entry(0, 0)]
    ensures n.jobs == [load] && n.popped == [] && n.lost == [] && n.cut == [] && CellAt(n.cells, k, 0) == Cell(1, load)
    ensures n.out == []
  {
    var first, m := FirstReserve(s, k, load);
    SmallIndex(0, k);
    hide CellOf, Pow2;
    var go := Push(0, false);
    var s1 := Apply(m, k, go);
    n := Apply(s1, k, go);
    hide After, Runs, Apply;
    NoSteps(n, k);
    var rest := Before(s1, k, go, [], n);
    rest := Before(m, k, go, rest, n);
    RunAppend(s, k, first, rest);
    run := first + rest;
  }

  /** One block is pushed and popped; its owner is about to advance the head. */
  lemma FirstPop(s: State, k: nat, load: Payload) returns (run: seq<Action>, n: State)
    requires Init(s, k) && k > 0
    ensures Runs(s, k, run) && n == After(s, k, run) && n.consumer == Vacated(0, load) && n.lost == [] && n.cut == []
    ensures n.out == []
  {
    var first, m := FirstPush(s, k, load);
    SmallIndex(0, k);
    hide CellOf, Pow2;
    var go := Drain(Node(0, NIL));
    var s1 := Apply(m, k, BeginDrain);
    var s2 := Apply(s1, k, go);
    var s3 := Apply(s2, k, go);
    n := Apply(s3, k, go);
    hide After, Runs, Apply;
    NoSteps(n, k);
    var rest: seq<Action> := [];
    rest := Before(s3, k, go, rest, n);
    rest := Before(s2, k, go, rest, n);
    rest := Before(s1, k, go, rest, n);
    rest := Before(m, k, BeginDrain, rest, n);
    RunAppend(s, k, first, rest);
    run := first + rest;
  }

  /** A reachable state in which a death sticks the ring: nothing comes out of it in any run that follows. */
  lemma StuckRun(s: State, k: nat, load: Payload) returns (run: seq<Action>, n: State)
    requires Init(s, k) && k > 0
    ensures Runs(s, k, run) && n == After(s, k, run) && n.consumer.Vacated? && Stuck(Abandon(n), k)
  {
    run, n := FirstPop(s, k, load);
    InitInv(s, k);
    RunKeeps(s, k, run);
    DeathSticks(n, k);
  }

  /** A run in which an owner dies with a block in its hand: the block is lost. */
  lemma LossRun(s: State, k: nat, load: Payload) returns (run: seq<Action>)
    requires Init(s, k) && k > 0
    ensures Runs(s, k, run) && After(s, k, run).lost == [0] && After(s, k, run).out == []
  {
    var first, m := FirstPop(s, k, load);
    var s1 := Apply(m, k, Drain(Node(0, NIL)));
    var n := Apply(s1, k, OwnerDies);
    assert n.lost == [0];
    hide After, Runs, Apply;
    NoSteps(n, k);
    var rest := Before(s1, k, OwnerDies, [], n);
    rest := Before(m, k, Drain(Node(0, NIL)), rest, n);
    RunAppend(s, k, first, rest);
    run := first + rest;
  }
}
