/** What holds at every moment of every run of the remote-free protocol. */
module RemoteFreeSafety {
  import opened Powers
  import opened FreeList
  import opened RingIndex
  import opened RemoteFree
  import opened RemoteFreeRing
  import opened RemoteFreeStack

  ghost predicate Inv(s: State, k: nat)
  {
    && RingOk(k, s.cells, Front(s), s.tail, s.log, s.jobs, s.producers)
    && OwnerOk(k, s.cells, s.head, s.tail, s.log, s.consumer, s.popped)
    && PoppedOk(s.popped, s.jobs, s.log)
    && StackOk(s.mem, s.jobs, s.top, s.stack, s.cut, s.producers, s.consumer)
    && PlaceOk(s.place, s.producers, s.consumer, Front(s), s.tail, s.log, s.stack, s.cut, s.done, s.lost)
    && ApartOk(s.jobs, s.place)
    && OutOk(s.jobs, s.done, s.out)
  }

  lemma InitInv(s: State, k: nat)
    requires Init(s, k)
    ensures Inv(s, k)
  {
    forall i: nat | i < Pow2(k)
      ensures CellAt(s.cells, k, i).stamp == i
    {
      SmallIndex(i, k);
    }
  }

  /** The job of a push in progress is an outstanding one. */
  lemma JobKnown(s: State, k: nat, p: nat)
    requires Inv(s, k) && !Of(s.producers, p).Ready?
    ensures Of(s.producers, p).job < |s.jobs| && Outstanding(s, Of(s.producers, p).job)
    ensures !Of(s.producers, p).Filling? && !Of(s.producers, p).Filled? ==> s.place[Of(s.producers, p).job] == With(p)
  {
    var x := Of(s.producers, p);
    hide StackOk, OwnerOk, PoppedOk, OutOk, EntryOk;
    if x.Filling? || x.Filled? {
      assert ProducerOk(x, p, Front(s), s.tail, k, s.log);
      assert Says(s.place, s.log[x.at].job, Slot(x.at));
    } else {
      assert Pushing(x, x.job);
      assert Says(s.place, x.job, With(p));
    }
  }

  // ---- each step keeps the invariant ----

  lemma BeginKeeps(s: State, k: nat, p: nat, load: Payload)
    requires Inv(s, k) && Enabled(s, Begin(p, load))
    ensures Inv(Apply(s, k, Begin(p, load)), k)
  {
    hide OwnerOk, PlaceOk, RingOk, StackOk, PoppedOk, OutOk;
    forall q: nat | !Of(s.producers, q).Ready?
      ensures Of(s.producers, q).job < |s.jobs|
    {
      JobKnown(s, k, q);
    }
    var x := Begun(|s.jobs|);
    RingJobs(k, s.cells, Front(s), s.tail, s.log, s.jobs, s.producers, load);
    RingMove(k, s.cells, Front(s), s.tail, s.log, s.jobs + [load], s.producers, p, x);
    StackJobs(s.mem, s.jobs, s.top, s.stack, s.cut, s.producers, s.consumer, load);
    StackMove(s.mem, s.jobs + [load], s.top, s.stack, s.cut, s.producers, s.consumer, p, x);
    PlaceBegin(s.place, s.producers, s.consumer, Front(s), s.tail, s.log, s.stack, s.cut, s.done, s.lost, p);
    ApartBegin(s.jobs, s.place, load, With(p));
    OutBegin(s.jobs, s.done, s.out, load);
    PoppedJobs(s.popped, s.jobs, s.log, load);
  }

  lemma PoppedJobs(popped: seq<Payload>, jobs: seq<Payload>, log: seq<Entry>, load: Payload)
    requires PoppedOk(popped, jobs, log)
    ensures PoppedOk(popped, jobs + [load], log)
  {
  }

  /** A push goes on inside its thread. */
  lemma MoveKeeps(s: State, k: nat, p: nat, x: Producer)
    requires Inv(s, k) && !Of(s.producers, p).Filling? && !Of(s.producers, p).Filled? && !Of(s.producers, p).Ready?
    requires !x.Filling? && !x.Filled? && !x.Ready? && x.job == Of(s.producers, p).job
    requires ProducerOk(x, p, Front(s), s.tail, k, s.log) && SpillOk(x, s.mem, s.jobs)
    ensures Inv(Move(s, p, x), k)
  {
    hide OwnerOk, PoppedOk, ApartOk, OutOk, PlaceOk, RingOk, StackOk;
    RingMove(k, s.cells, Front(s), s.tail, s.log, s.jobs, s.producers, p, x);
    StackMove(s.mem, s.jobs, s.top, s.stack, s.cut, s.producers, s.consumer, p, x);
    PlaceMove(s.place, s.producers, s.consumer, Front(s), s.tail, s.log, s.stack, s.cut, s.done, s.lost, p, x);
  }

  lemma ReserveKeeps(s: State, k: nat, p: nat, h: nat)
    requires Inv(s, k) && Of(s.producers, p) == Claiming(h, s.tail)
    ensures Inv(Apply(s, k, Push(p, false)), k)
  {
    hide OwnerOk, PoppedOk, ApartOk, OutOk, PlaceOk, RingOk, StackOk, Put;
    JobKnown(s, k, p);
    FrontBelow(s, k);
    ReserveRing(k, s.cells, Front(s), s.tail, s.log, s.jobs, s.producers, p, h);
    StackMove(s.mem, s.jobs, s.top, s.stack, s.cut, s.producers, s.consumer, p, Filling(h, s.tail));
    PlaceReserve(s.place, s.producers, s.consumer, Front(s), s.tail, s.log, s.stack, s.cut, s.done, s.lost, p, h);
    LogOwner(k, s.cells, s.head, s.tail, s.log, s.consumer, s.popped, Entry(h, p));
    PoppedLog(s.popped, s.jobs, s.log, Entry(h, p));
    ApartPut(s.jobs, s.place, h, Slot(s.tail));
  }

  lemma FrontBelow(s: State, k: nat)
    requires Inv(s, k)
    ensures Front(s) <= s.tail
  {
  }

  lemma PoppedLog(popped: seq<Payload>, jobs: seq<Payload>, log: seq<Entry>, e: Entry)
    requires PoppedOk(popped, jobs, log)
    ensures PoppedOk(popped, jobs, log + [e])
  {
  }

  /** Writing the payload, and storing the number that publishes it. */
  lemma WriteKeeps(s: State, k: nat, p: nat, x': Producer, c: Cell)
    requires Inv(s, k) && (Of(s.producers, p).Filling? || Of(s.producers, p).Filled?)
    requires var x := Of(s.producers, p);
             if x.Filling? then x' == Filled(x.job, x.at) && c == Cell(x.at, JobAt(s.jobs, x.job))
             else x' == Ready && c == Cell(x.at + 1, CellAt(s.cells, k, x.at).load)
    ensures Inv(Move(s, p, x').(cells := SetCell(s.cells, k, Of(s.producers, p).at, c)), k)
  {
    hide OwnerOk, PoppedOk, ApartOk, OutOk, PlaceOk, RingOk, StackOk, SetCell, CellAt, Pow2;
    var x := Of(s.producers, p);
    FillerCell(s, k, p);
    WriteRing(k, s.cells, Front(s), s.tail, s.log, s.jobs, s.producers, p, x.job, x.at, x', c);
    WriteOwner(k, s.cells, s.head, s.tail, s.log, s.consumer, s.popped, x.at, c);
    StackMove(s.mem, s.jobs, s.top, s.stack, s.cut, s.producers, s.consumer, p, x');
    PlaceMove(s.place, s.producers, s.consumer, Front(s), s.tail, s.log, s.stack, s.cut, s.done, s.lost, p, x');
  }

  lemma FillerCell(s: State, k: nat, p: nat)
    requires Inv(s, k) && (Of(s.producers, p).Filling? || Of(s.producers, p).Filled?)
    ensures var i := Of(s.producers, p).at;
            && CellAt(s.cells, k, i).stamp == i && |s.cells| == Pow2(k)
            && (!s.consumer.Vacated? ==> s.head <= i < s.head + Pow2(k))
  {
    hide PlaceOk, StackOk, PoppedOk, OutOk, ApartOk;
    var x := Of(s.producers, p);
    assert ProducerOk(x, p, Front(s), s.tail, k, s.log);
    assert EntryOk(CellAt(s.cells, k, x.at), s.log[x.at], x.at, s.jobs, Of(s.producers, s.log[x.at].who));
  }

  // ---- memory writes ----

  /** Jobs on the stack, on the detached list and in the threads' hands are outstanding. */
  lemma ListedKnown(s: State, k: nat, j: nat)
    requires Inv(s, k)
    ensures j < |s.stack| ==> Outstanding(s, s.stack[j]) && s.place[s.stack[j]] == Stacked(j)
    ensures j < |s.cut| ==> Outstanding(s, s.cut[j]) && s.place[s.cut[j]] == Cut(j)
  {
    hide RingOk, StackOk, OwnerOk, PoppedOk, OutOk, Backed;
    if j < |s.stack| {
      assert Says(s.place, s.stack[j], Stacked(j));
    }
    if j < |s.cut| {
      assert Says(s.place, s.cut[j], Cut(j));
    }
  }

  /** Nobody else's block is at the address of job h: not on a list, nor in the hands of a thread other than p. */
  lemma AloneThere(s: State, k: nat, h: nat, p: nat, cut: seq<nat>)
    requires Inv(s, k) && Outstanding(s, h) && cut <= s.cut
    requires match s.place[h]
             case With(q) => q == p
             case Hand => true
             case Cut(j) => j >= |cut|
             case _ => false
    ensures forall j: nat :: j < |s.stack| ==> PtrOf(s.jobs, s.stack[j]) != PtrOf(s.jobs, h)
    ensures forall j: nat :: j < |cut| ==> PtrOf(s.jobs, cut[j]) != PtrOf(s.jobs, h)
    ensures forall q: nat, g: nat :: q != p && Pushing(Of(s.producers, q), g) ==> PtrOf(s.jobs, g) != PtrOf(s.jobs, h)
  {
    forall j: nat | j < |s.stack|
      ensures PtrOf(s.jobs, s.stack[j]) != PtrOf(s.jobs, h)
    {
      ListedKnown(s, k, j);
      JobsApart(s, k, s.stack[j], h);
    }
    forall j: nat | j < |cut|
      ensures PtrOf(s.jobs, cut[j]) != PtrOf(s.jobs, h)
    {
      ListedKnown(s, k, j);
      assert cut[j] == s.cut[j];
      JobsApart(s, k, cut[j], h);
    }
    forall q: nat, g: nat | q != p && Pushing(Of(s.producers, q), g)
      ensures PtrOf(s.jobs, g) != PtrOf(s.jobs, h)
    {
      JobKnown(s, k, q);
      JobsApart(s, k, g, h);
    }
  }

  lemma JobsApart(s: State, k: nat, g: nat, h: nat)
    requires Inv(s, k) && Outstanding(s, g) && Outstanding(s, h) && g != h
    ensures PtrOf(s.jobs, g) != PtrOf(s.jobs, h)
  {
    hide RingOk, StackOk, OwnerOk, PoppedOk, OutOk, PlaceOk;
    if g < h {
      assert s.jobs[g].ptr != s.jobs[h].ptr;
    } else {
      assert s.jobs[h].ptr != s.jobs[g].ptr;
    }
  }

  /** A spilling push writes its own block's words. */
  lemma SpillKeeps(s: State, k: nat, p: nat, x': Producer, left: Node)
    requires Inv(s, k) && (Of(s.producers, p).Spilling? || Of(s.producers, p).Linking?) && (x'.Sized? || x'.Linked?)
    requires x'.job == Of(s.producers, p).job
    requires SpillOk(x', s.mem[PtrOf(s.jobs, x'.job) := left], s.jobs)
    ensures Inv(Move(s, p, x').(mem := s.mem[PtrOf(s.jobs, x'.job) := left]), k)
  {
    var h := x'.job;
    JobKnown(s, k, p);
    AloneThere(s, k, h, p, s.cut);
    hide OwnerOk, PoppedOk, ApartOk, OutOk, PlaceOk, RingOk, StackOk, SpillOk;
    RingMove(k, s.cells, Front(s), s.tail, s.log, s.jobs, s.producers, p, x');
    StackWrite(s.mem, s.jobs, s.top, s.stack, s.cut, s.producers, s.consumer, PtrOf(s.jobs, h), left, p, x');
    PlaceMove(s.place, s.producers, s.consumer, Front(s), s.tail, s.log, s.stack, s.cut, s.done, s.lost, p, x');
  }

  lemma ClientKeeps(s: State, k: nat, ptr: nat, left: Node)
    requires Inv(s, k) && Unclaimed(s, ptr)
    ensures Inv(s.(mem := s.mem[ptr := left]), k)
  {
    forall j: nat | j < |s.stack|
      ensures PtrOf(s.jobs, s.stack[j]) != ptr
    {
      ListedKnown(s, k, j);
    }
    forall j: nat | j < |s.cut|
      ensures PtrOf(s.jobs, s.cut[j]) != ptr
    {
      ListedKnown(s, k, j);
    }
    forall q: nat, g: nat | Pushing(Of(s.producers, q), g)
      ensures PtrOf(s.jobs, g) != ptr
    {
      JobKnown(s, k, q);
    }
    hide OwnerOk, PoppedOk, ApartOk, OutOk, PlaceOk, RingOk, Unclaimed;
    var mem' := s.mem[ptr := left];
    ListFrame(s.mem, mem', s.jobs, s.stack);
    ListFrame(s.mem, mem', s.jobs, s.cut);
    forall q: nat
      ensures SpillOk(Of(s.producers, q), mem', s.jobs)
    {
      assert SpillOk(Of(s.producers, q), s.mem, s.jobs);
      if !Of(s.producers, q).Ready? && !Of(s.producers, q).Filling? && !Of(s.producers, q).Filled? {
        assert Pushing(Of(s.producers, q), Of(s.producers, q).job);
      }
    }
  }

  lemma StackKeeps(s: State, k: nat, p: nat, h: nat)
    requires Inv(s, k) && Of(s.producers, p) == Linked(h, s.top)
    ensures Inv(Apply(s, k, Push(p, false)), k)
  {
    JobKnown(s, k, p);
    hide OwnerOk, PoppedOk, ApartOk, OutOk, PlaceOk, RingOk, StackOk, Put;
    RingMove(k, s.cells, Front(s), s.tail, s.log, s.jobs, s.producers, p, Ready);
    StackPush(s.mem, s.jobs, s.top, s.stack, s.cut, s.producers, s.consumer, p, h);
    PlaceStack(s.place, s.producers, s.consumer, Front(s), s.tail, s.log, s.stack, s.cut, s.done, s.lost, p, h);
    ApartPut(s.jobs, s.place, h, Stacked(|s.stack|));
  }

  /** Every step of every push. */
  lemma PushKeeps(s: State, k: nat, p: nat, spurious: bool)
    requires k > 0 && Inv(s, k) && !Of(s.producers, p).Ready?
    ensures Inv(Apply(s, k, Push(p, spurious)), k)
  {
    var x := Of(s.producers, p);
    hide PlaceOk, StackOk, RingOk, OwnerOk, PoppedOk, ApartOk, OutOk;
    Knows(s, k, p);
    match x {
      case Begun(h) => MoveKeeps(s, k, p, Loaded(h, s.tail));
      case Loaded(h, t) =>
        StampTells(k, s.cells, Front(s), s.tail, s.log, s.jobs, s.producers, t);
        var stamp := CellAt(s.cells, k, t).stamp;
        MoveKeeps(s, k, p, if stamp == t then Claiming(h, t) else if stamp < t then Spilling(h) else Begun(h));
      case Claiming(h, t) =>
        if s.tail == t && !spurious {
          ReserveKeeps(s, k, p, h);
        } else {
          MoveKeeps(s, k, p, Begun(h));
        }
      case Filling(h, t) =>
        FillerCell(s, k, p);
        WriteKeeps(s, k, p, Filled(h, t), CellAt(s.cells, k, t).(load := JobAt(s.jobs, h)));
      case Filled(h, t) =>
        WriteKeeps(s, k, p, Ready, CellAt(s.cells, k, t).(stamp := t + 1));
      case Spilling(h) =>
        var b := JobAt(s.jobs, h);
        SpillKeeps(s, k, p, Sized(h), NodeAt(s.mem, b.ptr).(sz := b.size));
      case Sized(h) => MoveKeeps(s, k, p, Linking(h, s.top));
      case Linking(h, top) =>
        var b := JobAt(s.jobs, h);
        SpillKeeps(s, k, p, Linked(h, top), NodeAt(s.mem, b.ptr).(next := top));
      case Linked(h, top) =>
        if s.top == top && !spurious {
          StackKeeps(s, k, p, h);
        } else {
          MoveKeeps(s, k, p, Linking(h, s.top));
        }
    }
  }

  lemma Knows(s: State, k: nat, p: nat)
    requires Inv(s, k)
    ensures ProducerOk(Of(s.producers, p), p, Front(s), s.tail, k, s.log) && SpillOk(Of(s.producers, p), s.mem, s.jobs)
  {
  }

  // ---- the drain ----

  /** A step of the owner that changes nothing but where it stands. */
  lemma OwnerKeeps(s: State, k: nat, c: Consumer)
    requires Inv(s, k) && !s.consumer.Vacated? && !s.consumer.Holding? && !c.Vacated? && !c.Holding?
    requires !s.consumer.Taken? && !c.Taken?
    requires c.Ripe? ==> s.head < s.tail && CellAt(s.cells, k, s.head).stamp == s.head + 1
    requires WalkOk(c, s.cut, s.jobs)
    ensures Inv(s.(consumer := c), k)
  {
    hide RingOk, PoppedOk, ApartOk, OutOk, PlaceOk, WalkOk;
    PlaceOwner(s.place, s.producers, s.consumer, Front(s), s.tail, s.log, s.stack, s.cut, s.done, s.lost, c);
  }

  lemma TakeKeeps(s: State, k: nat, left: Node)
    requires Inv(s, k) && s.consumer.Ripe?
    ensures Inv(Apply(s, k, Drain(left)), k)
  {
    HeadLoad(k, s.cells, s.head, s.tail, s.log, s.jobs, s.producers);
    var c := Taken(s.log[s.head].job, CellAt(s.cells, k, s.head).load);
    hide RingOk, ApartOk, OutOk, PlaceOk, ListOk;
    PlaceOwner(s.place, s.producers, s.consumer, Front(s), s.tail, s.log, s.stack, s.cut, s.done, s.lost, c);
  }

  lemma VacateKeeps(s: State, k: nat, left: Node)
    requires Inv(s, k) && s.consumer.Taken?
    ensures Inv(Apply(s, k, Drain(left)), k)
  {
    hide RingOk, ApartOk, OutOk, PlaceOk, PoppedOk, SetCell, CellAt, Put, Pow2, StackOk, OwnerOk;
    var c := Vacated(s.consumer.job, s.consumer.load);
    var cells' := SetCell(s.cells, k, s.head, CellAt(s.cells, k, s.head).(stamp := s.head + Pow2(k)));
    OwnerVacates(k, s.cells, s.head, s.tail, s.log, s.consumer, s.popped, cells');
    NoneCut(s.mem, s.jobs, s.top, s.stack, s.cut, s.producers, s.consumer);
    StackOwner(s.mem, s.jobs, s.top, s.stack, s.cut, s.producers, s.consumer, c);
    VacateRing(k, s.cells, s.head, s.tail, s.log, s.jobs, s.producers);
    PlaceVacate(s.place, s.producers, s.consumer, s.head, s.tail, s.log, s.stack, s.cut, s.done, s.lost, c);
    ApartPut(s.jobs, s.place, c.job, Hand);
  }

  lemma OwnerVacates(k: nat, cells: seq<Cell>, head: nat, tail: nat, log: seq<Entry>, c: Consumer, popped: seq<Payload>, cells': seq<Cell>)
    requires OwnerOk(k, cells, head, tail, log, c, popped) && c.Taken?
    ensures head < tail && head < |log| && CellAt(cells, k, head).stamp == head + 1 && c.job == log[head].job
    ensures OwnerOk(k, cells', head, tail, log, Vacated(c.job, c.load), popped)
  {
  }

  lemma NoneCut(mem: map<nat, Node>, jobs: seq<Payload>, top: int, stack: seq<nat>, cut: seq<nat>,
                producers: map<nat, Producer>, c: Consumer)
    requires StackOk(mem, jobs, top, stack, cut, producers, c) && c.Taken?
    ensures cut == []
  {
  }

  lemma StackOwner(mem: map<nat, Node>, jobs: seq<Payload>, top: int, stack: seq<nat>, cut: seq<nat>,
                   producers: map<nat, Producer>, c: Consumer, c': Consumer)
    requires StackOk(mem, jobs, top, stack, cut, producers, c) && WalkOk(c', cut, jobs)
    ensures StackOk(mem, jobs, top, stack, cut, producers, c')
  {
  }

  lemma AdvanceKeeps(s: State, k: nat, left: Node)
    requires Inv(s, k) && s.consumer.Vacated?
    ensures Inv(Apply(s, k, Drain(left)), k)
  {
    var c := Holding(s.consumer.job, s.consumer.load);
    hide RingOk, ApartOk, OutOk, PlaceOk, ListOk, PoppedOk, CellAt;
    PlaceOwner(s.place, s.producers, s.consumer, Front(s), s.tail, s.log, s.stack, s.cut, s.done, s.lost, c);
  }

  /** The owner's hand holds the job it popped last. */
  lemma HandKnown(s: State, k: nat)
    requires Inv(s, k) && s.consumer.Holding?
    ensures Outstanding(s, s.consumer.job) && s.place[s.consumer.job] == Hand
    ensures s.consumer.load == s.jobs[s.consumer.job] && s.cut == []
  {
    hide RingOk, StackOk, OutOk, Backed;
    assert Says(s.place, s.consumer.job, Hand);
    assert s.popped[s.head - 1] == s.jobs[s.log[s.head - 1].job];
    assert WalkOk(s.consumer, s.cut, s.jobs) by {
      Walks(s, k);
    }
  }

  lemma Walks(s: State, k: nat)
    requires Inv(s, k)
    ensures WalkOk(s.consumer, s.cut, s.jobs) && s.top == TopOf(s.jobs, s.stack)
    ensures ListOk(s.mem, s.jobs, s.cut) && ListOk(s.mem, s.jobs, s.stack)
  {
  }

  lemma ReleaseKeeps(s: State, k: nat, left: Node)
    requires Inv(s, k) && s.consumer.Holding?
    ensures Inv(Apply(s, k, Drain(left)), k)
  {
    var h := s.consumer.job;
    HandKnown(s, k);
    ClientPart(s, k, h, left, s.cut, Popping);
    hide RingOk, ApartOk, OutOk, PlaceOk, ListOk, PoppedOk, CellAt, StackOk, Put;
    PlaceRelease(s.place, s.producers, s.consumer, Front(s), s.tail, s.log, s.stack, s.cut, s.done, s.lost);
    ApartPut(s.jobs, s.place, h, Done(|s.done|));
    OutRelease(s.jobs, s.done, s.out, h);
  }

  /** Releasing job h lets go of its block's memory; the lists do not pass through it. */
  lemma ClientPart(s: State, k: nat, h: nat, left: Node, cut: seq<nat>, c: Consumer)
    requires Inv(s, k) && Outstanding(s, h) && (s.place[h].Hand? || s.place[h] == Cut(|cut|)) && cut <= s.cut
    requires WalkOk(c, cut, s.jobs) && ListOk(s.mem, s.jobs, cut)
    ensures StackOk(s.mem[PtrOf(s.jobs, h) := left], s.jobs, s.top, s.stack, cut, s.producers, c)
  {
    var ptr, mem' := PtrOf(s.jobs, h), s.mem[PtrOf(s.jobs, h) := left];
    forall j: nat | j < |s.stack|
      ensures PtrOf(s.jobs, s.stack[j]) != ptr
    {
      ListedKnown(s, k, j);
      JobsApart(s, k, s.stack[j], h);
    }
    forall j: nat | j < |cut|
      ensures PtrOf(s.jobs, cut[j]) != ptr
    {
      ListedKnown(s, k, j);
      assert cut[j] == s.cut[j];
      JobsApart(s, k, cut[j], h);
    }
    forall q: nat, g: nat | Pushing(Of(s.producers, q), g)
      ensures PtrOf(s.jobs, g) != ptr
    {
      JobKnown(s, k, q);
      JobsApart(s, k, g, h);
    }
    hide OwnerOk, PoppedOk, ApartOk, OutOk, PlaceOk, RingOk, WalkOk;
    ListFrame(s.mem, mem', s.jobs, s.stack);
    ListFrame(s.mem, mem', s.jobs, cut);
    forall q: nat
      ensures SpillOk(Of(s.producers, q), mem', s.jobs)
    {
      assert SpillOk(Of(s.producers, q), s.mem, s.jobs);
      if !Of(s.producers, q).Ready? && !Of(s.producers, q).Filling? && !Of(s.producers, q).Filled? {
        assert Pushing(Of(s.producers, q), Of(s.producers, q).job);
      }
    }
  }

  lemma DetachKeeps(s: State, k: nat, left: Node)
    requires Inv(s, k) && s.consumer.Swapping?
    ensures Inv(Apply(s, k, Drain(left)), k)
  {
    Walks(s, k);
    assert s.cut == [];
    var c := Walking(s.top);
    hide RingOk, ApartOk, OutOk, PlaceOk, ListOk, PoppedOk, CellAt;
    PlaceCut(s.place, s.producers, s.consumer, s.head, s.tail, s.log, s.stack, s.done, s.lost, c);
    ApartCut(s.jobs, s.place);
    assert ListOk(s.mem, s.jobs, []) by {
      EmptyList(s.mem, s.jobs);
    }
  }

  lemma EmptyList(mem: map<nat, Node>, jobs: seq<Payload>)
    ensures ListOk(mem, jobs, [])
  {
  }

  /** The fetched link and size are the job's, because nothing wrote to its block since it was listed. */
  lemma FetchKeeps(s: State, k: nat, left: Node)
    requires Inv(s, k) && s.consumer.Walking?
    ensures Inv(Apply(s, k, Drain(left)), k)
  {
    Walks(s, k);
    ListPrefix(s.mem, s.jobs, s.cut);
    var link := s.consumer.link;
    if link < 0 {
      OwnerKeeps(s, k, Away);
    } else {
      OwnerKeeps(s, k, Fetched(link, NodeAt(s.mem, link).next, NodeAt(s.mem, link).sz));
    }
  }

  lemma UncutKeeps(s: State, k: nat, left: Node)
    requires Inv(s, k) && s.consumer.Fetched?
    ensures Inv(Apply(s, k, Drain(left)), k)
  {
    Walks(s, k);
    ListPrefix(s.mem, s.jobs, s.cut);
    var h, c := Last(s.cut), Walking(s.consumer.next);
    ListedKnown(s, k, |s.cut| - 1);
    ClientPart(s, k, h, left, ButLast(s.cut), c);
    assert Payload(s.consumer.node, s.consumer.sz) == s.jobs[h];
    hide RingOk, ApartOk, OutOk, PlaceOk, ListOk, PoppedOk, CellAt, StackOk, Put;
    PlaceUncut(s.place, s.producers, s.consumer, s.head, s.tail, s.log, s.stack, s.cut, s.done, s.lost, c);
    ApartPut(s.jobs, s.place, h, Done(|s.done|));
    OutRelease(s.jobs, s.done, s.out, h);
  }

  /** Every step of every drain. */
  lemma DrainKeeps(s: State, k: nat, left: Node)
    requires Inv(s, k) && !s.consumer.Away?
    ensures Inv(Apply(s, k, Drain(left)), k)
  {
    hide RingOk, ApartOk, OutOk, PlaceOk, ListOk, PoppedOk, CellAt, OwnerOk;
    Walks(s, k);
    match s.consumer {
      case Popping =>
        var ripe := CellAt(s.cells, k, s.head).stamp == s.head + 1;
        if ripe {
          HeadLoad(k, s.cells, s.head, s.tail, s.log, s.jobs, s.producers);
        }
        OwnerKeeps(s, k, if ripe then Ripe else RingDone);
      case Ripe => TakeKeeps(s, k, left);
      case Taken(_, _) => VacateKeeps(s, k, left);
      case Vacated(_, _) => AdvanceKeeps(s, k, left);
      case Holding(_, _) => ReleaseKeeps(s, k, left);
      case RingDone => OwnerKeeps(s, k, if s.top == NIL then Away else Swapping);
      case Swapping => DetachKeeps(s, k, left);
      case Walking(_) => FetchKeeps(s, k, left);
      case Fetched(_, _, _) => UncutKeeps(s, k, left);
    }
  }

  /** Rings of two cells or more: no step of any thread breaks the invariant. */
  lemma StepKeeps(s: State, k: nat, a: Action)
    requires k > 0 && Inv(s, k) && Enabled(s, a)
    ensures Inv(Apply(s, k, a), k)
  {
    hide Inv;
    match a {
      case Begin(p, load) => BeginKeeps(s, k, p, load);
      case Push(p, spurious) => PushKeeps(s, k, p, spurious);
      case BeginDrain => BeginDrainKeeps(s, k);
      case Drain(left) => DrainKeeps(s, k, left);
      case OwnerDies => AbandonKeeps(s, k);
      case ClientWrite(ptr, left) => ClientKeeps(s, k, ptr, left);
    }
  }

  /** The owner may die anywhere in a drain but between handing a cell back and advancing the head. */
  lemma AbandonExact(s: State, k: nat)
    requires k > 0 && Inv(s, k) && !s.consumer.Away?
    ensures Inv(Abandon(s), k) <==> !s.consumer.Vacated?
  {
    if s.consumer.Vacated? {
      AheadOfHead(s, k);
      HeadTaken(s, k);
      NoEntry(Abandon(s), k);
    } else {
      AbandonKeeps(s, k);
    }
  }

  lemma AbandonKeeps(s: State, k: nat)
    requires Inv(s, k) && !s.consumer.Vacated?
    ensures Inv(Abandon(s), k)
  {
    hide RingOk, ApartOk, OutOk, PlaceOk, ListOk, CellAt, LostPlaces, StackOk, OwnerOk, PoppedOk;
    HandOrCut(s, k);
    PlaceLost(s.place, s.producers, s.consumer, Front(s), s.tail, s.log, s.stack, s.cut, s.done, s.lost);
    ApartLost(s.jobs, s.place, |s.lost|);
    StackAbandon(s.mem, s.jobs, s.top, s.stack, s.cut, s.producers, s.consumer);
    OwnerAbandon(k, s.cells, s.head, s.tail, s.log, s.consumer, s.popped, Abandon(s).popped, s.jobs);
  }

  lemma HandOrCut(s: State, k: nat)
    requires Inv(s, k)
    ensures s.consumer.Vacated? || s.consumer.Holding? ==> s.cut == []
  {
    Walks(s, k);
  }

  lemma StackAbandon(mem: map<nat, Node>, jobs: seq<Payload>, top: int, stack: seq<nat>, cut: seq<nat>,
                     producers: map<nat, Producer>, c: Consumer)
    requires StackOk(mem, jobs, top, stack, cut, producers, c)
    ensures StackOk(mem, jobs, top, stack, [], producers, Away)
  {
    EmptyList(mem, jobs);
  }

  lemma OwnerAbandon(k: nat, cells: seq<Cell>, head: nat, tail: nat, log: seq<Entry>, c: Consumer, popped: seq<Payload>,
                     popped': seq<Payload>, jobs: seq<Payload>)
    requires OwnerOk(k, cells, head, tail, log, c, popped) && PoppedOk(popped, jobs, log) && !c.Vacated?
    requires popped' == if c.Taken? && popped != [] then popped[..|popped| - 1] else popped
    ensures OwnerOk(k, cells, head, tail, log, Away, popped') && PoppedOk(popped', jobs, log)
  {
  }

  /** Once its new number is stored, the head's cell is ahead of the head. */
  lemma AheadOfHead(s: State, k: nat)
    requires k > 0 && Inv(s, k) && s.consumer.Vacated?
    ensures |s.cells| == Pow2(k) && CellAt(s.cells, k, s.head).stamp > s.head + 1
  {
    hide PlaceOk, StackOk, OwnerOk, PoppedOk, OutOk, ApartOk;
    var i := s.head + Pow2(k);
    CellAgain(s.head, k);
    Pow2Mono(0, k);
    assert CellAt(s.cells, k, i) == CellAt(s.cells, k, s.head);
    hide CellAt, Pow2;
    if i < s.tail {
      assert EntryOk(CellAt(s.cells, k, i), s.log[i], i, s.jobs, Of(s.producers, s.log[i].who));
    } else {
      assert CellAt(s.cells, k, i).stamp == i;
    }
  }

  lemma HeadTaken(s: State, k: nat)
    requires Inv(s, k) && s.consumer.Vacated?
    ensures s.head < s.tail == |s.log|
  {
    hide PlaceOk, StackOk, PoppedOk, OutOk, ApartOk;
  }

  /** A reserved cell at the head can only hold the head's number or the next one. */
  lemma NoEntry(s: State, k: nat)
    requires s.consumer.Away? && s.head < s.tail == |s.log| && CellAt(s.cells, k, s.head).stamp > s.head + 1
    ensures !Inv(s, k)
  {
    hide PlaceOk, StackOk, OwnerOk, PoppedOk, OutOk, ApartOk;
    assert !EntryOk(CellAt(s.cells, k, s.head), s.log[s.head], s.head, s.jobs, Of(s.producers, s.log[s.head].who));
  }

  lemma BeginDrainKeeps(s: State, k: nat)
    requires Inv(s, k) && s.consumer.Away?
    ensures Inv(s.(consumer := Popping), k)
  {
    hide RingOk, ApartOk, OutOk, PlaceOk, ListOk, PoppedOk, CellAt;
    OwnerKeeps(s, k, Popping);
  }

  lemma {:induction false} RunKeeps(s: State, k: nat, run: seq<Action>)
    requires k > 0 && Inv(s, k) && Runs(s, k, run)
    ensures Inv(After(s, k, run), k)
    decreases |run|
  {
    hide Inv;
    if run != [] {
      StepKeeps(s, k, run[0]);
      RunKeeps(Apply(s, k, run[0]), k, run[1..]);
    }
  }

  // ---- what the invariant means ----

  ghost predicate InFlight(s: State, h: nat)
  {
    exists p: nat :: Pushing(Of(s.producers, p), h)
  }

  ghost predicate InRing(s: State, h: nat)
  {
    exists i: nat :: Front(s) <= i < s.tail && i < |s.log| && s.log[i].job == h
  }

  ghost predicate InHand(s: State, h: nat)
  {
    (s.consumer.Vacated? || s.consumer.Holding?) && s.consumer.job == h
  }

  function One(b: bool): nat
  {
    if b then 1 else 0
  }

  /** How many of the seven places a handed-over block is found in. */
  ghost function Sightings(s: State, h: nat): nat
  {
    One(InFlight(s, h)) + One(InRing(s, h)) + One(InHand(s, h)) + One(h in s.stack) + One(h in s.cut) + One(h in s.done)
    + One(h in s.lost)
  }

  /** A place that holds a job is the one on record for it. */
  lemma PlaceTells(s: State, k: nat, h: nat)
    requires Inv(s, k) && h < |s.jobs|
    ensures h < |s.place|
    ensures InFlight(s, h) <==> s.place[h].With?
    ensures InRing(s, h) <==> s.place[h].Slot?
    ensures InHand(s, h) <==> s.place[h].Hand?
    ensures h in s.stack <==> s.place[h].Stacked?
    ensures h in s.cut <==> s.place[h].Cut?
    ensures h in s.done <==> s.place[h].Done?
    ensures h in s.lost <==> s.place[h].Lost?
  {
    hide RingOk, StackOk, OwnerOk, PoppedOk, OutOk;
    assert Backed(s.place[h], h, s.producers, s.consumer, Front(s), s.tail, s.log, s.stack, s.cut, s.done, s.lost);
    if InFlight(s, h) {
      var p: nat :| Pushing(Of(s.producers, p), h);
      assert Says(s.place, h, With(p));
    }
    if InRing(s, h) {
      var i: nat :| Front(s) <= i < s.tail && i < |s.log| && s.log[i].job == h;
      assert Says(s.place, s.log[i].job, Slot(i));
    }
    if h in s.stack {
      var j: nat :| j < |s.stack| && s.stack[j] == h;
      assert Says(s.place, s.stack[j], Stacked(j));
    }
    if h in s.cut {
      var j: nat :| j < |s.cut| && s.cut[j] == h;
      assert Says(s.place, s.cut[j], Cut(j));
    }
    if h in s.done {
      var n: nat :| n < |s.done| && s.done[n] == h;
      assert Says(s.place, s.done[n], Done(n));
    }
    if h in s.lost {
      var n: nat :| n < |s.lost| && s.lost[n] == h;
      assert Says(s.place, s.lost[n], Lost(n));
    }
  }

  /** Each block handed over is in exactly one place, and listed there once. */
  lemma ExactlyOnce(s: State, k: nat, h: nat)
    requires Inv(s, k) && h < |s.jobs|
    ensures Sightings(s, h) == 1
    ensures NoDup(s.stack) && NoDup(s.cut) && NoDup(s.done) && NoDup(s.lost)
    ensures forall i, j :: Front(s) <= i < j < s.tail && j < |s.log| ==> s.log[i].job != s.log[j].job
  {
    PlaceTells(s, k, h);
    hide RingOk, StackOk, OwnerOk, PoppedOk, OutOk, Backed, ApartOk, InFlight, InRing, InHand;
    forall i, j | 0 <= i < j < |s.stack|
      ensures s.stack[i] != s.stack[j]
    {
      assert Says(s.place, s.stack[i], Stacked(i)) && Says(s.place, s.stack[j], Stacked(j));
    }
    forall i, j | 0 <= i < j < |s.cut|
      ensures s.cut[i] != s.cut[j]
    {
      assert Says(s.place, s.cut[i], Cut(i)) && Says(s.place, s.cut[j], Cut(j));
    }
    forall i, j | 0 <= i < j < |s.done|
      ensures s.done[i] != s.done[j]
    {
      assert Says(s.place, s.done[i], Done(i)) && Says(s.place, s.done[j], Done(j));
    }
    forall i, j | 0 <= i < j < |s.lost|
      ensures s.lost[i] != s.lost[j]
    {
      assert Says(s.place, s.lost[i], Lost(i)) && Says(s.place, s.lost[j], Lost(j));
    }
    forall i, j | Front(s) <= i < j < s.tail && j < |s.log|
      ensures s.log[i].job != s.log[j].job
    {
      assert Says(s.place, s.log[i].job, Slot(i)) && Says(s.place, s.log[j].job, Slot(j));
    }
  }

  /** The payloads of some jobs. */
  function Payloads(jobs: seq<Payload>, ids: seq<nat>): (r: seq<Payload>)
    ensures |r| == |ids|
  {
    seq(|ids|, i requires 0 <= i < |ids| => JobAt(jobs, ids[i]))
  }

  /**
   With no push under way and both queues empty, the releases are the hand-overs, pointer and size, less
   what owners lost by dying inside a drain.
   */
  lemma Quiescent(s: State, k: nat)
    requires Inv(s, k) && s.consumer.Away? && s.tail == s.head && s.top == NIL
    requires forall p: nat :: Of(s.producers, p).Ready?
    ensures multiset(s.out) + multiset(Payloads(s.jobs, s.lost)) == multiset(s.jobs)
    ensures s.lost == [] ==> multiset(s.out) == multiset(s.jobs)
  {
    var ended, out := s.done + s.lost, s.out + Payloads(s.jobs, s.lost);
    forall h: nat | h < |s.jobs|
      ensures h in ended
    {
      AllDone(s, k, h);
    }
    EndedOnce(s, k);
    hide Inv;
    Permuted(s.jobs, ended, out);
  }

  lemma EndedOnce(s: State, k: nat)
    requires Inv(s, k)
    ensures NoDup(s.done + s.lost) && OutOk(s.jobs, s.done + s.lost, s.out + Payloads(s.jobs, s.lost))
  {
    hide RingOk, StackOk, OwnerOk, PoppedOk, Backed;
    var ended := s.done + s.lost;
    forall n: nat | n < |ended|
      ensures ended[n] < |s.jobs| && Says(s.place, ended[n], if n < |s.done| then Done(n) else Lost(n - |s.done|))
    {
      if n < |s.done| {
        assert Says(s.place, s.done[n], Done(n));
      } else {
        assert Says(s.place, s.lost[n - |s.done|], Lost(n - |s.done|));
      }
    }
  }

  lemma AllDone(s: State, k: nat, h: nat)
    requires Inv(s, k) && s.consumer.Away? && s.tail == s.head && s.top == NIL && h < |s.jobs|
    requires forall p: nat :: Of(s.producers, p).Ready?
    ensures h in s.done || h in s.lost
  {
    PlaceTells(s, k, h);
    Walks(s, k);
    hide Inv;
    assert s.stack == [] && s.cut == [];
    assert !InFlight(s, h) && !InRing(s, h) && !InHand(s, h);
  }

  /** Leaving out the last job and its release. */
  lemma DropLast(jobs: seq<Payload>, done: seq<nat>, out: seq<Payload>) returns (n: nat)
    requires NoDup(done) && OutOk(jobs, done, out) && jobs != []
    requires forall h: nat :: h < |jobs| ==> h in done
    ensures n < |done| == |out| && out[n] == jobs[|jobs| - 1] && NoDup(Without(done, n))
    ensures OutOk(jobs[..|jobs| - 1], Without(done, n), out[..n] + out[n + 1..])
    ensures forall h: nat :: h < |jobs| - 1 ==> h in Without(done, n)
  {
    var h: nat := |jobs| - 1;
    assert h in done;
    n :| 0 <= n < |done| && done[n] == h;
    WithoutMembers(done, n);
    var done', out' := Without(done, n), out[..n] + out[n + 1..];
    forall m: nat | m < |out'|
      ensures done'[m] < |jobs| - 1 && out'[m] == jobs[done'[m]]
    {
      var l := if m < n then m else m + 1;
      assert done'[m] == done[l] && out'[m] == out[l] && done[l] != h;
    }
  }

  lemma ReleasedKnown(jobs: seq<Payload>, done: seq<nat>, out: seq<Payload>)
    requires OutOk(jobs, done, out)
    ensures out != [] ==> jobs != []
  {
    if out != [] {
      assert done[0] < |jobs|;
    }
  }

  lemma WithoutOne(s: seq<Payload>, n: nat)
    requires n < |s|
    ensures multiset(s) == multiset(s[..n] + s[n + 1..]) + multiset{s[n]}
  {
    assert s == s[..n] + [s[n]] + s[n + 1..];
  }

  /** Releasing every job once is releasing the same payloads. */
  lemma {:induction false} Permuted(jobs: seq<Payload>, done: seq<nat>, out: seq<Payload>)
    requires NoDup(done) && OutOk(jobs, done, out)
    requires forall h: nat :: h < |jobs| ==> h in done
    ensures multiset(out) == multiset(jobs)
    decreases |jobs|
  {
    if jobs == [] {
      ReleasedKnown(jobs, done, out);
    } else {
      var n := DropLast(jobs, done, out);
      var jobs', out' := jobs[..|jobs| - 1], out[..n] + out[n + 1..];
      Permuted(jobs', Without(done, n), out');
      hide OutOk, NoDup, Without;
      WithoutOne(out, n);
      WithoutOne(jobs, |jobs| - 1);
      assert jobs[..|jobs| - 1] + jobs[|jobs|..] == jobs';
    }
  }

  /** Reservations outstanding never exceed the cells; payloads leave in the order of reservation. */
  lemma RingBounds(s: State, k: nat)
    requires Inv(s, k)
    ensures Front(s) <= s.tail <= Front(s) + Pow2(k)
    ensures |s.popped| <= s.tail == |s.log|
    ensures forall i :: 0 <= i < |s.popped| ==> s.log[i].job < |s.jobs| && s.popped[i] == s.jobs[s.log[i].job]
  {
  }

  /** A push gives up on the ring exactly when every cell is outstanding. */
  lemma RefusedIffFull(s: State, k: nat, p: nat, h: nat, t: nat, spurious: bool)
    requires k > 0 && Inv(s, k) && Of(s.producers, p) == Loaded(h, t)
    ensures Of(Apply(s, k, Push(p, spurious)).producers, p).Spilling? <==> t == Front(s) + Pow2(k)
    ensures t == Front(s) + Pow2(k) ==> s.tail == t
  {
    hide PlaceOk, StackOk, OwnerOk, PoppedOk, ApartOk, OutOk;
    Knows(s, k, p);
    StampTells(k, s.cells, Front(s), s.tail, s.log, s.jobs, s.producers, t);
  }

  /** An owner that is not draining sees every published push it has not popped. */
  lemma PublishedSeen(s: State, k: nat, i: nat)
    requires Inv(s, k) && s.consumer.Away? && s.head <= i < s.head + Pow2(k) && CellAt(s.cells, k, i).stamp == i + 1
    ensures s.tail != s.head
  {
    hide PlaceOk, StackOk, OwnerOk, PoppedOk, ApartOk, OutOk;
  }

  // ---- the smallest ring ----

  lemma RunCons(s: State, k: nat, a: Action, rest: seq<Action>)
    ensures After(s, k, [a] + rest) == After(Apply(s, k, a), k, rest)
    ensures Runs(s, k, [a] + rest) <==> Enabled(s, a) && Runs(Apply(s, k, a), k, rest)
  {
    assert ([a] + rest)[1..] == rest;
  }

  /** n uninterrupted steps of the push by thread p. */
  function Pushes(p: nat, n: nat): seq<Action>
  {
    if n == 0 then [] else [Push(p, false)] + Pushes(p, n - 1)
  }

  lemma OneCell(i: nat)
    ensures CellOf(i, 0) == 0
  {
    CellBound(i, 0);
  }

  /** One uninterrupted push on a ring of one cell: it takes the cell even if that holds an unpopped payload. */
  lemma PushAlone(s: State, p: nat) returns (t: State)
    requires |s.cells| == 1 && s.cells[0].stamp == s.tail && Of(s.producers, p).Begun?
    ensures Runs(s, 0, Pushes(p, 5)) && t == After(s, 0, Pushes(p, 5))
    ensures |t.cells| == 1 && t.cells[0].stamp == t.tail == s.tail + 1 && t.head == s.head && t.consumer == s.consumer
    ensures t.jobs == s.jobs && |t.place| == |s.place| && t.producers == s.producers[p := Ready]
  {
    hide After, Runs;
    OneCell(s.tail);
    var h := Of(s.producers, p).job;
    var s1 := Apply(s, 0, Push(p, false));
    var s2 := Apply(s1, 0, Push(p, false));
    assert Of(s2.producers, p) == Claiming(h, s.tail);
    var s3 := Apply(s2, 0, Push(p, false));
    var s4 := Apply(s3, 0, Push(p, false));
    t := Apply(s4, 0, Push(p, false));
    assert t.producers == s.producers[p := Ready];
    NoSteps(t, 0);
    RunCons(s4, 0, Push(p, false), Pushes(p, 0));
    RunCons(s3, 0, Push(p, false), Pushes(p, 1));
    RunCons(s2, 0, Push(p, false), Pushes(p, 2));
    RunCons(s1, 0, Push(p, false), Pushes(p, 3));
    RunCons(s, 0, Push(p, false), Pushes(p, 4));
  }

  lemma NoSteps(s: State, k: nat)
    ensures After(s, k, []) == s && Runs(s, k, [])
  {
  }

  /** A run with one step put before it. */
  lemma Before(s: State, k: nat, a: Action, rest: seq<Action>, n: State) returns (run: seq<Action>)
    requires Enabled(s, a) && Runs(Apply(s, k, a), k, rest) && n == After(Apply(s, k, a), k, rest)
    ensures run == [a] + rest && Runs(s, k, run) && n == After(s, k, run)
  {
    RunCons(s, k, a, rest);
    run := [a] + rest;
  }

  lemma {:induction false} RunAppend(s: State, k: nat, a: seq<Action>, b: seq<Action>)
    ensures After(s, k, a + b) == After(After(s, k, a), k, b)
    ensures Runs(s, k, a + b) <==> Runs(s, k, a) && Runs(After(s, k, a), k, b)
    decreases |a|
  {
    hide Apply, Enabled;
    if a == [] {
      assert a + b == b;
    } else {
      RunAppend(Apply(s, k, a[0]), k, a[1..], b);
      assert (a + b)[1..] == a[1..] + b;
    }
  }

  /** With one cell, a second push overwrites the first before it is popped. */
  lemma SingleCellOverruns(s: State) returns (run: seq<Action>)
    requires Init(s, 0)
    ensures Runs(s, 0, run) && After(s, 0, run).tail == Front(After(s, 0, run)) + 2
  {
    hide Runs, After, Pushes;
    var a, b := Begin(0, Payload(64, 8)), Begin(0, Payload(128, 8));
    var s1 := Apply(s, 0, a);
    var s2 := PushAlone(s1, 0);
    assert Enabled(s2, b);
    var s3 := Apply(s2, 0, b);
    var s4 := PushAlone(s3, 0);
    RunCons(s2, 0, b, Pushes(0, 5));
    RunAppend(s1, 0, Pushes(0, 5), [b] + Pushes(0, 5));
    run := [a] + (Pushes(0, 5) + ([b] + Pushes(0, 5)));
    RunCons(s, 0, a, Pushes(0, 5) + ([b] + Pushes(0, 5)));
  }

  /** Outstanding reservations stay within the ring, over every run, exactly when it has more than one cell. */
  lemma NeverOverruns(s: State, k: nat)
    requires Init(s, k)
    ensures (forall run :: Runs(s, k, run) ==> After(s, k, run).tail <= Front(After(s, k, run)) + Pow2(k)) <==> k > 0
  {
    if k > 0 {
      InitInv(s, k);
      forall run | Runs(s, k, run)
        ensures After(s, k, run).tail <= Front(After(s, k, run)) + Pow2(k)
      {
        RunKeeps(s, k, run);
        RingBounds(After(s, k, run), k);
      }
    } else {
      var run := SingleCellOverruns(s);
    }
  }
}
