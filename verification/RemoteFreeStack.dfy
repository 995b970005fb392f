/** The stack half of the remote-free invariant, and where each handed-over block is. */
module RemoteFreeStack {
  import opened FreeList
  import opened RemoteFree

  // ---- links inside the blocks ----

  function PtrOf(jobs: seq<Payload>, h: nat): nat
  {
    JobAt(jobs, h).ptr
  }

  /** The address of the last block of a list kept bottom first. */
  function TopOf(jobs: seq<Payload>, ids: seq<nat>): int
  {
    if ids == [] then NIL else PtrOf(jobs, Last(ids))
  }

  ghost predicate NodeOk(mem: map<nat, Node>, jobs: seq<Payload>, ids: seq<nat>, j: nat)
    requires j < |ids|
  {
    ids[j] < |jobs| && NodeAt(mem, PtrOf(jobs, ids[j])) == Node(jobs[ids[j]].size, TopOf(jobs, ids[..j]))
  }

  /** Every block of the list holds its size and the address of the block below it. */
  ghost predicate ListOk(mem: map<nat, Node>, jobs: seq<Payload>, ids: seq<nat>)
  {
    forall j: nat :: j < |ids| ==> NodeOk(mem, jobs, ids, j)
  }

  /** What a producer on the overflow path has written into its block. */
  ghost predicate SpillOk(x: Producer, mem: map<nat, Node>, jobs: seq<Payload>)
  {
    match x
    case Sized(h) => NodeAt(mem, PtrOf(jobs, h)).sz == JobAt(jobs, h).size
    case Linking(h, top) => NodeAt(mem, PtrOf(jobs, h)).sz == JobAt(jobs, h).size
    case Linked(h, top) => NodeAt(mem, PtrOf(jobs, h)) == Node(JobAt(jobs, h).size, top)
    case _ => true
  }

  ghost predicate WalkOk(c: Consumer, cut: seq<nat>, jobs: seq<Payload>)
  {
    match c
    case Walking(link) => link == TopOf(jobs, cut)
    case Fetched(node, next, sz) =>
      cut != [] && Last(cut) < |jobs| && Payload(node, sz) == jobs[Last(cut)] && next == TopOf(jobs, ButLast(cut))
    case _ => cut == []
  }

  ghost predicate StackOk(mem: map<nat, Node>, jobs: seq<Payload>, top: int, stack: seq<nat>, cut: seq<nat>,
                          producers: map<nat, Producer>, c: Consumer)
  {
    && top == TopOf(jobs, stack) && ListOk(mem, jobs, stack) && ListOk(mem, jobs, cut)
    && (forall p: nat :: SpillOk(Of(producers, p), mem, jobs))
    && WalkOk(c, cut, jobs)
  }

  lemma StackMove(mem: map<nat, Node>, jobs: seq<Payload>, top: int, stack: seq<nat>, cut: seq<nat>,
                  producers: map<nat, Producer>, c: Consumer, p: nat, x: Producer)
    requires StackOk(mem, jobs, top, stack, cut, producers, c) && SpillOk(x, mem, jobs)
    ensures StackOk(mem, jobs, top, stack, cut, producers[p := x], c)
  {
    var producers' := producers[p := x];
    forall q: nat
      ensures SpillOk(Of(producers', q), mem, jobs)
    {
      assert SpillOk(Of(producers, q), mem, jobs);
    }
  }

  lemma ListFrame(mem: map<nat, Node>, mem': map<nat, Node>, jobs: seq<Payload>, ids: seq<nat>)
    requires ListOk(mem, jobs, ids)
    requires forall j: nat :: j < |ids| ==> NodeAt(mem', PtrOf(jobs, ids[j])) == NodeAt(mem, PtrOf(jobs, ids[j]))
    ensures ListOk(mem', jobs, ids)
  {
    forall j: nat | j < |ids|
      ensures NodeOk(mem', jobs, ids, j)
    {
      assert NodeOk(mem, jobs, ids, j);
    }
  }

  /** A job on the way: its block is on no client's hands. */
  predicate Pushing(x: Producer, h: nat)
  {
    !x.Ready? && !x.Filling? && !x.Filled? && x.job == h
  }

  /** Memory at ptr changes, where no listed block and no other spilling producer's block lies. */
  lemma StackWrite(mem: map<nat, Node>, jobs: seq<Payload>, top: int, stack: seq<nat>, cut: seq<nat>,
                   producers: map<nat, Producer>, c: Consumer, ptr: nat, left: Node, p: nat, x: Producer)
    requires StackOk(mem, jobs, top, stack, cut, producers, c)
    requires forall j: nat :: j < |stack| ==> PtrOf(jobs, stack[j]) != ptr
    requires forall j: nat :: j < |cut| ==> PtrOf(jobs, cut[j]) != ptr
    requires forall q: nat, h: nat :: q != p && Pushing(Of(producers, q), h) ==> PtrOf(jobs, h) != ptr
    requires SpillOk(x, mem[ptr := left], jobs)
    ensures StackOk(mem[ptr := left], jobs, top, stack, cut, producers[p := x], c)
  {
    var mem', producers' := mem[ptr := left], producers[p := x];
    ListFrame(mem, mem', jobs, stack);
    ListFrame(mem, mem', jobs, cut);
    forall q: nat
      ensures SpillOk(Of(producers', q), mem', jobs)
    {
      assert SpillOk(Of(producers, q), mem, jobs);
      if q != p && !Of(producers, q).Ready? {
        assert Pushing(Of(producers, q), Of(producers, q).job) || Of(producers, q).Filling? || Of(producers, q).Filled?;
      }
    }
  }

  lemma ListJobs(mem: map<nat, Node>, jobs: seq<Payload>, ids: seq<nat>, load: Payload)
    requires ListOk(mem, jobs, ids)
    ensures ListOk(mem, jobs + [load], ids) && TopOf(jobs + [load], ids) == TopOf(jobs, ids)
  {
    forall j: nat | j < |ids|
      ensures NodeOk(mem, jobs + [load], ids, j)
    {
      assert NodeOk(mem, jobs, ids, j);
      if j > 0 {
        assert NodeOk(mem, jobs, ids, j - 1);
        assert Last(ids[..j]) == ids[j - 1];
      }
    }
    if ids != [] {
      assert NodeOk(mem, jobs, ids, |ids| - 1);
    }
  }

  /** A new job leaves the stacks of the older ones alone. */
  lemma StackJobs(mem: map<nat, Node>, jobs: seq<Payload>, top: int, stack: seq<nat>, cut: seq<nat>,
                  producers: map<nat, Producer>, c: Consumer, load: Payload)
    requires StackOk(mem, jobs, top, stack, cut, producers, c)
    requires forall q: nat :: !Of(producers, q).Ready? ==> Of(producers, q).job < |jobs|
    ensures StackOk(mem, jobs + [load], top, stack, cut, producers, c)
  {
    ListJobs(mem, jobs, stack, load);
    ListJobs(mem, jobs, cut, load);
    if c.Fetched? {
      ListPrefix(mem, jobs, cut);
      ListJobs(mem, jobs, ButLast(cut), load);
    }
    forall q: nat
      ensures SpillOk(Of(producers, q), mem, jobs + [load])
    {
      assert SpillOk(Of(producers, q), mem, jobs);
    }
  }

  lemma ListPrefix(mem: map<nat, Node>, jobs: seq<Payload>, ids: seq<nat>)
    requires ListOk(mem, jobs, ids)
    ensures ListOk(mem, jobs, ButLast(ids))
    ensures ids != [] ==> Last(ids) < |jobs| && NodeAt(mem, PtrOf(jobs, Last(ids))) == Node(jobs[Last(ids)].size, TopOf(jobs, ButLast(ids)))
  {
    if ids != [] {
      assert NodeOk(mem, jobs, ids, |ids| - 1);
      forall j: nat | j < |ids| - 1
        ensures NodeOk(mem, jobs, ButLast(ids), j)
      {
        assert NodeOk(mem, jobs, ids, j);
        assert ids[..j] == ButLast(ids)[..j];
      }
    }
  }

  /** A linked block becomes the top of the list it points to. */
  lemma ListPush(mem: map<nat, Node>, jobs: seq<Payload>, ids: seq<nat>, h: nat)
    requires ListOk(mem, jobs, ids) && h < |jobs|
    requires NodeAt(mem, PtrOf(jobs, h)) == Node(jobs[h].size, TopOf(jobs, ids))
    ensures ListOk(mem, jobs, ids + [h]) && TopOf(jobs, ids + [h]) == PtrOf(jobs, h)
  {
    var ids' := ids + [h];
    forall j: nat | j < |ids'|
      ensures NodeOk(mem, jobs, ids', j)
    {
      if j < |ids| {
        assert NodeOk(mem, jobs, ids, j);
        assert ids'[..j] == ids[..j];
      } else {
        assert ids'[..j] == ids;
      }
    }
  }

  /** The exchange that links a block in succeeds only while its link is the top. */
  lemma StackPush(mem: map<nat, Node>, jobs: seq<Payload>, top: int, stack: seq<nat>, cut: seq<nat>,
                  producers: map<nat, Producer>, c: Consumer, p: nat, h: nat)
    requires StackOk(mem, jobs, top, stack, cut, producers, c) && Of(producers, p) == Linked(h, top) && h < |jobs|
    ensures StackOk(mem, jobs, PtrOf(jobs, h), stack + [h], cut, producers[p := Ready], c)
  {
    assert SpillOk(Of(producers, p), mem, jobs);
    ListPush(mem, jobs, stack, h);
    StackMove(mem, jobs, top, stack, cut, producers, c, p, Ready);
  }

  // ---- where the blocks are ----

  /** What the place of job h says about the rest of the state. */
  ghost predicate Backed(x: Place, h: nat, producers: map<nat, Producer>, c: Consumer, front: nat, tail: nat,
                         log: seq<Entry>, stack: seq<nat>, cut: seq<nat>, done: seq<nat>, lost: seq<nat>)
  {
    match x
    case With(p) => Pushing(Of(producers, p), h)
    case Slot(i) => front <= i < tail && i < |log| && log[i].job == h
    case Hand => (c.Vacated? || c.Holding?) && c.job == h
    case Stacked(j) => j < |stack| && stack[j] == h
    case Cut(j) => j < |cut| && cut[j] == h
    case Done(n) => n < |done| && done[n] == h
    case Lost(n) => n < |lost| && lost[n] == h
  }

  predicate Says(place: seq<Place>, h: nat, x: Place)
  {
    h < |place| && place[h] == x
  }

  /** The other way round: every holder of a job is its place. */
  ghost predicate Held(place: seq<Place>, producers: map<nat, Producer>, c: Consumer, front: nat, tail: nat,
                       log: seq<Entry>, stack: seq<nat>, cut: seq<nat>, done: seq<nat>, lost: seq<nat>)
  {
    && |log| == tail
    && (forall p: nat, h: nat :: Pushing(Of(producers, p), h) ==> Says(place, h, With(p)))
    && (forall i: nat :: front <= i < tail ==> Says(place, log[i].job, Slot(i)))
    && (c.Vacated? || c.Holding? ==> Says(place, c.job, Hand))
    && (forall j: nat :: j < |stack| ==> Says(place, stack[j], Stacked(j)))
    && (forall j: nat :: j < |cut| ==> Says(place, cut[j], Cut(j)))
    && (forall n: nat :: n < |done| ==> Says(place, done[n], Done(n)))
    && (forall n: nat :: n < |lost| ==> Says(place, lost[n], Lost(n)))
  }

  ghost predicate PlaceOk(place: seq<Place>, producers: map<nat, Producer>, c: Consumer, front: nat, tail: nat,
                          log: seq<Entry>, stack: seq<nat>, cut: seq<nat>, done: seq<nat>, lost: seq<nat>)
  {
    && Held(place, producers, c, front, tail, log, stack, cut, done, lost)
    && forall h: nat :: h < |place| ==> Backed(place[h], h, producers, c, front, tail, log, stack, cut, done, lost)
  }

  /** Blocks whose release is pending lie at different addresses. */
  ghost predicate ApartOk(jobs: seq<Payload>, place: seq<Place>)
  {
    && |jobs| == |place|
    && forall g: nat, h: nat :: g < h < |jobs| && !place[g].Done? && !place[h].Done? ==> jobs[g].ptr != jobs[h].ptr
  }

  /** Every job of `done` has its pointer and size in `out`: every release is of a job, with the pointer and size it was pushed with. */
  ghost predicate OutOk(jobs: seq<Payload>, done: seq<nat>, out: seq<Payload>)
  {
    |out| == |done| && forall n: nat :: n < |out| ==> done[n] < |jobs| && out[n] == jobs[done[n]]
  }

  lemma PlaceMove(place: seq<Place>, producers: map<nat, Producer>, c: Consumer, front: nat, tail: nat,
                  log: seq<Entry>, stack: seq<nat>, cut: seq<nat>, done: seq<nat>, lost: seq<nat>, p: nat, x: Producer)
    requires PlaceOk(place, producers, c, front, tail, log, stack, cut, done, lost)
    requires forall h: nat :: Pushing(x, h) <==> Pushing(Of(producers, p), h)
    ensures PlaceOk(place, producers[p := x], c, front, tail, log, stack, cut, done, lost)
  {
    var producers' := producers[p := x];
    forall h: nat | h < |place|
      ensures Backed(place[h], h, producers', c, front, tail, log, stack, cut, done, lost)
    {
      assert Backed(place[h], h, producers, c, front, tail, log, stack, cut, done, lost);
    }
  }

  lemma PlaceBegin(place: seq<Place>, producers: map<nat, Producer>, c: Consumer, front: nat, tail: nat,
                   log: seq<Entry>, stack: seq<nat>, cut: seq<nat>, done: seq<nat>, lost: seq<nat>, p: nat)
    requires PlaceOk(place, producers, c, front, tail, log, stack, cut, done, lost) && Of(producers, p).Ready?
    ensures PlaceOk(place + [With(p)], producers[p := Begun(|place|)], c, front, tail, log, stack, cut, done, lost)
  {
    var place', producers' := place + [With(p)], producers[p := Begun(|place|)];
    forall h: nat | h < |place'|
      ensures Backed(place'[h], h, producers', c, front, tail, log, stack, cut, done, lost)
    {
      if h < |place| {
        assert Backed(place[h], h, producers, c, front, tail, log, stack, cut, done, lost);
      }
    }
    forall q: nat, h: nat | Pushing(Of(producers', q), h)
      ensures Says(place', h, With(q))
    {
      assert q != p ==> Pushing(Of(producers, q), h) && Says(place, h, With(q));
    }
    forall i: nat | front <= i < tail
      ensures Says(place', log[i].job, Slot(i))
    {
      assert Says(place, log[i].job, Slot(i));
    }
  }

  /** The tail's exchange moves the job from its thread to the ring. */
  lemma PlaceReserve(place: seq<Place>, producers: map<nat, Producer>, c: Consumer, front: nat, tail: nat,
                     log: seq<Entry>, stack: seq<nat>, cut: seq<nat>, done: seq<nat>, lost: seq<nat>, p: nat, h: nat)
    requires PlaceOk(place, producers, c, front, tail, log, stack, cut, done, lost) && front <= tail
    requires Of(producers, p) == Claiming(h, tail)
    ensures Says(place, h, With(p))
    ensures PlaceOk(Put(place, h, Slot(tail)), producers[p := Filling(h, tail)], c, front, tail + 1,
                    log + [Entry(h, p)], stack, cut, done, lost)
  {
    assert Pushing(Of(producers, p), h);
    var place', producers', log' := Put(place, h, Slot(tail)), producers[p := Filling(h, tail)], log + [Entry(h, p)];
    forall g: nat | g < |place'|
      ensures Backed(place'[g], g, producers', c, front, tail + 1, log', stack, cut, done, lost)
    {
      assert Backed(place[g], g, producers, c, front, tail, log, stack, cut, done, lost);
    }
    forall q: nat, g: nat | Pushing(Of(producers', q), g)
      ensures Says(place', g, With(q))
    {
      assert q != p && Pushing(Of(producers, q), g) && Says(place, g, With(q));
    }
    forall i: nat | front <= i < tail + 1
      ensures Says(place', log'[i].job, Slot(i))
    {
      assert i < tail ==> Says(place, log[i].job, Slot(i));
    }
  }

  /** The owner hands the front cell back and holds its job. */
  lemma PlaceVacate(place: seq<Place>, producers: map<nat, Producer>, c: Consumer, front: nat, tail: nat,
                    log: seq<Entry>, stack: seq<nat>, cut: seq<nat>, done: seq<nat>, lost: seq<nat>, c': Consumer)
    requires PlaceOk(place, producers, c, front, tail, log, stack, cut, done, lost) && front < tail
    requires !c.Vacated? && !c.Holding? && c'.Vacated? && c'.job == log[front].job
    ensures Says(place, c'.job, Slot(front))
    ensures PlaceOk(Put(place, c'.job, Hand), producers, c', front + 1, tail, log, stack, cut, done, lost)
  {
    var h := c'.job;
    assert Says(place, h, Slot(front));
    var place' := Put(place, h, Hand);
    forall g: nat | g < |place'|
      ensures Backed(place'[g], g, producers, c', front + 1, tail, log, stack, cut, done, lost)
    {
      assert Backed(place[g], g, producers, c, front, tail, log, stack, cut, done, lost);
    }
    forall q: nat, g: nat | Pushing(Of(producers, q), g)
      ensures Says(place', g, With(q))
    {
      assert Says(place, g, With(q));
    }
    forall i: nat | front + 1 <= i < tail
      ensures Says(place', log[i].job, Slot(i))
    {
      assert Says(place, log[i].job, Slot(i));
    }
  }

  /** The owner goes on without taking up or giving up a job. */
  lemma PlaceOwner(place: seq<Place>, producers: map<nat, Producer>, c: Consumer, front: nat, tail: nat,
                   log: seq<Entry>, stack: seq<nat>, cut: seq<nat>, done: seq<nat>, lost: seq<nat>, c': Consumer)
    requires PlaceOk(place, producers, c, front, tail, log, stack, cut, done, lost)
    requires if c.Vacated? || c.Holding? then (c'.Vacated? || c'.Holding?) && c'.job == c.job
             else !c'.Vacated? && !c'.Holding?
    ensures PlaceOk(place, producers, c', front, tail, log, stack, cut, done, lost)
  {
    forall g: nat | g < |place|
      ensures Backed(place[g], g, producers, c', front, tail, log, stack, cut, done, lost)
    {
      assert Backed(place[g], g, producers, c, front, tail, log, stack, cut, done, lost);
    }
  }

  /** The block in the owner's hand is released. */
  lemma PlaceRelease(place: seq<Place>, producers: map<nat, Producer>, c: Consumer, front: nat, tail: nat,
                     log: seq<Entry>, stack: seq<nat>, cut: seq<nat>, done: seq<nat>, lost: seq<nat>)
    requires PlaceOk(place, producers, c, front, tail, log, stack, cut, done, lost) && c.Holding?
    ensures Says(place, c.job, Hand)
    ensures PlaceOk(Put(place, c.job, Done(|done|)), producers, Popping, front, tail, log, stack, cut, done + [c.job], lost)
  {
    var h := c.job;
    var place', done' := Put(place, h, Done(|done|)), done + [h];
    forall g: nat | g < |place'|
      ensures Backed(place'[g], g, producers, Popping, front, tail, log, stack, cut, done', lost)
    {
      assert Backed(place[g], g, producers, c, front, tail, log, stack, cut, done, lost);
    }
    forall q: nat, g: nat | Pushing(Of(producers, q), g)
      ensures Says(place', g, With(q))
    {
      assert Says(place, g, With(q));
    }
    forall i: nat | front <= i < tail
      ensures Says(place', log[i].job, Slot(i))
    {
      assert Says(place, log[i].job, Slot(i));
    }
  }

  /** The head's exchange moves the job from its thread to the stack. */
  lemma PlaceStack(place: seq<Place>, producers: map<nat, Producer>, c: Consumer, front: nat, tail: nat,
                   log: seq<Entry>, stack: seq<nat>, cut: seq<nat>, done: seq<nat>, lost: seq<nat>, p: nat, h: nat)
    requires PlaceOk(place, producers, c, front, tail, log, stack, cut, done, lost) && Pushing(Of(producers, p), h)
    ensures Says(place, h, With(p))
    ensures PlaceOk(Put(place, h, Stacked(|stack|)), producers[p := Ready], c, front, tail, log, stack + [h], cut, done, lost)
  {
    var place', producers', stack' := Put(place, h, Stacked(|stack|)), producers[p := Ready], stack + [h];
    forall g: nat | g < |place'|
      ensures Backed(place'[g], g, producers', c, front, tail, log, stack', cut, done, lost)
    {
      assert Backed(place[g], g, producers, c, front, tail, log, stack, cut, done, lost);
    }
    forall q: nat, g: nat | Pushing(Of(producers', q), g)
      ensures Says(place', g, With(q))
    {
      assert q != p && Pushing(Of(producers, q), g) && Says(place, g, With(q));
    }
    forall i: nat | front <= i < tail
      ensures Says(place', log[i].job, Slot(i))
    {
      assert Says(place, log[i].job, Slot(i));
    }
  }

  /** Detaching takes the whole stack, and no push is lost or doubled. */
  lemma PlaceCut(place: seq<Place>, producers: map<nat, Producer>, c: Consumer, front: nat, tail: nat,
                 log: seq<Entry>, stack: seq<nat>, done: seq<nat>, lost: seq<nat>, c': Consumer)
    requires PlaceOk(place, producers, c, front, tail, log, stack, [], done, lost)
    requires !c.Vacated? && !c.Holding? && !c'.Vacated? && !c'.Holding?
    ensures PlaceOk(CutPlaces(place), producers, c', front, tail, log, [], stack, done, lost)
  {
    var place' := CutPlaces(place);
    forall g: nat | g < |place'|
      ensures Backed(place'[g], g, producers, c', front, tail, log, [], stack, done, lost)
    {
      assert Backed(place[g], g, producers, c, front, tail, log, stack, [], done, lost);
    }
    forall q: nat, g: nat | Pushing(Of(producers, q), g)
      ensures Says(place', g, With(q))
    {
      assert Says(place, g, With(q));
    }
    forall i: nat | front <= i < tail
      ensures Says(place', log[i].job, Slot(i))
    {
      assert Says(place, log[i].job, Slot(i));
    }
    forall j: nat | j < |stack|
      ensures Says(place', stack[j], Cut(j))
    {
      assert Says(place, stack[j], Stacked(j));
    }
    forall n: nat | n < |done|
      ensures Says(place', done[n], Done(n))
    {
      assert Says(place, done[n], Done(n));
    }
    forall n: nat | n < |lost|
      ensures Says(place', lost[n], Lost(n))
    {
      assert Says(place, lost[n], Lost(n));
    }
  }

  /** The owner dies with a job in its hand, or with a detached list: nobody knows of these blocks any more. */
  lemma PlaceLost(place: seq<Place>, producers: map<nat, Producer>, c: Consumer, front: nat, tail: nat,
                  log: seq<Entry>, stack: seq<nat>, cut: seq<nat>, done: seq<nat>, lost: seq<nat>)
    requires PlaceOk(place, producers, c, front, tail, log, stack, cut, done, lost)
    requires c.Vacated? || c.Holding? ==> cut == []
    ensures PlaceOk(LostPlaces(place, |lost|), producers, Away, front, tail, log, stack, [], done, lost + Known(c, cut))
  {
    var place', lost' := LostPlaces(place, |lost|), lost + Known(c, cut);
    forall g: nat | g < |place'|
      ensures Backed(place'[g], g, producers, Away, front, tail, log, stack, [], done, lost')
    {
      assert Backed(place[g], g, producers, c, front, tail, log, stack, cut, done, lost);
    }
    forall q: nat, g: nat | Pushing(Of(producers, q), g)
      ensures Says(place', g, With(q))
    {
      assert Says(place, g, With(q));
    }
    forall i: nat | front <= i < tail
      ensures Says(place', log[i].job, Slot(i))
    {
      assert Says(place, log[i].job, Slot(i));
    }
    forall j: nat | j < |stack|
      ensures Says(place', stack[j], Stacked(j))
    {
      assert Says(place, stack[j], Stacked(j));
    }
    forall n: nat | n < |done|
      ensures Says(place', done[n], Done(n))
    {
      assert Says(place, done[n], Done(n));
    }
    forall n: nat | n < |lost'|
      ensures Says(place', lost'[n], Lost(n))
    {
      assert n < |lost| ==> Says(place, lost[n], Lost(n));
      assert n >= |lost| && cut != [] ==> Says(place, cut[n - |lost|], Cut(n - |lost|));
    }
  }

  /** The top of the detached list is released. */
  lemma PlaceUncut(place: seq<Place>, producers: map<nat, Producer>, c: Consumer, front: nat, tail: nat,
                   log: seq<Entry>, stack: seq<nat>, cut: seq<nat>, done: seq<nat>, lost: seq<nat>, c': Consumer)
    requires PlaceOk(place, producers, c, front, tail, log, stack, cut, done, lost) && cut != []
    requires !c.Vacated? && !c.Holding? && !c'.Vacated? && !c'.Holding?
    ensures Says(place, Last(cut), Cut(|cut| - 1))
    ensures PlaceOk(Put(place, Last(cut), Done(|done|)), producers, c', front, tail, log, stack, ButLast(cut), done + [Last(cut)], lost)
  {
    var h := Last(cut);
    assert Says(place, cut[|cut| - 1], Cut(|cut| - 1));
    var place', cut', done' := Put(place, h, Done(|done|)), ButLast(cut), done + [h];
    forall g: nat | g < |place'|
      ensures Backed(place'[g], g, producers, c', front, tail, log, stack, cut', done', lost)
    {
      assert Backed(place[g], g, producers, c, front, tail, log, stack, cut, done, lost);
    }
    forall q: nat, g: nat | Pushing(Of(producers, q), g)
      ensures Says(place', g, With(q))
    {
      assert Says(place, g, With(q));
    }
    forall i: nat | front <= i < tail
      ensures Says(place', log[i].job, Slot(i))
    {
      assert Says(place, log[i].job, Slot(i));
    }
    forall j: nat | j < |cut'|
      ensures Says(place', cut'[j], Cut(j))
    {
      assert Says(place, cut[j], Cut(j));
    }
  }

  lemma ApartPut(jobs: seq<Payload>, place: seq<Place>, h: nat, x: Place)
    requires ApartOk(jobs, place) && (h < |place| ==> !place[h].Done?)
    ensures ApartOk(jobs, Put(place, h, x))
  {
  }

  lemma ApartCut(jobs: seq<Payload>, place: seq<Place>)
    requires ApartOk(jobs, place)
    ensures ApartOk(jobs, CutPlaces(place))
  {
    var place' := CutPlaces(place);
    assert forall h :: 0 <= h < |place| ==> (place'[h].Done? <==> place[h].Done?);
  }

  lemma ApartLost(jobs: seq<Payload>, place: seq<Place>, base: nat)
    requires ApartOk(jobs, place)
    ensures ApartOk(jobs, LostPlaces(place, base))
  {
    var place' := LostPlaces(place, base);
    assert forall h :: 0 <= h < |place| ==> (place'[h].Done? <==> place[h].Done?);
  }

  lemma ApartBegin(jobs: seq<Payload>, place: seq<Place>, load: Payload, x: Place)
    requires ApartOk(jobs, place)
    requires forall h: nat :: h < |place| && h < |jobs| && !place[h].Done? ==> jobs[h].ptr != load.ptr
    ensures ApartOk(jobs + [load], place + [x])
  {
  }

  lemma OutBegin(jobs: seq<Payload>, done: seq<nat>, out: seq<Payload>, load: Payload)
    requires OutOk(jobs, done, out)
    ensures OutOk(jobs + [load], done, out)
  {
  }

  lemma OutRelease(jobs: seq<Payload>, done: seq<nat>, out: seq<Payload>, h: nat)
    requires OutOk(jobs, done, out) && h < |jobs|
    ensures OutOk(jobs, done + [h], out + [jobs[h]])
  {
  }
}
